// The JSONL tail ingester: bounded reads from a persisted offset, a carried
// partial line, duplicate-tolerant inserts, and the offset written last.
module Ingest {
  import opened Basics
  import opened Lines
  import opened Modular

  const CHUNK: nat := 256 * 1024
  const MAX_PARTIAL: nat := 512 * 1024
  const MAX_ALERTS: nat := 10

  type Path = string
  type Fingerprint = string

  // What trimming and parsing make of one line. The parser is foreign code.
  datatype LineClass = Blank | Invalid | Valid(fingerprint: Fingerprint)
  type Parser = (Path, Line) -> LineClass

  datatype Event = Event(path: Path, line: Line)
  datatype IngestState = IngestState(offset: nat, partial: Line, fileSize: nat)
  datatype Db = Db(events: map<Fingerprint, Event>, alerts: nat, states: map<Path, IngestState>)

  // What one scan of one file meets: the stat, the read, and the first database
  // write to fail. A process killed mid-scan looks the same as a failed write.
  datatype FileView =
    | Missing
    | Directory
    | Unreadable
    | Readable(size: nat, content: seq<Byte>)

  datatype FileEnv = FileEnv(view: FileView, failingInsert: Option<nat>, upsertFails: bool)

  // --- Specification ---

  datatype Progress = Progress(events: map<Fingerprint, Event>, alerts: nat, inserts: nat, ok: bool)

  function StepLine(p: Progress, path: Path, line: Line, parse: Parser, failing: Option<nat>): Progress {
    match parse(path, line)
    case Blank => p
    case Invalid => if p.alerts < MAX_ALERTS then p.(alerts := p.alerts + 1) else p
    case Valid(fp) =>
      if failing == Some(p.inserts) then p.(ok := false)
      else if fp in p.events then p.(inserts := p.inserts + 1)
      else p.(events := p.events[fp := Event(path, line)], inserts := p.inserts + 1)
  }

  function Process(p: Progress, path: Path, lines: seq<Line>, parse: Parser, failing: Option<nat>): Progress
    decreases |lines|
  {
    if lines == [] || !p.ok then p
    else Process(StepLine(p, path, lines[0], parse, failing), path, lines[1..], parse, failing)
  }

  function Min(a: nat, b: nat): nat { if a < b then a else b }

  // The state a scan starts from, after the oversize and truncation resets.
  function Opened(db: Db, path: Path, size: nat): IngestState {
    var s := if path in db.states then db.states[path] else IngestState(0, [], 0);
    var t := if |s.partial| > MAX_PARTIAL then s.(partial := []) else s;
    if size < t.offset then IngestState(0, [], t.fileSize) else t
  }

  // At most CHUNK bytes from the offset; nothing past the end.
  function ReadAt(content: seq<Byte>, offset: nat): seq<Byte> {
    if offset >= |content| then [] else content[offset..Min(offset + CHUNK, |content|)]
  }

  function Upsert(db: Db, path: Path, s: IngestState, fails: bool): (Db, bool) {
    if fails then (db, false) else (db.(states := db.states[path := s]), true)
  }

  function Capped(rest: Line): Line {
    if |rest| > MAX_PARTIAL then [] else rest
  }

  function ScanFile(db: Db, path: Path, parse: Parser, env: FileEnv): (Db, bool) {
    match env.view
    case Missing => (db, true)
    case Directory => (db, true)
    case Unreadable => (db, false)
    case Readable(size, content) =>
      var s := Opened(db, path, size);
      var data := ReadAt(content, s.offset);
      if data == [] then Upsert(db, path, s.(fileSize := size), env.upsertFails)
      else
        var (lines, rest) := SplitComplete(s.partial + data);
        var p := Process(Progress(db.events, 0, 0, true), path, lines, parse, env.failingInsert);
        var db' := db.(events := p.events, alerts := db.alerts + p.alerts);
        if !p.ok then (db', false)
        else Upsert(db', path, IngestState(s.offset + |data|, Capped(rest), size), env.upsertFails)
  }

  // --- Which files one pass over the directory visits ---

  const MAX_FILES: nat := 100

  // The i-th position from the cursor, wrapping around n files.
  function Wrapped(cursor: nat, i: nat, n: nat): (k: nat)
    requires n > 0
    ensures k < n
  {
    Mod(Mod(cursor, n) + i, n)
  }

  function Selection(paths: seq<Path>, cursor: nat): seq<Path> {
    var n := |paths|;
    if n > MAX_FILES then seq(MAX_FILES, i requires 0 <= i < MAX_FILES => paths[Wrapped(cursor, i, n)]) else paths
  }

  function NextCursor(n: nat, cursor: nat): nat {
    if n > MAX_FILES then Wrapped(cursor, MAX_FILES, n) else 0
  }

  // A failed file is logged and the pass moves on.
  function ScanFiles(db: Db, paths: seq<Path>, parse: Parser, env: Path -> FileEnv): Db {
    if paths == [] then db
    else
      var last := |paths| - 1;
      ScanFile(ScanFiles(db, paths[..last], parse, env), paths[last], parse, env(paths[last])).0
  }

  // --- The agent ---

  datatype Inserted = Stored | Duplicate | InsertError

  class Store {
    var events: map<Fingerprint, Event>
    var alerts: nat
    var states: map<Path, IngestState>

    ghost function Value(): Db
      reads this
    {
      Db(events, alerts, states)
    }

    // The unique fingerprint index rejects a repeat.
    method Insert(fp: Fingerprint, e: Event, fails: bool) returns (r: Inserted)
      modifies this`events
      ensures r == if fails then InsertError else if fp in old(events) then Duplicate else Stored
      ensures events == if r == Stored then old(events)[fp := e] else old(events)
    {
      if fails {
        return InsertError;
      }
      if fp in events {
        return Duplicate;
      }
      events := events[fp := e];
      return Stored;
    }

    method UpsertState(path: Path, s: IngestState, fails: bool) returns (ok: bool)
      modifies this`states
      ensures Value() == Upsert(old(Value()), path, s, fails).0 && ok == Upsert(old(Value()), path, s, fails).1
    {
      if !fails {
        states := states[path := s];
      }
      ok := !fails;
    }
  }

  class IngestAgent {
    const store: Store
    const parse: Parser
    var scanPathCursor: nat

    constructor (store: Store, parse: Parser)
      ensures this.store == store && this.parse == parse && scanPathCursor == 0
    {
      this.store, this.parse, this.scanPathCursor := store, parse, 0;
    }

    // scanFile's line loop.
    method IngestLines(path: Path, lines: seq<Line>, failing: Option<nat>) returns (ok: bool)
      modifies store
      ensures store.states == old(store.states)
      ensures var p := Process(Progress(old(store.events), 0, 0, true), path, lines, parse, failing);
              store.events == p.events && store.alerts == old(store.alerts) + p.alerts && ok == p.ok
    {
      var alerts, inserts := 0, 0;
      ghost var all := Process(Progress(store.events, 0, 0, true), path, lines, parse, failing);
      var i := 0;
      while i < |lines|
        invariant i <= |lines|
        invariant store.states == old(store.states) && store.alerts == old(store.alerts) + alerts
        invariant all == Process(Progress(store.events, alerts, inserts, true), path, lines[i..], parse, failing)
      {
        ghost var p := Progress(store.events, alerts, inserts, true);
        assert lines[i..][1..] == lines[i + 1..];
        assert all == Process(StepLine(p, path, lines[i], parse, failing), path, lines[i + 1..], parse, failing);
        match parse(path, lines[i]) {
          case Blank =>
          case Invalid =>
            if alerts < MAX_ALERTS {
              store.alerts, alerts := store.alerts + 1, alerts + 1;
            }
          case Valid(fp) =>
            var r := store.Insert(fp, Event(path, lines[i]), failing == Some(inserts));
            if r == InsertError {
              return false;
            }
            inserts := inserts + 1;
        }
        i := i + 1;
      }
      return true;
    }

    // The persisted state, or a fresh one, after the oversize and truncation resets.
    method OpenState(path: Path, size: nat) returns (state: IngestState)
      ensures state == Opened(store.Value(), path, size)
    {
      state := if path in store.states then store.states[path] else IngestState(0, [], 0);
      if |state.partial| > MAX_PARTIAL {
        state := state.(partial := []);
      }
      if size < state.offset {
        state := state.(offset := 0, partial := []);
      }
    }

    // scanFile.
    method ScanOne(path: Path, env: FileEnv) returns (ok: bool)
      modifies store
      ensures store.Value() == ScanFile(old(store.Value()), path, parse, env).0
      ensures ok == ScanFile(old(store.Value()), path, parse, env).1
    {
      if env.view == Missing || env.view == Directory {
        return true;
      }
      if env.view == Unreadable {
        return false;
      }
      hide SplitComplete, Process, ReadAt, Opened, Capped, Upsert;
      var Readable(size, content) := env.view;
      var state := OpenState(path, size);
      var data := ReadAt(content, state.offset);
      if |data| == 0 {
        ok := store.UpsertState(path, state.(fileSize := size), env.upsertFails);
        return;
      }
      var (lines, remainder) := SplitComplete(state.partial + data);
      state := IngestState(state.offset + |data|, Capped(remainder), size);
      ok := IngestLines(path, lines, env.failingInsert);
      if ok {
        ok := store.UpsertState(path, state, env.upsertFails);
      }
    }

    method SelectFiles(listing: seq<Path>) returns (selected: seq<Path>, cursor: nat)
      ensures selected == Selection(listing, scanPathCursor)
      ensures cursor == NextCursor(|listing|, scanPathCursor)
    {
      var n := |listing|;
      if n <= MAX_FILES {
        return listing, 0;
      }
      selected := [];
      var start := Mod(scanPathCursor, n);
      for i := 0 to MAX_FILES
        invariant |selected| == i && forall j :: 0 <= j < i ==> selected[j] == listing[Wrapped(scanPathCursor, j, n)]
      {
        selected := selected + [listing[Mod(start + i, n)]];
      }
      cursor := Mod(start + |selected|, n);
    }

    // scan, on the sorted directory listing; retention pruning is not modelled.
    method Scan(listing: seq<Path>, env: Path -> FileEnv) returns (visited: seq<Path>)
      modifies this`scanPathCursor, store
      ensures visited == Selection(listing, old(scanPathCursor))
      ensures scanPathCursor == NextCursor(|listing|, old(scanPathCursor))
      ensures store.Value() == ScanFiles(old(store.Value()), visited, parse, env)
    {
      var n := |listing|;
      visited, scanPathCursor := SelectFiles(listing);
      hide ScanFile;
      for i := 0 to |visited|
        invariant store.Value() == ScanFiles(old(store.Value()), visited[..i], parse, env)
        invariant scanPathCursor == NextCursor(n, old(scanPathCursor))
      {
        var _ := ScanOne(visited[i], env(visited[i]));
        assert visited[..i + 1][..i] == visited[..i];
      }
      assert visited[..|visited|] == visited;
    }
  }
}
