// Whole runs: any interleaving of appends, replacements, scans, and failures
// over many files.
module IngestRuns {
  import opened Basics
  import opened Lines
  import opened Ingest
  import opened IngestTheorems

  // Beside the database and the files, the lines successful scans have handed to
  // the parser so far.
  datatype World = World(db: Db, files: map<Path, seq<Byte>>, lines: map<Path, seq<Line>>)

  // A scan stats the file, may see it grow by `late` before the read, and may
  // fail at one insert or at the state write; a blocked scan cannot open it. A
  // file may be truncated, replaced or removed as well as appended to.
  datatype Step =
    | Grow(path: Path, bytes: seq<Byte>)
    | Replace(path: Path, content: Option<seq<Byte>>)
    | Scan(path: Path, late: seq<Byte>, failingInsert: Option<nat>, upsertFails: bool)
    | Blocked(path: Path)

  function FileOf(w: World, path: Path): seq<Byte> {
    if path in w.files then w.files[path] else []
  }

  function LinesOf(w: World, path: Path): seq<Line> {
    if path in w.lines then w.lines[path] else []
  }

  function ScanEnv(w: World, s: Step): FileEnv
    requires s.Scan?
  {
    var view := if s.path in w.files then Readable(|FileOf(w, s.path)|, FileOf(w, s.path) + s.late) else Missing;
    FileEnv(view, s.failingInsert, s.upsertFails)
  }

  function AfterScan(w: World, s: Step, parse: Parser): World
    requires s.Scan?
  {
    var (db, ok) := ScanFile(w.db, s.path, parse, ScanEnv(w, s));
    World(db,
          if s.path in w.files then w.files[s.path := FileOf(w, s.path) + s.late] else w.files,
          if ok then w.lines[s.path := LinesOf(w, s.path) + Handed(w.db, s.path, ScanEnv(w, s))] else w.lines)
  }

  function Next(w: World, s: Step, parse: Parser): World {
    match s
    case Grow(path, bytes) => w.(files := w.files[path := FileOf(w, path) + bytes])
    case Replace(path, content) =>
      w.(files := if content.None? then w.files - {path} else w.files[path := content.value])
    case Blocked(path) => w.(db := ScanFile(w.db, path, parse, FileEnv(Unreadable, None, false)).0)
    case Scan(_, _, _, _) => AfterScan(w, s, parse)
  }

  function Run(w: World, steps: seq<Step>, parse: Parser): World {
    if steps == [] then w else Next(Run(w, steps[..|steps| - 1], parse), steps[|steps| - 1], parse)
  }

  const EMPTY_DB := Db(map[], 0, map[])

  function Start(files: map<Path, seq<Byte>>): World { World(EMPTY_DB, files, map[]) }

  predicate Appends(s: Step, path: Path) { !(s.Replace? && s.path == path) }

  // Nothing but growth happens to the file at path.
  predicate AppendOnly(steps: seq<Step>, path: Path) {
    forall i :: 0 <= i < |steps| ==> Appends(steps[i], path)
  }

  // --- The invariant of one file ---

  // The cursor keeps its meaning, and the lines handed over so far are the
  // complete lines of the bytes behind it.
  ghost predicate OnTrack(w: World, path: Path, parse: Parser) {
    && Tracks(w.db, path, FileOf(w, path), parse)
    && LinesOf(w, path) == CompleteLines(FileOf(w, path)[..StateOf(w.db, path).offset])
  }

  lemma StartOnTrack(files: map<Path, seq<Byte>>, path: Path, parse: Parser)
    ensures OnTrack(Start(files), path, parse)
  {
    assert FileOf(Start(files), path)[..0] == [];
  }

  lemma GrowKeeps(w: World, path: Path, bytes: seq<Byte>, parse: Parser)
    requires OnTrack(w, path, parse)
    ensures OnTrack(Next(w, Grow(path, bytes), parse), path, parse)
  {
    hide CompleteLines, Tracks;
    TracksGrowth(w.db, path, FileOf(w, path), bytes, parse);
    TracksBounds(w.db, path, FileOf(w, path), parse);
    var o := StateOf(w.db, path).offset;
    assert (FileOf(w, path) + bytes)[..o] == FileOf(w, path)[..o];
  }

  lemma TracksBounds(db: Db, path: Path, file: seq<Byte>, parse: Parser)
    requires Tracks(db, path, file, parse)
    ensures StateOf(db, path).offset <= |file| && |StateOf(db, path).partial| <= MAX_PARTIAL
    ensures Opened(db, path, |file|) == StateOf(db, path)
  {}

  lemma OtherScanKeeps(w: World, s: Step, path: Path, parse: Parser)
    requires OnTrack(w, path, parse) && s.Scan? && s.path != path
    ensures OnTrack(Next(w, s, parse), path, parse)
  {
    hide CompleteLines, Tracks, ScanFile, Process, Handed;
    ScanFramesOthers(w.db, s.path, parse, ScanEnv(w, s), path, FileOf(w, path));
    ScanEffect(w.db, s.path, parse, ScanEnv(w, s));
  }

  lemma OwnScanKeeps(w: World, s: Step, path: Path, parse: Parser)
    requires OnTrack(w, path, parse) && s.Scan? && s.path == path
    requires Fits(FileOf(Next(w, s, parse), path))
    ensures OnTrack(Next(w, s, parse), path, parse)
  {
    hide CompleteLines, Rest, ScanFile, Process, Ingested, Sound, Carries, Fits;
    if path in w.files {
      var before, content := FileOf(w, path), FileOf(w, path) + s.late;
      TracksBounds(w.db, path, before, parse);
      GrowKeeps(w, path, s.late, parse);
      TracksGrowth(w.db, path, before, s.late, parse);
      ScanKeepsTrack(w.db, path, content, parse, ScanEnv(w, s));
      ChunkExtends(w.db, path, content);
      var o := StateOf(w.db, path).offset;
      assert content[..o] == before[..o];
      NothingHanded(w.db, path, content);
    } else {
      MissingDoesNothing(w.db, path, parse, ScanEnv(w, s));
    }
  }

  lemma NothingHanded(db: Db, path: Path, content: seq<Byte>)
    ensures StateOf(db, path).offset <= |content| && Chunk(db, path, content) == [] ==>
              Min(StateOf(db, path).offset + CHUNK, |content|) == StateOf(db, path).offset
    ensures Chunk(db, path, content) != [] ==>
              Min(StateOf(db, path).offset + CHUNK, |content|) == StateOf(db, path).offset + |Chunk(db, path, content)|
  {}

  lemma MissingDoesNothing(db: Db, path: Path, parse: Parser, env: FileEnv)
    requires env.view == Missing || env.view == Unreadable
    ensures ScanFile(db, path, parse, env).0 == db && Handed(db, path, env) == []
  {}

  lemma StepOnTrack(w: World, s: Step, path: Path, parse: Parser)
    requires OnTrack(w, path, parse) && Appends(s, path) && Fits(FileOf(Next(w, s, parse), path))
    ensures OnTrack(Next(w, s, parse), path, parse)
  {
    hide Tracks, CompleteLines, Fits, AfterScan;
    match s
    case Grow(q, bytes) =>
      if q == path {
        GrowKeeps(w, path, bytes, parse);
      }
    case Replace(_, _) =>
    case Blocked(q) => MissingDoesNothing(w.db, q, parse, FileEnv(Unreadable, None, false));
    case Scan(q, _, _, _) =>
      if q == path {
        OwnScanKeeps(w, s, path, parse);
      } else {
        OtherScanKeeps(w, s, path, parse);
      }
  }

  lemma StepGrows(w: World, s: Step, path: Path, parse: Parser)
    requires Appends(s, path)
    ensures FileOf(w, path) <= FileOf(Next(w, s, parse), path)
  {
    hide ScanFile;
  }

  // On every run in which one file is only appended to and its finished lines
  // fit the cap, its cursor keeps its meaning, whatever fails on the way and
  // whatever happens to the other files.
  lemma {:induction false} RunKeepsTrack(files: map<Path, seq<Byte>>, steps: seq<Step>, parse: Parser, path: Path)
    requires AppendOnly(steps, path) && Fits(FileOf(Run(Start(files), steps, parse), path))
    ensures OnTrack(Run(Start(files), steps, parse), path, parse)
  {
    hide OnTrack, Next, Fits;
    if steps == [] {
      StartOnTrack(files, path, parse);
    } else {
      var n := |steps| - 1;
      var w := Run(Start(files), steps[..n], parse);
      StepGrows(w, steps[n], path, parse);
      PrefixFits(FileOf(w, path), FileOf(Next(w, steps[n], parse), path));
      RunKeepsTrack(files, steps[..n], parse, path);
      StepOnTrack(w, steps[n], path, parse);
    }
  }

  // Chunk independence over whole runs: the lines handed to the parser are the
  // complete lines of the first Offset bytes, so they do not depend on where the
  // reads fell; and with newlines, followed by the partial line, they are those
  // bytes, exactly when the unfinished line fits the cap.
  lemma LinesIndependentOfReads(files: map<Path, seq<Byte>>, steps: seq<Step>, parse: Parser, path: Path)
    requires AppendOnly(steps, path) && Fits(FileOf(Run(Start(files), steps, parse), path))
    ensures var w := Run(Start(files), steps, parse);
            var s := StateOf(w.db, path);
            && s.offset <= |FileOf(w, path)|
            && LinesOf(w, path) == CompleteLines(FileOf(w, path)[..s.offset])
            && OneLine(s.partial) && (forall i :: 0 <= i < |LinesOf(w, path)| ==> OneLine(LinesOf(w, path)[i]))
            && (Text(LinesOf(w, path)) + s.partial == FileOf(w, path)[..s.offset] <==>
                |Rest(FileOf(w, path)[..s.offset])| <= MAX_PARTIAL)
  {
    hide Run, CompleteLines, Rest, Text, Fits, Ingested, Sound;
    RunKeepsTrack(files, steps, parse, path);
    var w := Run(Start(files), steps, parse);
    var s := StateOf(w.db, path);
    var read := FileOf(w, path)[..s.offset];
    SplitCompleteParts(read);
    if Text(LinesOf(w, path)) + s.partial == read {
      SameRest(Text(LinesOf(w, path)), s.partial, Rest(read));
    }
  }

  lemma SameRest(t: seq<Byte>, a: Line, b: Line)
    requires t + a == t + b
    ensures a == b
  {
    assert a == (t + a)[|t|..] && b == (t + b)[|t|..];
  }

  // --- Rows ---

  // The fingerprint hashes the source path, so no two paths share one.
  ghost predicate PathScoped(parse: Parser) {
    forall p, l, q, m :: parse(p, l).Valid? && parse(p, l) == parse(q, m) ==> p == q
  }

  ghost predicate HoldsLine(file: seq<Byte>, path: Path, parse: Parser, fp: Fingerprint) {
    exists i :: 0 <= i < |CompleteLines(file)| && parse(path, CompleteLines(file)[i]) == Valid(fp)
  }

  // Each row carries the fingerprint of its own line under its own path.
  ghost predicate RowsValid(db: Db, parse: Parser) {
    forall fp :: fp in db.events ==> parse(db.events[fp].path, db.events[fp].line) == Valid(fp)
  }

  lemma {:induction false} ProcessRowsValid(p: Progress, path: Path, lines: seq<Line>, parse: Parser, failing: Option<nat>)
    requires RowsValid(Db(p.events, 0, map[]), parse)
    ensures RowsValid(Db(Process(p, path, lines, parse, failing).events, 0, map[]), parse)
    decreases |lines|
  {
    if lines != [] && p.ok {
      ProcessRowsValid(StepLine(p, path, lines[0], parse, failing), path, lines[1..], parse, failing);
    }
  }

  lemma ScanRowsValid(db: Db, path: Path, parse: Parser, env: FileEnv)
    requires RowsValid(db, parse)
    ensures RowsValid(ScanFile(db, path, parse, env).0, parse)
  {
    hide Process, SplitComplete, Opened, ReadAt;
    if env.view.Readable? {
      var s := Opened(db, path, env.view.size);
      var data := ReadAt(env.view.content, s.offset);
      ProcessRowsValid(Progress(db.events, 0, 0, true), path, SplitComplete(s.partial + data).0, parse, env.failingInsert);
    }
  }

  lemma {:induction false} AllRowsValid(w: World, steps: seq<Step>, parse: Parser)
    requires RowsValid(w.db, parse)
    ensures RowsValid(Run(w, steps, parse).db, parse)
  {
    if steps != [] {
      hide ScanFile, RowsValid;
      var n := |steps| - 1;
      var before := Run(w, steps[..n], parse);
      AllRowsValid(w, steps[..n], parse);
      match steps[n] {
        case Grow(_, _) =>
        case Replace(_, _) =>
        case Blocked(path) => ScanRowsValid(before.db, path, parse, FileEnv(Unreadable, None, false));
        case Scan(path, _, _, _) => ScanRowsValid(before.db, path, parse, ScanEnv(before, steps[n]));
      }
    }
  }

  // What "exactly once" means for one file: with the cursor at the end its rows
  // are exactly the fingerprints of its valid complete lines; before that they
  // are among them and include every one behind the cursor.
  ghost predicate RowsRight(w: World, path: Path, parse: Parser) {
    var file, offset := FileOf(w, path), StateOf(w.db, path).offset;
    && offset <= |file|
    && (forall fp :: HoldsLine(file[..offset], path, parse, fp) ==> Owns(w.db, path, fp))
    && (forall fp :: Owns(w.db, path, fp) ==> HoldsLine(file, path, parse, fp))
    && (offset == |file| ==> forall fp :: Owns(w.db, path, fp) <==> HoldsLine(file, path, parse, fp))
  }

  predicate Owns(db: Db, path: Path, fp: Fingerprint) { fp in db.events && db.events[fp].path == path }

  lemma RowsOfFile(w: World, path: Path, parse: Parser)
    requires PathScoped(parse) && RowsValid(w.db, parse) && Tracks(w.db, path, FileOf(w, path), parse)
    ensures RowsRight(w, path, parse)
  {
    hide CompleteLines, Rest, Carries;
    var db, file, offset := w.db, FileOf(w, path), StateOf(w.db, path).offset;
    forall fp | HoldsLine(file[..offset], path, parse, fp)
      ensures Owns(db, path, fp)
    {
      var i :| 0 <= i < |CompleteLines(file[..offset])| && parse(path, CompleteLines(file[..offset])[i]) == Valid(fp);
      assert LineStored(db.events, path, CompleteLines(file[..offset])[i], parse);
    }
    forall fp | Owns(db, path, fp)
      ensures HoldsLine(file, path, parse, fp)
    {
      var i :| 0 <= i < |CompleteLines(file)| && CompleteLines(file)[i] == db.events[fp].line;
    }
    assert file[..|file|] == file;
  }

  // Exactly once, after any run that only appends to the file, whatever fails and
  // whatever the other files hold.
  lemma ExactlyOnce(files: map<Path, seq<Byte>>, steps: seq<Step>, parse: Parser, path: Path)
    requires PathScoped(parse) && AppendOnly(steps, path)
    requires Fits(FileOf(Run(Start(files), steps, parse), path))
    ensures RowsRight(Run(Start(files), steps, parse), path, parse)
  {
    hide Run, Fits, PathScoped, RowsRight;
    RunKeepsTrack(files, steps, parse, path);
    AllRowsValid(Start(files), steps, parse);
    RowsOfFile(Run(Start(files), steps, parse), path, parse);
  }

  // --- Reaching the end ---

  function CleanScans(db: Db, path: Path, content: seq<Byte>, parse: Parser, n: nat): Db {
    if n == 0 then db
    else
      var earlier := CleanScans(db, path, content, parse, n - 1);
      ScanFile(earlier, path, parse, FileEnv(Readable(|content|, content), None, false)).0
  }

  lemma {:induction false} ProcessNoFailure(p: Progress, path: Path, lines: seq<Line>, parse: Parser)
    requires p.ok
    ensures Process(p, path, lines, parse, None).ok
    decreases |lines|
  {
    if lines != [] {
      ProcessNoFailure(StepLine(p, path, lines[0], parse, None), path, lines[1..], parse);
    }
  }

  // The cursor of `after` keeps its meaning and is n chunks further, or at the end.
  ghost predicate Advanced(db: Db, after: Db, path: Path, content: seq<Byte>, parse: Parser, n: nat) {
    && Tracks(after, path, content, parse)
    && StateOf(after, path).offset == Min(StateOf(db, path).offset + n * CHUNK, |content|)
  }

  // n scans without failures move the cursor n chunks, or to the end of a file
  // that has stopped growing.
  lemma {:induction false} CatchUp(db: Db, path: Path, content: seq<Byte>, parse: Parser, n: nat)
    requires Tracks(db, path, content, parse) && Fits(content)
    ensures Advanced(db, CleanScans(db, path, content, parse, n), path, content, parse, n)
  {
    hide Fits, ScanFile;
    if n == 0 {
      assert StateOf(db, path).offset <= |content|;
    } else {
      hide Tracks, StateOf, Min;
      CatchUp(db, path, content, parse, n - 1);
      MinStep(StateOf(db, path).offset, n, |content|);
      OneCleanScan(CleanScans(db, path, content, parse, n - 1), path, content, parse);
    }
  }

  lemma MinStep(o: nat, n: nat, size: nat)
    requires n > 0
    ensures Min(Min(o + (n - 1) * CHUNK, size) + CHUNK, size) == Min(o + n * CHUNK, size)
  {}

  lemma OneCleanScan(db: Db, path: Path, content: seq<Byte>, parse: Parser)
    requires Tracks(db, path, content, parse) && Fits(content)
    ensures Advanced(db, ScanFile(db, path, parse, FileEnv(Readable(|content|, content), None, false)).0,
                     path, content, parse, 1)
  {
    hide Tracks, Fits, ScanFile;
    TracksBounds(db, path, content, parse);
    CleanScanSucceeds(db, path, content, parse);
    ScanKeepsTrack(db, path, content, parse, FileEnv(Readable(|content|, content), None, false));
  }

  lemma CleanScanSucceeds(db: Db, path: Path, content: seq<Byte>, parse: Parser)
    ensures ScanFile(db, path, parse, FileEnv(Readable(|content|, content), None, false)).1
  {
    hide Process, SplitComplete, Opened, ReadAt;
    var s := Opened(db, path, |content|);
    ProcessNoFailure(Progress(db.events, 0, 0, true), path,
                     SplitComplete(s.partial + ReadAt(content, s.offset)).0, parse);
  }
}
