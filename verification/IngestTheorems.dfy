// Exactly-once ingestion over every run of file growth, scans and failures.
module IngestTheorems {
  import opened Basics
  import opened Lines
  import opened Ingest

  // Every valid line among `lines` has its fingerprint in the table.
  ghost predicate Ingested(events: map<Fingerprint, Event>, path: Path, lines: seq<Line>, parse: Parser) {
    forall i :: 0 <= i < |lines| ==> LineStored(events, path, lines[i], parse)
  }

  predicate LineStored(events: map<Fingerprint, Event>, path: Path, line: Line, parse: Parser) {
    match parse(path, line) case Valid(fp) => fp in events case _ => true
  }

  // Every row of this path came from a valid line among `lines`.
  ghost predicate Sound(events: map<Fingerprint, Event>, path: Path, lines: seq<Line>, parse: Parser) {
    forall fp :: fp in events && events[fp].path == path ==>
      events[fp].line in lines && parse(path, events[fp].line) == Valid(fp)
  }

  ghost predicate Kept(a: map<Fingerprint, Event>, b: map<Fingerprint, Event>) {
    forall fp :: fp in a ==> fp in b && b[fp] == a[fp]
  }

  function StateOf(db: Db, path: Path): IngestState {
    if path in db.states then db.states[path] else IngestState(0, [], 0)
  }

  // No finished line of the file exceeds the cap.
  predicate Fits(file: seq<Byte>) {
    forall i :: 0 <= i < |CompleteLines(file)| ==> |CompleteLines(file)[i]| <= MAX_PARTIAL
  }

  // The carried partial line is what the bytes read so far leave unfinished,
  // unless that is over the cap.
  predicate Carries(partial: Line, rest: Line) {
    |partial| <= MAX_PARTIAL && if |rest| <= MAX_PARTIAL then partial == rest else OneLine(partial)
  }

  // The persisted cursor says exactly which lines have been dealt with: the
  // partial line is what the first `offset` bytes leave unfinished, all their
  // complete lines are stored, and nothing is stored that the file does not hold.
  ghost predicate Tracks(db: Db, path: Path, file: seq<Byte>, parse: Parser) {
    var s := StateOf(db, path);
    && s.offset <= |file|
    && Carries(s.partial, Rest(file[..s.offset]))
    && Ingested(db.events, path, CompleteLines(file[..s.offset]), parse)
    && Sound(db.events, path, CompleteLines(file), parse)
  }

  // --- One pass of the line loop ---

  lemma {:induction false} ProcessStores(p: Progress, path: Path, lines: seq<Line>, parse: Parser, failing: Option<nat>)
    requires p.ok
    ensures var q := Process(p, path, lines, parse, failing);
            Kept(p.events, q.events) && (q.ok ==> Ingested(q.events, path, lines, parse))
    decreases |lines|
  {
    if lines != [] {
      var next := StepLine(p, path, lines[0], parse, failing);
      if next.ok {
        ProcessStores(next, path, lines[1..], parse, failing);
        var q := Process(p, path, lines, parse, failing);
        assert LineStored(next.events, path, lines[0], parse);
        if q.ok {
          forall i | 0 <= i < |lines|
            ensures LineStored(q.events, path, lines[i], parse)
          {
            if i > 0 {
              assert lines[i] == lines[1..][i - 1];
            }
          }
        }
      }
    }
  }

  lemma {:induction false} ProcessSound(p: Progress, path: Path, lines: seq<Line>, parse: Parser, failing: Option<nat>,
                                        q: Path, all: seq<Line>)
    requires Sound(p.events, q, all, parse)
    requires q == path ==> forall i :: 0 <= i < |lines| ==> lines[i] in all
    ensures Sound(Process(p, path, lines, parse, failing).events, q, all, parse)
    decreases |lines|
  {
    if lines != [] && p.ok {
      ProcessSound(StepLine(p, path, lines[0], parse, failing), path, lines[1..], parse, failing, q, all);
    }
  }

  // --- Prefixes of an append-only file ---

  lemma LinesGrow(f: seq<Byte>, g: seq<Byte>)
    ensures CompleteLines(f) <= CompleteLines(f + g)
  {
    CarryOver(f, g);
  }

  lemma TracksGrowth(db: Db, path: Path, f: seq<Byte>, g: seq<Byte>, parse: Parser)
    requires Tracks(db, path, f, parse)
    ensures Tracks(db, path, f + g, parse)
  {
    var o := StateOf(db, path).offset;
    assert (f + g)[..o] == f[..o];
    LinesGrow(f, g);
    hide CompleteLines, Rest, Carries;
    forall fp | fp in db.events && db.events[fp].path == path
      ensures db.events[fp].line in CompleteLines(f + g)
    {
      assert db.events[fp].line in CompleteLines(f);
    }
  }

  // --- One scan ---

  // The bytes a scan of `content` reads, and what they leave unfinished.
  function Chunk(db: Db, path: Path, content: seq<Byte>): seq<Byte> {
    ReadAt(content, StateOf(db, path).offset)
  }

  function Unfinished(db: Db, path: Path, content: seq<Byte>): Line {
    Rest(StateOf(db, path).partial + Chunk(db, path, content))
  }

  lemma OpenedAsIs(db: Db, path: Path, size: nat)
    requires |StateOf(db, path).partial| <= MAX_PARTIAL && StateOf(db, path).offset <= size
    ensures Opened(db, path, size) == StateOf(db, path)
  {}

  // A rest carried into more bytes reappears at the head of the next line, or
  // of the new rest.
  lemma RestCarried(r: Line, e: seq<Byte>)
    requires OneLine(r)
    ensures if CompleteLines(r + e) == [] then Rest(r + e) == r + e else r <= CompleteLines(r + e)[0]
  {
    hide CompleteLines, Rest;
    var l := CompleteLines(r + e);
    SplitCompleteParts(r + e);
    FirstNewline(r + e, l, Rest(r + e));
    if l != [] {
      assert forall k :: 0 <= k < |r| ==> (r + e)[k] == r[k];
      assert (r + e)[..|l[0]|][..|r|] == r;
    }
  }

  lemma NoNewline(d: seq<Byte>)
    requires OneLine(d)
    ensures CompleteLines(d) == [] && Rest(d) == d
  {
    hide CompleteLines, Rest;
    SplitCompleteParts(d);
    assert Splits(d, [], d);
    SplitsUnique(d, CompleteLines(d), Rest(d), [], d);
  }

  lemma PrefixFits(f: seq<Byte>, g: seq<Byte>)
    requires f <= g && Fits(g)
    ensures Fits(f) && CompleteLines(f) <= CompleteLines(g)
  {
    assert g == f + g[|f|..];
    LinesGrow(f, g[|f|..]);
    hide CompleteLines;
    forall i | 0 <= i < |CompleteLines(f)|
      ensures |CompleteLines(f)[i]| <= MAX_PARTIAL
    {
      assert CompleteLines(f)[i] == CompleteLines(g)[i];
    }
  }

  lemma SecondPartFits(a: seq<Line>, b: seq<Line>)
    requires forall i :: 0 <= i < |a + b| ==> |(a + b)[i]| <= MAX_PARTIAL
    ensures b != [] ==> |b[0]| <= MAX_PARTIAL
  {
    if b != [] {
      assert (a + b)[|a|] == b[0];
    }
  }

  // An unfinished line over the cap stays unfinished in a file whose lines fit.
  lemma OverlongNeverEnds(d: seq<Byte>, e: seq<Byte>)
    requires Fits(d + e) && |Rest(d)| > MAX_PARTIAL
    ensures OneLine(e) && CompleteLines(d + e) == CompleteLines(d) && Rest(d + e) == Rest(d) + e
  {
    hide CompleteLines, Rest;
    SplitCompleteParts(d);
    CarryOver(d, e);
    RestCarried(Rest(d), e);
    SplitCompleteParts(Rest(d) + e);
    var m := CompleteLines(Rest(d) + e);
    SecondPartFits(CompleteLines(d), m);
    assert forall k :: 0 <= k < |e| ==> e[k] == (Rest(d) + e)[|Rest(d)| + k];
  }

  // After reading, the offset marks a longer prefix of the file; its lines are
  // the old prefix's lines followed by the lines of this chunk, and the partial
  // line carried on is right again.
  lemma ChunkExtends(db: Db, path: Path, content: seq<Byte>)
    requires var s := StateOf(db, path); s.offset <= |content| && Carries(s.partial, Rest(content[..s.offset]))
    requires Fits(content)
    ensures var s, data := StateOf(db, path), Chunk(db, path, content);
            var end := s.offset + |data|;
            && end <= |content|
            && CompleteLines(content[..end]) == CompleteLines(content[..s.offset]) + CompleteLines(s.partial + data)
            && CompleteLines(content[..end]) <= CompleteLines(content)
            && Carries(Capped(Unfinished(db, path, content)), Rest(content[..end]))
            && (|Rest(content[..s.offset])| <= MAX_PARTIAL ==> Unfinished(db, path, content) == Rest(content[..end]))
  {
    var s, data := StateOf(db, path), Chunk(db, path, content);
    var end := s.offset + |data|;
    hide CompleteLines, Rest;
    assert content[..end] == content[..s.offset] + data;
    PrefixFits(content[..end], content);
    if |Rest(content[..s.offset])| <= MAX_PARTIAL {
      CarryOver(content[..s.offset], data);
    } else {
      OverlongNeverEnds(content[..s.offset], data);
      NoNewline(s.partial + data);
    }
  }

  // A scan keeps the cursor's meaning whether it succeeds, fails at any insert,
  // or fails at the final write.
  lemma ScanKeepsTrack(db: Db, path: Path, content: seq<Byte>, parse: Parser, env: FileEnv)
    requires Tracks(db, path, content, parse) && Fits(content)
    requires env.view.Readable? && env.view.content == content
    requires StateOf(db, path).offset <= env.view.size
    ensures Tracks(ScanFile(db, path, parse, env).0, path, content, parse)
    ensures var (after, ok) := ScanFile(db, path, parse, env);
            StateOf(after, path).offset == if ok then Min(StateOf(db, path).offset + CHUNK, |content|)
                                           else StateOf(db, path).offset
  {
    hide CompleteLines, Rest, Process, ScanFile, Capped;
    var s, data := StateOf(db, path), Chunk(db, path, content);
    OpenedAsIs(db, path, env.view.size);
    ChunkExtends(db, path, content);
    var lines := CompleteLines(s.partial + data);
    var start := Progress(db.events, 0, 0, true);
    var p := Process(start, path, lines, parse, env.failingInsert);
    ProcessStores(start, path, lines, parse, env.failingInsert);
    ChunkLinesInFile(db, path, content);
    ProcessSound(start, path, lines, parse, env.failingInsert, path, CompleteLines(content));
    IngestedKept(db.events, p.events, path, CompleteLines(content[..s.offset]), parse);
    if p.ok {
      IngestedConcat(p.events, path, CompleteLines(content[..s.offset]), lines, parse);
    }
    hide Ingested, Sound, Carries, Fits;
    ScanFileCases(db, path, content, parse, env);
  }

  lemma ChunkLinesInFile(db: Db, path: Path, content: seq<Byte>)
    requires var s := StateOf(db, path); s.offset <= |content| && Carries(s.partial, Rest(content[..s.offset]))
    requires Fits(content)
    ensures var lines := CompleteLines(StateOf(db, path).partial + Chunk(db, path, content));
            forall i :: 0 <= i < |lines| ==> lines[i] in CompleteLines(content)
  {
    ChunkExtends(db, path, content);
    hide CompleteLines, Rest, Chunk, Fits, Carries;
    var s, data := StateOf(db, path), Chunk(db, path, content);
    var before, lines := CompleteLines(content[..s.offset]), CompleteLines(s.partial + data);
    forall i | 0 <= i < |lines|
      ensures lines[i] in CompleteLines(content)
    {
      assert lines[i] == (before + lines)[|before| + i];
      assert lines[i] == CompleteLines(content)[|before| + i];
    }
  }

  lemma IngestedKept(a: map<Fingerprint, Event>, b: map<Fingerprint, Event>, path: Path, lines: seq<Line>, parse: Parser)
    requires Ingested(a, path, lines, parse) && Kept(a, b)
    ensures Ingested(b, path, lines, parse)
  {
    forall i | 0 <= i < |lines|
      ensures LineStored(b, path, lines[i], parse)
    {
      assert LineStored(a, path, lines[i], parse);
    }
  }

  lemma IngestedConcat(events: map<Fingerprint, Event>, path: Path, a: seq<Line>, b: seq<Line>, parse: Parser)
    requires Ingested(events, path, a, parse) && Ingested(events, path, b, parse)
    ensures Ingested(events, path, a + b, parse)
  {
    hide LineStored;
  }

  // The new state field by field, for a scan that opens the state unchanged.
  lemma ScanFileCases(db: Db, path: Path, content: seq<Byte>, parse: Parser, env: FileEnv)
    requires env.view.Readable? && env.view.content == content
    requires Opened(db, path, env.view.size) == StateOf(db, path)
    ensures var s, data := StateOf(db, path), Chunk(db, path, content);
            var p := Process(Progress(db.events, 0, 0, true), path, CompleteLines(s.partial + data), parse,
                             env.failingInsert);
            var (after, ok) := ScanFile(db, path, parse, env);
            var t := StateOf(after, path);
            && (forall q :: q != path ==> StateOf(after, q) == StateOf(db, q))
            && if data == [] then after.events == db.events && t.offset == s.offset && t.partial == s.partial
               else
                 && after.events == p.events && (ok ==> p.ok)
                 && if ok then t.offset == s.offset + |data| && t.partial == Capped(Unfinished(db, path, content))
                    else t == s
  {
    hide SplitComplete, Process, ReadAt, Capped, Opened;
  }

  // The lines a scan hands to the parser.
  function Handed(db: Db, path: Path, env: FileEnv): seq<Line> {
    if !env.view.Readable? then []
    else
      var s := Opened(db, path, env.view.size);
      var data := ReadAt(env.view.content, s.offset);
      if data == [] then [] else CompleteLines(s.partial + data)
  }

  // Whatever a scan meets, its rows are those of the lines it hands over, and
  // the cursors of other files stay.
  lemma ScanEffect(db: Db, path: Path, parse: Parser, env: FileEnv)
    ensures var after := ScanFile(db, path, parse, env).0;
            && after.events == Process(Progress(db.events, 0, 0, true), path, Handed(db, path, env), parse,
                                       env.failingInsert).events
            && forall q :: q != path ==> StateOf(after, q) == StateOf(db, q)
  {
    hide SplitComplete, ReadAt, Opened, Capped;
  }

  // Scanning one file never disturbs what is known about another, not even when
  // it was truncated, replaced or removed, or hits the cap.
  lemma ScanFramesOthers(db: Db, path: Path, parse: Parser, env: FileEnv, q: Path, other: seq<Byte>)
    requires q != path && Tracks(db, q, other, parse)
    ensures Tracks(ScanFile(db, path, parse, env).0, q, other, parse)
  {
    hide ScanFile, CompleteLines, Rest, Process, Handed, Carries;
    ScanEffect(db, path, parse, env);
    var lines := Handed(db, path, env);
    var start := Progress(db.events, 0, 0, true);
    ProcessStores(start, path, lines, parse, env.failingInsert);
    ProcessSound(start, path, lines, parse, env.failingInsert, q, CompleteLines(other));
    IngestedKept(db.events, Process(start, path, lines, parse, env.failingInsert).events, q,
                 CompleteLines(other[..StateOf(db, q).offset]), parse);
  }
}
