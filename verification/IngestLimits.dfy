// How far exactly-once reaches: the cap on the partial line is the one limit.
module IngestLimits {
  import opened Basics
  import opened Lines
  import opened Ingest
  import opened IngestTheorems
  import opened IngestRuns

  // --- One byte per scan ---

  // The schedule in which a file grows byte by byte and every byte is scanned.
  function ByteSteps(path: Path, file: seq<Byte>): seq<Step> {
    if file == [] then []
    else ByteSteps(path, file[..|file| - 1]) + [Grow(path, [file[|file| - 1]]), Scan(path, [], None, false)]
  }

  lemma ByteStepsAppend(path: Path, file: seq<Byte>)
    ensures AppendOnly(ByteSteps(path, file), path)
  {}

  function ByteRun(path: Path, file: seq<Byte>, parse: Parser): World {
    Run(Start(map[]), ByteSteps(path, file), parse)
  }

  // The state before the last scan of the schedule.
  function ByteGrown(path: Path, file: seq<Byte>, parse: Parser): World
    requires file != []
  {
    Next(ByteRun(path, file[..|file| - 1], parse), Grow(path, [file[|file| - 1]]), parse)
  }

  lemma ByteUnrolled(path: Path, file: seq<Byte>, parse: Parser)
    requires file != []
    ensures var steps := ByteSteps(path, file);
            var n := |steps|;
            && n >= 2 && steps[n - 1] == Scan(path, [], None, false)
            && steps[..n - 2] == ByteSteps(path, file[..|file| - 1])
            && Run(Start(map[]), steps[..n - 1], parse) == ByteGrown(path, file, parse)
            && ByteRun(path, file, parse) == Next(ByteGrown(path, file, parse), steps[n - 1], parse)
  {
    hide Next;
    var steps := ByteSteps(path, file);
    var n := |steps|;
    assert steps[..n - 1][..n - 2] == ByteSteps(path, file[..|file| - 1]);
    assert steps[..n - 1][n - 2] == Grow(path, [file[|file| - 1]]);
  }

  predicate Small(lines: seq<Line>) {
    forall i :: 0 <= i < |lines| ==> |lines[i]| <= MAX_PARTIAL
  }

  predicate RowsSmall(events: map<Fingerprint, Event>) {
    forall fp :: fp in events ==> |events[fp].line| <= MAX_PARTIAL
  }

  // The schedule keeps up with the file and never hands over a line above the cap.
  predicate ByteState(w: World, path: Path, file: seq<Byte>) {
    && FileOf(w, path) == file && RowsSmall(w.db.events)
    && StateOf(w.db, path).offset == |file| && |StateOf(w.db, path).partial| <= MAX_PARTIAL
  }

  lemma {:induction false} LineFits(lines: seq<Line>, i: nat)
    requires i < |lines|
    ensures |lines[i]| < |Text(lines)|
  {
    if i > 0 {
      LineFits(lines[1..], i - 1);
    }
  }

  lemma PiecesSmall(data: seq<Byte>)
    requires |data| <= MAX_PARTIAL + 1
    ensures Small(CompleteLines(data))
  {
    hide CompleteLines, Rest, Text;
    SplitCompleteParts(data);
    var l := CompleteLines(data);
    forall i | 0 <= i < |l|
      ensures |l[i]| <= MAX_PARTIAL
    {
      LineFits(l, i);
    }
  }

  lemma {:induction false} ProcessSmall(p: Progress, path: Path, lines: seq<Line>, parse: Parser)
    requires p.ok && RowsSmall(p.events) && Small(lines)
    ensures var q := Process(p, path, lines, parse, None); q.ok && RowsSmall(q.events)
    decreases |lines|
  {
    if lines != [] {
      ProcessSmall(StepLine(p, path, lines[0], parse, None), path, lines[1..], parse);
    }
  }

  // One scan of one new byte.
  lemma ByteScan(db: Db, path: Path, parse: Parser, file: seq<Byte>)
    requires file != [] && RowsSmall(db.events)
    requires StateOf(db, path).offset == |file| - 1 && |StateOf(db, path).partial| <= MAX_PARTIAL
    ensures var (after, ok) := ScanFile(db, path, parse, FileEnv(Readable(|file|, file), None, false));
            var t := StateOf(after, path);
            && ok && RowsSmall(after.events) && t.offset == |file|
            && t.partial == Capped(Rest(StateOf(db, path).partial + [file[|file| - 1]]))
            && |t.partial| <= MAX_PARTIAL
  {
    hide SplitComplete, Process, RowsSmall, Small;
    var s := StateOf(db, path);
    assert ReadAt(file, s.offset) == [file[|file| - 1]];
    var lines := SplitComplete(s.partial + [file[|file| - 1]]).0;
    PiecesSmall(s.partial + [file[|file| - 1]]);
    ProcessSmall(Progress(db.events, 0, 0, true), path, lines, parse);
  }

  // The step that scans the byte just grown.
  lemma ByteStep(w: World, path: Path, file: seq<Byte>, parse: Parser)
    requires file != [] && path in w.files && FileOf(w, path) == file && RowsSmall(w.db.events)
    requires StateOf(w.db, path).offset == |file| - 1 && |StateOf(w.db, path).partial| <= MAX_PARTIAL
    ensures ByteState(Next(w, Scan(path, [], None, false), parse), path, file)
  {
    hide ScanFile, RowsSmall, Handed;
    assert file + [] == file;
    ByteScan(w.db, path, parse, file);
  }

  lemma GrownState(path: Path, file: seq<Byte>, parse: Parser)
    requires file != [] && ByteState(ByteRun(path, file[..|file| - 1], parse), path, file[..|file| - 1])
    ensures var w := ByteGrown(path, file, parse);
            && path in w.files && FileOf(w, path) == file && RowsSmall(w.db.events)
            && StateOf(w.db, path).offset == |file| - 1 && |StateOf(w.db, path).partial| <= MAX_PARTIAL
  {
    hide ByteRun, RowsSmall, AfterScan;
  }

  lemma ByteEmpty(path: Path, parse: Parser)
    ensures ByteState(ByteRun(path, [], parse), path, [])
  {}

  lemma {:induction false} ByteRunState(path: Path, file: seq<Byte>, parse: Parser)
    ensures ByteState(ByteRun(path, file, parse), path, file)
  {
    hide ByteState, ByteRun, ByteGrown, ByteSteps, Run, Next;
    if file == [] {
      ByteEmpty(path, parse);
    } else {
      ByteRunState(path, file[..|file| - 1], parse);
      ByteUnrolled(path, file, parse);
      GrownState(path, file, parse);
      ByteStep(ByteGrown(path, file, parse), path, file, parse);
    }
  }

  // --- Exactly-once, exactly ---

  // The parser that takes one line of one file for an event and no other.
  function OnlyLine(path: Path, line: Line): Parser {
    (p, l) => if p == path && l == line then Valid("event") else Invalid
  }

  // A finished line above the cap is lost by the byte schedule.
  lemma OverlongLost(path: Path, file: seq<Byte>, i: nat)
    requires i < |CompleteLines(file)| && |CompleteLines(file)[i]| > MAX_PARTIAL
    ensures var parse := OnlyLine(path, CompleteLines(file)[i]);
            && PathScoped(parse) && AppendOnly(ByteSteps(path, file), path)
            && FileOf(ByteRun(path, file, parse), path) == file
            && StateOf(ByteRun(path, file, parse).db, path).offset == |file|
            && HoldsLine(file, path, parse, "event") && "event" !in ByteRun(path, file, parse).db.events
            && !RowsRight(ByteRun(path, file, parse), path, parse)
  {
    hide CompleteLines, Run;
    var parse := OnlyLine(path, CompleteLines(file)[i]);
    ByteStepsAppend(path, file);
    ByteRunState(path, file, parse);
    AllRowsValid(Start(map[]), ByteSteps(path, file), parse);
    assert parse(path, CompleteLines(file)[i]) == Valid("event");
  }

  // Every append-only run that ends with this file at path, beside any other
  // files and under any failures, and every parser, gets the rows right.
  ghost predicate EveryRunRight(path: Path, file: seq<Byte>, files: map<Path, seq<Byte>>, steps: seq<Step>, parse: Parser) {
    && PathScoped(parse) && AppendOnly(steps, path) && FileOf(Run(Start(files), steps, parse), path) == file
    ==> RowsRight(Run(Start(files), steps, parse), path, parse)
  }

  // Exactly-once holds of a file under every schedule if and only if every
  // finished line fits the cap.
  lemma ExactlyOnceExactly(path: Path, file: seq<Byte>)
    ensures Fits(file) <==> forall files, steps, parse :: EveryRunRight(path, file, files, steps, parse)
  {
    hide Run, RowsRight, PathScoped;
    if Fits(file) {
      forall files, steps, parse
        ensures EveryRunRight(path, file, files, steps, parse)
      {
        if PathScoped(parse) && AppendOnly(steps, path) && FileOf(Run(Start(files), steps, parse), path) == file {
          ExactlyOnce(files, steps, parse, path);
        }
      }
    } else {
      var i :| 0 <= i < |CompleteLines(file)| && |CompleteLines(file)[i]| > MAX_PARTIAL;
      OverlongLost(path, file, i);
      assert !EveryRunRight(path, file, map[], ByteSteps(path, file), OnlyLine(path, CompleteLines(file)[i]));
    }
  }

  // --- When the cap is hit ---

  // No prefix of the file leaves more than MAX_PARTIAL bytes unfinished.
  ghost predicate Short(file: seq<Byte>) {
    forall k: nat :: k <= |file| ==> |Rest(file[..k])| <= MAX_PARTIAL
  }

  // Just before the newline of line i, the unfinished rest is that line.
  lemma LineReached(file: seq<Byte>, i: nat) returns (k: nat)
    requires i < |CompleteLines(file)|
    ensures k <= |file| && Rest(file[..k]) == CompleteLines(file)[i]
  {
    hide CompleteLines, Rest;
    var l := CompleteLines(file);
    SplitCompleteParts(file);
    var before := Text(l[..i]) + l[i];
    k := |before|;
    TextThrough(l, i);
    hide Text;
    assert before <= file;
    assert file[..k] == before;
    assert Splits(before, l[..i], l[i]);
    SplitCompleteParts(before);
    SplitsUnique(before, CompleteLines(before), Rest(before), l[..i], l[i]);
  }

  lemma TextThrough(l: seq<Line>, i: nat)
    requires i < |l|
    ensures Text(l[..i]) + l[i] <= Text(l)
  {
    var tail := l[i..];
    assert l == l[..i] + tail;
    TextConcat(l[..i], tail);
    assert Text(tail) == l[i] + [NEWLINE] + Text(tail[1..]);
  }

  // Short in terms of lines: none, finished or not, exceeds the cap.
  lemma ShortMeansLines(file: seq<Byte>)
    ensures Short(file) <==>
            && |Rest(file)| <= MAX_PARTIAL
            && forall i :: 0 <= i < |CompleteLines(file)| ==> |CompleteLines(file)[i]| <= MAX_PARTIAL
  {
    hide CompleteLines, Rest;
    if Short(file) {
      assert file[..|file|] == file;
      forall i | 0 <= i < |CompleteLines(file)|
        ensures |CompleteLines(file)[i]| <= MAX_PARTIAL
      {
        var k := LineReached(file, i);
      }
    } else {
      var k: nat :| k <= |file| && |Rest(file[..k])| > MAX_PARTIAL;
      var d, e := file[..k], file[k..];
      assert file == d + e;
      SplitCompleteParts(d);
      RestCarried(Rest(d), e);
      CarryOver(d, e);
      var m := CompleteLines(Rest(d) + e);
      if m != [] {
        assert CompleteLines(file)[|CompleteLines(d)|] == m[0];
      }
    }
  }

  // The scan at hand cuts off an oversize partial line.
  predicate Discards(w: World, s: Step, path: Path) {
    && s.Scan? && s.path == path && path in w.files
    && var content := FileOf(w, path) + s.late;
       var state := Opened(w.db, path, |FileOf(w, path)|);
       ReadAt(content, state.offset) != [] && |Rest(state.partial + ReadAt(content, state.offset))| > MAX_PARTIAL
  }

  lemma {:induction false} PrefixesGrow(w: World, steps: seq<Step>, parse: Parser, path: Path, i: nat)
    requires AppendOnly(steps, path) && i <= |steps|
    ensures FileOf(Run(w, steps[..i], parse), path) <= FileOf(Run(w, steps, parse), path)
    decreases |steps|
  {
    if i == |steps| {
      assert steps[..i] == steps;
    } else {
      hide Next;
      var n := |steps| - 1;
      assert steps[..n][..i] == steps[..i];
      PrefixesGrow(w, steps[..n], parse, path, i);
      StepGrows(Run(w, steps[..n], parse), steps[n], path, parse);
    }
  }

  lemma ShortFits(file: seq<Byte>, prefix: seq<Byte>)
    requires Short(file) && prefix <= file
    ensures Fits(prefix) && |Rest(prefix)| <= MAX_PARTIAL
  {
    hide CompleteLines, Rest;
    ShortMeansLines(file);
    PrefixFits(prefix, file);
    assert file[..|prefix|] == prefix;
  }

  // A file whose lines all fit, finished or not, never hits the cap.
  lemma ShortNeverDiscards(files: map<Path, seq<Byte>>, steps: seq<Step>, parse: Parser, path: Path, i: nat)
    requires AppendOnly(steps, path) && i < |steps|
    requires Short(FileOf(Run(Start(files), steps, parse), path))
    ensures !Discards(Run(Start(files), steps[..i], parse), steps[i], path)
  {
    hide Run, Short, CompleteLines, Rest, Tracks, Fits, Opened;
    var w, s := Run(Start(files), steps[..i], parse), steps[i];
    var file := FileOf(Run(Start(files), steps, parse), path);
    PrefixesGrow(Start(files), steps, parse, path, i);
    PrefixesGrow(Start(files), steps, parse, path, i + 1);
    ShortFits(file, FileOf(w, path));
    RunKeepsTrack(files, steps[..i], parse, path);
    if s.Scan? && s.path == path && path in w.files {
      StepUnrolled(Start(files), steps, parse, i);
      ScannedFile(w, s, parse);
      NotOver(w, s, path, parse, file);
    }
  }

  lemma StepUnrolled(w: World, steps: seq<Step>, parse: Parser, i: nat)
    requires i < |steps|
    ensures Run(w, steps[..i + 1], parse) == Next(Run(w, steps[..i], parse), steps[i], parse)
  {
    hide Next;
    assert steps[..i + 1][..i] == steps[..i];
  }

  lemma ScannedFile(w: World, s: Step, parse: Parser)
    requires s.Scan? && s.path in w.files
    ensures FileOf(Next(w, s, parse), s.path) == FileOf(w, s.path) + s.late
  {
    hide ScanFile;
  }

  lemma NotOver(w: World, s: Step, path: Path, parse: Parser, file: seq<Byte>)
    requires s.Scan? && s.path == path && path in w.files && Tracks(w.db, path, FileOf(w, path), parse)
    requires Short(file) && FileOf(w, path) + s.late <= file
    ensures !Discards(w, s, path)
  {
    hide Short, CompleteLines, Rest, Ingested, Sound, Opened, Fits;
    var content := FileOf(w, path) + s.late;
    var o := StateOf(w.db, path).offset;
    TracksBounds(w.db, path, FileOf(w, path), parse);
    assert content[..o] == FileOf(w, path)[..o];
    ShortFits(file, content);
    ShortFits(file, content[..o]);
    ChunkExtends(w.db, path, content);
    ShortFits(file, content[..o + |Chunk(w.db, path, content)|]);
  }

  // Without a discard the byte schedule carries the true rest of every prefix.
  lemma {:induction false} BytesWithoutDiscard(path: Path, file: seq<Byte>, parse: Parser)
    requires var steps := ByteSteps(path, file);
             forall i :: 0 <= i < |steps| ==> !Discards(Run(Start(map[]), steps[..i], parse), steps[i], path)
    ensures StateOf(ByteRun(path, file, parse).db, path).partial == Rest(file) && Short(file)
  {
    if file == [] {
    } else {
      hide Run, Rest, Discards, Short, Next;
      var steps, front := ByteSteps(path, file), file[..|file| - 1];
      var n := |steps|;
      ByteUnrolled(path, file, parse);
      forall i | 0 <= i < n - 2
        ensures !Discards(Run(Start(map[]), ByteSteps(path, front)[..i], parse), ByteSteps(path, front)[i], path)
      {
        assert ByteSteps(path, front)[..i] == steps[..i];
      }
      BytesWithoutDiscard(path, front, parse);
      LastByteKept(path, file, parse);
      ShortSnoc(file);
    }
  }

  lemma LastByteKept(path: Path, file: seq<Byte>, parse: Parser)
    requires file != [] && !Discards(ByteGrown(path, file, parse), Scan(path, [], None, false), path)
    requires StateOf(ByteRun(path, file[..|file| - 1], parse).db, path).partial == Rest(file[..|file| - 1])
    ensures StateOf(ByteRun(path, file, parse).db, path).partial == Rest(file) && |Rest(file)| <= MAX_PARTIAL
  {
    hide Run, CompleteLines, Rest, ScanFile, RowsSmall;
    var front, last := file[..|file| - 1], [file[|file| - 1]];
    var w := ByteGrown(path, file, parse);
    ByteUnrolled(path, file, parse);
    ByteRunState(path, front, parse);
    assert FileOf(w, path) == file && file + [] == file;
    ByteScan(w.db, path, parse, file);
    assert file == front + last;
    CarryOver(front, last);
    assert ReadAt(file, StateOf(w.db, path).offset) == last;
  }

  lemma ShortSnoc(file: seq<Byte>)
    requires file != [] && Short(file[..|file| - 1]) && |Rest(file)| <= MAX_PARTIAL
    ensures Short(file)
  {
    hide Rest;
    forall k: nat | k <= |file|
      ensures |Rest(file[..k])| <= MAX_PARTIAL
    {
      if k < |file| {
        assert file[..|file| - 1][..k] == file[..k];
      } else {
        assert file[..k] == file;
      }
    }
  }

  ghost predicate HitsCap(path: Path, file: seq<Byte>, files: map<Path, seq<Byte>>, steps: seq<Step>, parse: Parser) {
    && AppendOnly(steps, path) && FileOf(Run(Start(files), steps, parse), path) == file
    && exists i :: 0 <= i < |steps| && Discards(Run(Start(files), steps[..i], parse), steps[i], path)
  }

  // Some schedule of growth and scans that ends with this file cuts off an
  // oversize partial line if and only if some line, finished or not, is above
  // the cap.
  lemma CapHitExactly(path: Path, file: seq<Byte>, parse: Parser)
    ensures (exists files, steps :: HitsCap(path, file, files, steps, parse)) <==> !Short(file)
  {
    hide Run, Short, Discards;
    if Short(file) {
      forall files, steps
        ensures !HitsCap(path, file, files, steps, parse)
      {
        if AppendOnly(steps, path) && FileOf(Run(Start(files), steps, parse), path) == file {
          forall i | 0 <= i < |steps|
            ensures !Discards(Run(Start(files), steps[..i], parse), steps[i], path)
          {
            ShortNeverDiscards(files, steps, parse, path, i);
          }
        }
      }
    } else {
      ByteStepsAppend(path, file);
      ByteRunState(path, file, parse);
      var steps := ByteSteps(path, file);
      if forall i :: 0 <= i < |steps| ==> !Discards(Run(Start(map[]), steps[..i], parse), steps[i], path) {
        BytesWithoutDiscard(path, file, parse);
      }
      assert HitsCap(path, file, map[], steps, parse);
    }
  }

  // --- One input ---

  function Xs(n: nat): (r: seq<Byte>)
    ensures |r| == n && OneLine(r)
  {
    seq(n, i => 120)
  }

  // A single line of three full reads, and its newline.
  function LongFile(): seq<Byte> { Xs(3 * CHUNK) + [NEWLINE] }

  // A clean scan that finds no newline stores nothing and carries what fits.
  lemma QuietScan(db: Db, path: Path, parse: Parser, content: seq<Byte>)
    requires var s := StateOf(db, path);
             s.offset < |content| && |s.partial| <= MAX_PARTIAL && OneLine(s.partial + ReadAt(content, s.offset))
    ensures var after := ScanFile(db, path, parse, FileEnv(Readable(|content|, content), None, false)).0;
            var s, data := StateOf(db, path), ReadAt(content, StateOf(db, path).offset);
            && after.events == db.events
            && StateOf(after, path) == IngestState(s.offset + |data|, Capped(s.partial + data), |content|)
  {
    var s := StateOf(db, path);
    NoNewline(s.partial + ReadAt(content, s.offset));
    hide SplitComplete, CompleteLines, Rest;
    assert SplitComplete(s.partial + ReadAt(content, s.offset)) == ([], s.partial + ReadAt(content, s.offset)) by {
      PartsAre(s.partial + ReadAt(content, s.offset));
    }
  }

  lemma PartsAre(data: seq<Byte>)
    ensures SplitComplete(data) == (CompleteLines(data), Rest(data))
  {}

  lemma NewlineScan(db: Db, path: Path, parse: Parser, content: seq<Byte>)
    requires content != [] && content[|content| - 1] == NEWLINE && parse(path, []) == Invalid
    requires StateOf(db, path).offset == |content| - 1 && StateOf(db, path).partial == []
    ensures var after := ScanFile(db, path, parse, FileEnv(Readable(|content|, content), None, false)).0;
            after.events == db.events && StateOf(after, path).offset == |content|
  {
    var s := StateOf(db, path);
    assert ReadAt(content, s.offset) == [NEWLINE] && s.partial + [NEWLINE] == [NEWLINE];
    assert SplitComplete([NEWLINE]) == ([[]], []) by {
      assert [NEWLINE][..0] == [];
    }
    hide SplitComplete;
  }

  lemma XReads(offset: nat)
    requires offset + CHUNK <= 3 * CHUNK
    ensures ReadAt(LongFile(), offset) == Xs(CHUNK) && Xs(offset) + Xs(CHUNK) == Xs(offset + CHUNK)
  {}

  // After n of its reads.
  predicate LongRead(db: Db, path: Path, n: nat) {
    && db.events == map[] && n <= 3 && StateOf(db, path).offset == n * CHUNK
    && StateOf(db, path).partial == if n < 3 then Xs(n * CHUNK) else []
  }

  lemma LongScan(db: Db, path: Path, parse: Parser, n: nat)
    requires LongRead(db, path, n) && n < 3
    ensures LongRead(ScanFile(db, path, parse, FileEnv(Readable(3 * CHUNK + 1, LongFile()), None, false)).0, path, n + 1)
  {
    hide ScanFile, ReadAt, Xs, LongFile;
    XReads(n * CHUNK);
    LongFileLine(path);
    QuietScan(db, path, parse, LongFile());
  }

  // A file that does not even grow: four clean scans reach its end and lose its
  // only line.
  lemma LongLineLost(path: Path)
    ensures var file := LongFile();
            var parse := OnlyLine(path, Xs(3 * CHUNK));
            var db := CleanScans(EMPTY_DB, path, file, parse, 4);
            && StateOf(db, path).offset == |file| && db.events == map[]
            && HoldsLine(file, path, parse, "event")
  {
    hide ScanFile, LongFile, Xs, HoldsLine;
    var parse := OnlyLine(path, Xs(3 * CHUNK));
    LongFileLine(path);
    assert |Xs(3 * CHUNK)| == 3 * CHUNK;
    var d := CleanScans(EMPTY_DB, path, LongFile(), parse, 0);
    assert LongRead(d, path, 0) by {
      NothingYet();
    }
    for n := 0 to 3
      invariant d == CleanScans(EMPTY_DB, path, LongFile(), parse, n) && LongRead(d, path, n)
    {
      LongScan(d, path, parse, n);
      d := CleanScans(EMPTY_DB, path, LongFile(), parse, n + 1);
    }
    NewlineScan(d, path, parse, LongFile());
  }

  lemma NothingYet()
    ensures Xs(0) == []
  {}

  lemma LongFileLine(path: Path)
    ensures |LongFile()| == 3 * CHUNK + 1 && LongFile()[3 * CHUNK] == NEWLINE
    ensures HoldsLine(LongFile(), path, OnlyLine(path, Xs(3 * CHUNK)), "event")
  {
    hide Xs, CompleteLines, Rest;
    var xs: Line := Xs(3 * CHUNK);
    assert Text([xs]) == xs + [NEWLINE] by {
      var one: seq<Line> := [xs];
      assert one[1..] == [];
    }
    SplitCompleteParts(LongFile());
    SplitsUnique(LongFile(), CompleteLines(LongFile()), Rest(LongFile()), [xs], []);
    assert OnlyLine(path, xs)(path, CompleteLines(LongFile())[0]) == Valid("event");
  }
}
