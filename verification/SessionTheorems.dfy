// Replaying any poll history writes exactly the rows its segmentation calls for.
module SessionTheorems {
  import opened Basics
  import opened Sessions

  predicate OpenAt(segs: seq<Segment>, n: nat) {
    segs != [] && segs[|segs| - 1].stop == n
  }

  // The segmentation poll by poll: an open segment grows until an idle poll, a
  // new one starts at an opener.
  function Segments(h: seq<Poll>, idle: int): seq<Segment> {
    if h == [] then []
    else
      var i := |h| - 1;
      var t := Segments(h[..i], idle);
      if OpenAt(t, i) then
        if Idle(h, i, idle) then t else t[..|t| - 1] + [Segment(t[|t| - 1].first, i + 1)]
      else if Opener(h, i) then t + [Segment(i, i + 1)]
      else t
  }

  // --- What a prefix already settles ---

  lemma LastChangePrefix(h: seq<Poll>, m: nat, i: nat)
    requires i < m <= |h|
    ensures LastChange(h[..m], i) == LastChange(h, i)
  {}

  lemma IdlePrefix(h: seq<Poll>, m: nat, i: nat, idle: int)
    requires i < m <= |h|
    ensures Idle(h[..m], i, idle) == Idle(h, i, idle) && Opener(h[..m], i) == Opener(h, i)
  {
    LastChangePrefix(h, m, i);
  }

  lemma CountsPrefix(h: seq<Poll>, m: nat, first: nat, stop: nat)
    requires first <= stop <= m <= |h|
    ensures CountIn(h[..m], first, stop) == CountIn(h, first, stop)
    ensures MaxIn(h[..m], first, stop) == MaxIn(h, first, stop)
  {
    if stop > first {
      CountsPrefix(h, m, first, stop - 1);
    }
  }

  // --- The segmentation is the declared one ---

  lemma SegmentGrows(h: seq<Poll>, s: Segment, idle: int)
    requires h != [] && IsSegment(h[..|h| - 1], s, idle)
    ensures s.stop < |h| - 1 || Idle(h, s.stop, idle) ==> IsSegment(h, s, idle)
    ensures s.stop == |h| - 1 && !Idle(h, s.stop, idle) ==> IsSegment(h, Segment(s.first, |h|), idle)
  {
    hide Idle, Opener;
    var m := |h| - 1;
    forall j | s.first <= j < m
      ensures Idle(h[..m], j, idle) == Idle(h, j, idle) && Opener(h[..m], j) == Opener(h, j)
    {
      IdlePrefix(h, m, j, idle);
    }
  }

  lemma OpenersPrefix(h: seq<Poll>, m: nat)
    requires m <= |h|
    ensures forall i :: 0 <= i < m ==> Opener(h[..m], i) == Opener(h, i)
  {}

  lemma NewSegment(h: seq<Poll>, m: nat, idle: int)
    requires m == |h| - 1 && Opener(h, m)
    ensures IsSegment(h, Segment(m, m + 1), idle)
  {}

  lemma SegmentBounds(h: seq<Poll>, s: Segment, idle: int)
    requires IsSegment(h, s, idle)
    ensures s.first < s.stop <= |h|
  {}

  // Only the last segment can reach the end.
  lemma SettledBeforeLast(h: seq<Poll>, t: seq<Segment>, k: nat, idle: int)
    requires IsSegmentation(h, t, idle) && k < |t|
    ensures t[k].first < t[k].stop <= |h|
    ensures k < |t| - 1 ==> t[k].stop < |h|
    ensures IsSegment(h, t[k], idle)
  {
    hide IsSegment;
    SegmentBounds(h, t[k], idle);
    SegmentBounds(h, t[|t| - 1], idle);
  }

  lemma StillSegments(h: seq<Poll>, t: seq<Segment>, idle: int)
    requires h != [] && t == Segments(h[..|h| - 1], idle) && IsSegmentation(h[..|h| - 1], t, idle)
    ensures var segs := Segments(h, idle);
            forall k :: 0 <= k < |segs| ==> IsSegment(h, segs[k], idle)
  {
    var m := |h| - 1;
    var segs := Segments(h, idle);
    hide Idle, Opener, IsSegment, IsSegmentation;
    forall k | 0 <= k < |segs|
      ensures IsSegment(h, segs[k], idle)
    {
      if k < |t| {
        SettledBeforeLast(h[..m], t, k, idle);
        SegmentGrows(h, t[k], idle);
      } else {
        NewSegment(h, m, idle);
      }
    }
  }

  lemma StillOrdered(h: seq<Poll>, t: seq<Segment>, idle: int)
    requires h != [] && t == Segments(h[..|h| - 1], idle) && IsSegmentation(h[..|h| - 1], t, idle)
    ensures var segs := Segments(h, idle);
            forall k, l :: 0 <= k < l < |segs| ==> segs[k].stop < segs[l].first
  {
    hide Idle, Opener, IsSegment, IsSegmentation;
    var segs := Segments(h, idle);
    forall k, l | 0 <= k < l < |segs|
      ensures segs[k].stop < segs[l].first
    {
      SettledBeforeLast(h[..|h| - 1], t, k, idle);
      if l < |t| {
        InOrder(h[..|h| - 1], t, k, l, idle);
      }
    }
  }

  lemma InOrder(h: seq<Poll>, t: seq<Segment>, k: nat, l: nat, idle: int)
    requires IsSegmentation(h, t, idle) && k < l < |t|
    ensures t[k].stop < t[l].first
  {
    hide IsSegment, Covered, Opener;
  }

  lemma CoveredOpener(h: seq<Poll>, t: seq<Segment>, i: nat, idle: int) returns (k: nat)
    requires IsSegmentation(h, t, idle) && i < |h| && Opener(h, i)
    ensures k < |t| && Inside(i, t[k])
  {
    hide IsSegment, Opener;
    assert Covered(i, t);
    k :| 0 <= k < |t| && Inside(i, t[k]);
  }

  lemma EarlierCovered(h: seq<Poll>, t: seq<Segment>, i: nat, idle: int)
    requires h != [] && t == Segments(h[..|h| - 1], idle) && IsSegmentation(h[..|h| - 1], t, idle)
    requires i < |h| - 1 && Opener(h[..|h| - 1], i)
    ensures Covered(i, Segments(h, idle))
  {
    hide Opener, IsSegmentation, Segments;
    var k := CoveredOpener(h[..|h| - 1], t, i, idle);
    SegmentsExtend(h, k, i, idle);
    assert Inside(i, Segments(h, idle)[k]);
  }

  lemma StillCovered(h: seq<Poll>, t: seq<Segment>, idle: int)
    requires h != [] && t == Segments(h[..|h| - 1], idle) && IsSegmentation(h[..|h| - 1], t, idle)
    ensures forall i :: 0 <= i < |h| && Opener(h, i) ==> Covered(i, Segments(h, idle))
  {
    hide Opener, IsSegmentation, Segments, Covered;
    OpenersPrefix(h, |h| - 1);
    LastCovered(h, t, idle);
    forall i | 0 <= i < |h| && Opener(h, i)
      ensures Covered(i, Segments(h, idle))
    {
      if i < |h| - 1 {
        EarlierCovered(h, t, i, idle);
      }
    }
  }

  lemma SegmentsExtend(h: seq<Poll>, k: nat, i: nat, idle: int)
    requires h != [] && k < |Segments(h[..|h| - 1], idle)| && Inside(i, Segments(h[..|h| - 1], idle)[k])
    ensures k < |Segments(h, idle)| && Inside(i, Segments(h, idle)[k])
  {
    hide Idle, Opener;
  }

  lemma LastCovered(h: seq<Poll>, t: seq<Segment>, idle: int)
    requires h != [] && t == Segments(h[..|h| - 1], idle) && IsSegmentation(h[..|h| - 1], t, idle)
    ensures Opener(h, |h| - 1) ==> Covered(|h| - 1, Segments(h, idle))
  {
    OpenerNotIdle(h, |h| - 1, idle);
    hide Idle, Opener, IsSegment, IsSegmentation;
    var segs := Segments(h, idle);
    if Opener(h, |h| - 1) {
      if t != [] {
        SettledBeforeLast(h[..|h| - 1], t, |t| - 1, idle);
      }
      assert Inside(|h| - 1, segs[|segs| - 1]);
    }
  }

  lemma OpenerNotIdle(h: seq<Poll>, i: nat, idle: int)
    requires i < |h|
    ensures Opener(h, i) ==> !Idle(h, i, idle)
  {}

  lemma {:induction false} SegmentsAreSegmentation(h: seq<Poll>, idle: int)
    ensures IsSegmentation(h, Segments(h, idle), idle)
  {
    if h != [] {
      var t := Segments(h[..|h| - 1], idle);
      SegmentsAreSegmentation(h[..|h| - 1], idle);
      hide IsSegment, Segments, Opener;
      StillSegments(h, t, idle);
      StillOrdered(h, t, idle);
      StillCovered(h, t, idle);
    }
  }

  // --- The manager follows it ---

  ghost predicate RowsMatch(h: seq<Poll>, rows: seq<Row>, segs: seq<Segment>) {
    && |rows| == |segs|
    && (forall k :: 0 <= k < |segs| ==> 0 < segs[k].first < segs[k].stop <= |h| && rows[k] == RowOf(h, segs[k]))
    && (forall k :: 0 <= k < |segs| - 1 ==> segs[k].stop < |h|)
  }

  ghost predicate Follows(h: seq<Poll>, m: Manager, segs: seq<Segment>) {
    && m.hasPrev == (h != [])
    && (h != [] ==> m.prev == h[|h| - 1].values)
    && RowsMatch(h, m.rows, segs)
    && m.session == (if OpenAt(segs, |h|) then Some(|segs| - 1) else None)
    && (OpenAt(segs, |h|) ==> m.lastActivity == h[LastChange(h, |h| - 1)].at)
  }

  // A settled row does not change when another poll arrives.
  lemma RowPrefix(h: seq<Poll>, s: Segment)
    requires h != [] && 0 < s.first < s.stop <= |h| - 1
    ensures s.stop < |h| - 1 ==> RowOf(h[..|h| - 1], s) == RowOf(h, s)
    ensures s.stop == |h| - 1 ==>
              RowOf(h, s) == Ended(RowOf(h[..|h| - 1], s), h[s.stop].at, h[s.stop].closeOk)
    ensures s.stop == |h| - 1 ==>
              RowOf(h, Segment(s.first, |h|)) == Touched(RowOf(h[..|h| - 1], s), h[s.stop])
  {
    CountsPrefix(h, |h| - 1, s.first, s.stop);
  }

  lemma RowNew(h: seq<Poll>, i: nat)
    requires 0 < i == |h| - 1
    ensures RowOf(h, Segment(i, i + 1)) ==
            Touched(Row(h[i].at, FirstThree(h[i - 1].values), None, 0, ZEROES), h[i])
  {
    assert CountIn(h, i, i) == 0 && MaxIn(h, i, i) == ZEROES;
  }

  lemma {:induction false} ReplayFollows(h: seq<Poll>, idle: int)
    ensures Follows(h, Replay(h, idle), Segments(h, idle))
  {
    if h != [] {
      ReplayFollows(h[..|h| - 1], idle);
      StepFollows(h, Replay(h[..|h| - 1], idle), Segments(h[..|h| - 1], idle), idle);
    }
  }

  // Rows already settled carry over; the row of the open segment, if any, is
  // the one this poll rewrites.
  lemma RowsKeep(h: seq<Poll>, rows: seq<Row>, t: seq<Segment>)
    requires h != [] && RowsMatch(h[..|h| - 1], rows, t) && !OpenAt(t, |h| - 1)
    ensures RowsMatch(h, rows, t)
  {
    hide RowOf;
    forall k | 0 <= k < |t|
      ensures RowOf(h[..|h| - 1], t[k]) == RowOf(h, t[k])
    {
      RowPrefix(h, t[k]);
    }
  }

  lemma RowsAppend(h: seq<Poll>, rows: seq<Row>, t: seq<Segment>, r: Row, s: Segment)
    requires RowsMatch(h, rows, t) && 0 < s.first < s.stop <= |h| && r == RowOf(h, s)
    requires !OpenAt(t, |h|)
    ensures RowsMatch(h, rows + [r], t + [s])
  {
    hide RowOf;
  }

  lemma RowsReplaceLast(h: seq<Poll>, rows: seq<Row>, t: seq<Segment>, r: Row, s: Segment)
    requires h != [] && RowsMatch(h[..|h| - 1], rows, t) && t != []
    requires 0 < s.first < s.stop <= |h| && r == RowOf(h, s)
    ensures RowsMatch(h, rows[|t| - 1 := r], t[..|t| - 1] + [s])
  {
    hide RowOf;
    forall k | 0 <= k < |t| - 1
      ensures RowOf(h[..|h| - 1], t[k]) == RowOf(h, t[k])
    {
      RowPrefix(h, t[k]);
    }
  }

  lemma OpenRow(h: seq<Poll>, rows: seq<Row>, t: seq<Segment>)
    requires RowsMatch(h, rows, t) && t != []
    ensures |rows| == |t| && rows[|t| - 1] == RowOf(h, t[|t| - 1])
    ensures 0 < t[|t| - 1].first < t[|t| - 1].stop <= |h|
  {}

  lemma StepFollows(h: seq<Poll>, m: Manager, t: seq<Segment>, idle: int)
    requires h != [] && Wellformed(m)
    requires t == Segments(h[..|h| - 1], idle) && Follows(h[..|h| - 1], m, t)
    ensures Follows(h, Report(m, h[|h| - 1], idle).0, Segments(h, idle))
  {
    var i := |h| - 1;
    if OpenAt(t, i) {
      StepFollowsOpen(h, m, t, idle);
    } else {
      StepFollowsClosed(h, m, t, idle);
    }
  }

  lemma StepFollowsOpen(h: seq<Poll>, m: Manager, t: seq<Segment>, idle: int)
    requires h != [] && Wellformed(m)
    requires t == Segments(h[..|h| - 1], idle) && Follows(h[..|h| - 1], m, t) && OpenAt(t, |h| - 1)
    ensures Follows(h, Report(m, h[|h| - 1], idle).0, Segments(h, idle))
  {
    hide RowOf, Touched, Ended, LastChange, RowsMatch, FirstThree, Segments, Follows;
    var i := |h| - 1;
    OpenSegments(h, t, idle);
    OpenFacts(h, m, t);
    if Idle(h, i, idle) {
      CloseFollows(h, m, t, idle);
    } else {
      TouchFollows(h, m, t, idle);
    }
  }

  // The segmentation step with a segment open.
  lemma OpenSegments(h: seq<Poll>, t: seq<Segment>, idle: int)
    requires h != [] && t == Segments(h[..|h| - 1], idle) && OpenAt(t, |h| - 1)
    ensures Segments(h, idle) ==
            if Idle(h, |h| - 1, idle) then t else t[..|t| - 1] + [Segment(t[|t| - 1].first, |h|)]
  {}

  // What the manager knows while a session is open.
  lemma OpenFacts(h: seq<Poll>, m: Manager, t: seq<Segment>)
    requires h != [] && Follows(h[..|h| - 1], m, t) && OpenAt(t, |h| - 1)
    ensures |h| > 1 && |m.rows| == |t| && m.session == Some(|t| - 1) && m.hasPrev && m.prev == h[|h| - 2].values
    ensures m.lastActivity == h[LastChange(h, |h| - 2)].at
    ensures RowsMatch(h[..|h| - 1], m.rows, t)
    ensures m.rows[|t| - 1] == RowOf(h[..|h| - 1], t[|t| - 1])
    ensures 0 < t[|t| - 1].first < t[|t| - 1].stop == |h| - 1
  {
    hide RowOf, LastChange, RowsMatch;
    LastChangePrefix(h, |h| - 1, |h| - 2);
    OpenRow(h[..|h| - 1], m.rows, t);
  }

  lemma CloseFollows(h: seq<Poll>, m: Manager, t: seq<Segment>, idle: int)
    requires h != [] && Wellformed(m) && Follows(h[..|h| - 1], m, t) && OpenAt(t, |h| - 1)
    requires Idle(h, |h| - 1, idle)
    ensures Follows(h, Report(m, h[|h| - 1], idle).0, t)
  {
    hide RowOf, Ended, LastChange, RowsMatch, FirstThree, Touched;
    var i, last := |h| - 1, t[|t| - 1];
    OpenFacts(h, m, t);
    LastChangeStep(h, i);
    RowPrefix(h, last);
    RowsReplaceLast(h, m.rows, t, RowOf(h, last), last);
    assert t == t[..|t| - 1] + [last];
  }

  lemma TouchFollows(h: seq<Poll>, m: Manager, t: seq<Segment>, idle: int)
    requires h != [] && Wellformed(m) && Follows(h[..|h| - 1], m, t) && OpenAt(t, |h| - 1)
    requires !Idle(h, |h| - 1, idle)
    ensures Follows(h, Report(m, h[|h| - 1], idle).0, t[..|t| - 1] + [Segment(t[|t| - 1].first, |h|)])
  {
    hide RowOf, Ended, LastChange, RowsMatch, FirstThree, Touched;
    var i, last := |h| - 1, t[|t| - 1];
    OpenFacts(h, m, t);
    LastChangeStep(h, i);
    RowPrefix(h, last);
    var grown := Segment(last.first, |h|);
    RowsReplaceLast(h, m.rows, t, RowOf(h, grown), grown);
  }

  lemma StepFollowsClosed(h: seq<Poll>, m: Manager, t: seq<Segment>, idle: int)
    requires h != [] && Wellformed(m)
    requires t == Segments(h[..|h| - 1], idle) && Follows(h[..|h| - 1], m, t) && !OpenAt(t, |h| - 1)
    ensures Follows(h, Report(m, h[|h| - 1], idle).0, Segments(h, idle))
  {
    hide Follows, Report, Segments, Opener;
    ClosedSegments(h, t, idle);
    if Opener(h, |h| - 1) {
      OpeningFollows(h, m, t, idle);
    } else {
      QuietFollows(h, m, t, idle);
    }
  }

  // The segmentation step with no segment open.
  lemma ClosedSegments(h: seq<Poll>, t: seq<Segment>, idle: int)
    requires h != [] && t == Segments(h[..|h| - 1], idle) && !OpenAt(t, |h| - 1)
    ensures Segments(h, idle) == if Opener(h, |h| - 1) then t + [Segment(|h| - 1, |h|)] else t
  {}

  // What the manager knows while no session is open.
  lemma ClosedFacts(h: seq<Poll>, m: Manager, t: seq<Segment>)
    requires h != [] && Follows(h[..|h| - 1], m, t) && !OpenAt(t, |h| - 1)
    ensures m.session == None && m.hasPrev == (|h| > 1) && (|h| > 1 ==> m.prev == h[|h| - 2].values)
    ensures |m.rows| == |t| && RowsMatch(h[..|h| - 1], m.rows, t) && RowsMatch(h, m.rows, t)
    ensures !OpenAt(t, |h|)
  {
    hide RowOf, LastChange, RowsMatch;
    RowsCount(h[..|h| - 1], m.rows, t);
    RowsKeep(h, m.rows, t);
  }

  lemma QuietFollows(h: seq<Poll>, m: Manager, t: seq<Segment>, idle: int)
    requires h != [] && Wellformed(m) && Follows(h[..|h| - 1], m, t) && !OpenAt(t, |h| - 1)
    requires !Opener(h, |h| - 1)
    ensures Follows(h, Report(m, h[|h| - 1], idle).0, t)
  {
    hide RowOf, Touched, Ended, LastChange, RowsMatch, FirstThree;
    ClosedFacts(h, m, t);
  }

  lemma OpeningFollows(h: seq<Poll>, m: Manager, t: seq<Segment>, idle: int)
    requires h != [] && Wellformed(m) && Follows(h[..|h| - 1], m, t) && !OpenAt(t, |h| - 1)
    requires Opener(h, |h| - 1)
    ensures Follows(h, Report(m, h[|h| - 1], idle).0, t + [Segment(|h| - 1, |h|)])
  {
    hide RowOf, Touched, Ended, LastChange, RowsMatch, FirstThree;
    var i := |h| - 1;
    ClosedFacts(h, m, t);
    LastChangeStep(h, i);
    RowNew(h, i);
    var s := Segment(i, i + 1);
    var row := Row(h[i].at, FirstThree(h[i - 1].values), None, 0, ZEROES);
    RowsAppend(h, m.rows, t, RowOf(h, s), s);
    assert (m.rows + [row])[|t| := Touched(row, h[i])] == m.rows + [Touched(row, h[i])];
  }

  lemma RowsCount(h: seq<Poll>, rows: seq<Row>, t: seq<Segment>)
    requires RowsMatch(h, rows, t)
    ensures |rows| == |t| && (t != [] ==> t[|t| - 1].stop <= |h|) && !OpenAt(t, |h| + 1)
  {}

  lemma LastChangeStep(h: seq<Poll>, i: nat)
    requires 0 < i < |h|
    ensures LastChange(h, i) == if Changed(h, i) then i else LastChange(h, i - 1)
  {}

  // The rows after any history are exactly those of its segmentation, and a
  // session is open exactly when the last segment is.
  lemma ReplayIsSegmentation(h: seq<Poll>, idle: int) returns (segs: seq<Segment>)
    ensures IsSegmentation(h, segs, idle)
    ensures var m := Replay(h, idle);
            && |m.rows| == |segs|
            && (forall k :: 0 <= k < |segs| ==> 0 < segs[k].first && m.rows[k] == RowOf(h, segs[k]))
            && m.session == (if OpenAt(segs, |h|) then Some(|segs| - 1) else None)
  {
    hide Idle, Opener, RowOf, LastChange;
    segs := Segments(h, idle);
    SegmentsAreSegmentation(h, idle);
    ReplayFollows(h, idle);
  }

  // There is only one segmentation, so the declaration leaves no choice.
  lemma SegmentationUnique(h: seq<Poll>, a: seq<Segment>, b: seq<Segment>, idle: int)
    requires IsSegmentation(h, a, idle) && IsSegmentation(h, b, idle)
    ensures a == b
  {
    hide IsSegmentation;
    if |a| <= |b| {
      PrefixAgrees(h, a, b, |a|, idle);
      NoExtra(h, a, b, idle);
    } else {
      PrefixAgrees(h, b, a, |b|, idle);
      NoExtra(h, b, a, idle);
    }
  }

  lemma SegmentDetermined(h: seq<Poll>, s: Segment, t: Segment, idle: int)
    requires IsSegment(h, s, idle) && IsSegment(h, t, idle) && s.first == t.first
    ensures s == t
  {
    hide Idle, Opener;
  }

  lemma SegmentOpens(h: seq<Poll>, s: Segment, idle: int)
    requires IsSegment(h, s, idle)
    ensures s.first < |h| && Opener(h, s.first)
  {}

  // Where the first k segments agree, segment k of b exists and starts no later.
  lemma NextFirst(h: seq<Poll>, a: seq<Segment>, b: seq<Segment>, k: nat, idle: int)
    requires IsSegmentation(h, a, idle) && IsSegmentation(h, b, idle)
    requires k < |a| && k <= |b| && forall i :: 0 <= i < k ==> a[i] == b[i]
    ensures k < |b| && b[k].first <= a[k].first
  {
    hide IsSegmentation, IsSegment;
    SettledBeforeLast(h, a, k, idle);
    SegmentOpens(h, a[k], idle);
    var j := CoveredOpener(h, b, a[k].first, idle);
    if j < k {
      InOrder(h, a, j, k, idle);
    } else if k < j {
      SettledBeforeLast(h, b, k, idle);
      InOrder(h, b, k, j, idle);
    }
  }

  lemma {:induction false} PrefixAgrees(h: seq<Poll>, a: seq<Segment>, b: seq<Segment>, k: nat, idle: int)
    requires IsSegmentation(h, a, idle) && IsSegmentation(h, b, idle)
    requires k <= |a| <= |b|
    ensures forall i :: 0 <= i < k ==> a[i] == b[i]
  {
    hide IsSegment, IsSegmentation;
    if k > 0 {
      PrefixAgrees(h, a, b, k - 1, idle);
      NextFirst(h, a, b, k - 1, idle);
      NextFirst(h, b, a, k - 1, idle);
      SettledBeforeLast(h, a, k - 1, idle);
      SettledBeforeLast(h, b, k - 1, idle);
      SegmentDetermined(h, a[k - 1], b[k - 1], idle);
    }
  }

  lemma NoExtra(h: seq<Poll>, a: seq<Segment>, b: seq<Segment>, idle: int)
    requires IsSegmentation(h, a, idle) && IsSegmentation(h, b, idle)
    requires |a| <= |b| && forall i :: 0 <= i < |a| ==> a[i] == b[i]
    ensures a == b
  {
    hide IsSegmentation;
    if |a| < |b| {
      NextFirst(h, b, a, |a|, idle);
    }
  }
}
