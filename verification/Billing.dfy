// parseGRPCWebResponseGo: from the leaves of every payload to one usage percent
// and an optional reset time.
module Billing {
  import opened Basics
  import opened Protobuf
  import opened Frames
  import opened Powers

  // --- float32 comparison, exactly ---

  const SIGN: nat := 0x8000_0000
  const INFINITY: nat := 0x7F80_0000
  const ONE_HUNDRED: nat := 0x42C8_0000 // the float32 100.0
  const ZERO: nat := 0

  predicate IsNaN(bits: nat) { bits % SIGN > INFINITY }

  // The magnitude of a finite float32 in units of 2^-149.
  function Magnitude(exponent: nat, fraction: nat): nat {
    if exponent == 0 then fraction else (0x80_0000 + fraction) * Pow2(exponent - 1)
  }

  // The value of a finite float32 in units of 2^-149, sign included.
  function Units(bits: nat): int {
    var magnitude := bits % SIGN;
    var size: int := Magnitude(magnitude / 0x80_0000, magnitude % 0x80_0000);
    if bits < SIGN then size else -size
  }

  // `val < 0 || val > 100`: false on NaN, true on both infinities.
  predicate OutOfRange(bits: nat) {
    if IsNaN(bits) then false
    else if bits % SIGN == INFINITY then true
    else Units(bits) < 0 || Units(bits) > Units(ONE_HUNDRED)
  }

  lemma ScaleMonotone(x: nat, y: nat, p: nat)
    requires x < y && p >= 1
    ensures x * p < y * p
  {}

  lemma ScaleAcross(x: nat, y: nat, p: nat, q: nat)
    requires x < 0x100_0000 && y >= 0x80_0000 && 2 * p <= q && p >= 1
    ensures x * p < y * q
  {
    calc {
      x * p;
      < { ScaleMonotone(x, 0x100_0000, p); }
      0x80_0000 * (2 * p);
      <= 0x80_0000 * q;
      <= { if y > 0x80_0000 { ScaleMonotone(0x80_0000, y, q); } }
      y * q;
    }
  }

  lemma MagnitudeMonotone(ea: nat, fa: nat, eb: nat, fb: nat)
    requires fa < 0x80_0000 && fb < 0x80_0000
    requires ea < eb || (ea == eb && fa < fb)
    ensures Magnitude(ea, fa) < Magnitude(eb, fb)
  {
    hide Pow2;
    if eb == 0 {
    } else if ea == eb {
      ScaleMonotone(0x80_0000 + fa, 0x80_0000 + fb, Pow2(ea - 1));
    } else if ea == 0 {
      if Pow2(eb - 1) > 1 { ScaleMonotone(1, Pow2(eb - 1), 0x80_0000 + fb); }
    } else {
      Pow2Step(ea - 1, eb - 1);
      ScaleAcross(0x80_0000 + fa, 0x80_0000 + fb, Pow2(ea - 1), Pow2(eb - 1));
    }
  }

  // Larger bit patterns of one sign stand for larger magnitudes.
  lemma UnitsMonotone(a: nat, b: nat)
    requires a < b < SIGN
    ensures Units(a) < Units(b)
  {
    hide Magnitude;
    MagnitudeMonotone(a / 0x80_0000, a % 0x80_0000, b / 0x80_0000, b % 0x80_0000);
  }

  lemma MagnitudeZero()
    ensures Units(0) == 0 && Units(SIGN) == 0
  {}

  // The range test on bit patterns: it lets through NaN, negative zero, and the
  // patterns from +0 up to 100.0, nothing else.
  lemma RangeTest(bits: nat)
    requires bits < 2 * SIGN
    ensures !OutOfRange(bits) <==> IsNaN(bits) || bits <= ONE_HUNDRED || bits == SIGN
  {
    hide Magnitude;
    MagnitudeZero();
    if !IsNaN(bits) && bits % SIGN != INFINITY {
      var m := bits % SIGN;
      if bits < SIGN {
        if bits < ONE_HUNDRED { UnitsMonotone(bits, ONE_HUNDRED); }
        if ONE_HUNDRED < bits { UnitsMonotone(ONE_HUNDRED, bits); }
        if 0 < bits { UnitsMonotone(0, bits); }
      } else if m > 0 {
        UnitsMonotone(0, m);
        assert Units(bits) == -Units(m);
      }
    }
  }

  // --- Percent: the first shallowest candidate ---

  predicate Candidate(f: Fixed32Leaf) {
    f.path != [] && f.path[|f.path| - 1] == 1 && !OutOfRange(f.bits)
  }

  ghost predicate FirstShallowest(fs: seq<Fixed32Leaf>, i: nat) {
    && i < |fs| && Candidate(fs[i])
    && (forall j :: 0 <= j < |fs| && Candidate(fs[j]) ==> |fs[i].path| <= |fs[j].path|)
    && (forall j :: 0 <= j < i && Candidate(fs[j]) ==> |fs[i].path| < |fs[j].path|)
  }

  ghost predicate IsPercent(fs: seq<Fixed32Leaf>, r: Option<nat>) {
    match r
    case None => forall j :: 0 <= j < |fs| ==> !Candidate(fs[j])
    case Some(bits) => exists i: nat :: FirstShallowest(fs, i) && fs[i].bits == bits
  }

  lemma FirstShallowestUnique(fs: seq<Fixed32Leaf>, i: nat, j: nat)
    requires FirstShallowest(fs, i) && FirstShallowest(fs, j)
    ensures i == j
  {}

  method SelectPercent(fs: seq<Fixed32Leaf>) returns (best: Option<nat>)
    ensures IsPercent(fs, best)
  {
    hide OutOfRange;
    best := None;
    var depth := 0;
    ghost var at := 0;
    var k := 0;
    while k < |fs|
      invariant k <= |fs|
      invariant best.None? ==> forall j :: 0 <= j < k ==> !Candidate(fs[j])
      invariant best.Some? ==> FirstShallowest(fs[..k], at) && fs[at].bits == best.value && |fs[at].path| == depth
    {
      var f := fs[k];
      assert fs[..k + 1] == fs[..k] + [f];
      if |f.path| > 0 && f.path[|f.path| - 1] == 1 && !OutOfRange(f.bits) {
        if best.None? || |f.path| < depth {
          best, depth, at := Some(f.bits), |f.path|, k;
        }
      }
      k := k + 1;
    }
    assert fs[..k] == fs;
  }

  // --- Reset: an exact [1,5,1] timestamp, else the earliest ---

  const SECOND: int := 1_000_000_000 // nanoseconds

  // A unix-seconds value in the plausible band and strictly after now.
  predicate FutureReset(v: VarintLeaf, now: int) {
    1_700_000_000 <= v.value <= 2_100_000_000 && v.value * SECOND > now
  }

  predicate ExactReset(v: VarintLeaf, now: int) {
    FutureReset(v, now) && v.path == [1, 5, 1]
  }

  ghost predicate IsReset(vs: seq<VarintLeaf>, now: int, r: Option<nat>) {
    match r
    case None => forall j :: 0 <= j < |vs| ==> !FutureReset(vs[j], now)
    case Some(t) =>
      exists i :: 0 <= i < |vs| && vs[i].value == t && ChosenReset(vs, now, i)
  }

  ghost predicate ChosenReset(vs: seq<VarintLeaf>, now: int, i: nat)
    requires i < |vs|
  {
    && FutureReset(vs[i], now)
    && if exists j :: 0 <= j < |vs| && ExactReset(vs[j], now)
       then ExactReset(vs[i], now) && forall j :: 0 <= j < i ==> !ExactReset(vs[j], now)
       else forall j :: 0 <= j < |vs| && FutureReset(vs[j], now) ==> vs[i].value <= vs[j].value
  }

  lemma IsResetUnique(vs: seq<VarintLeaf>, now: int, r: Option<nat>, s: Option<nat>)
    requires IsReset(vs, now, r) && IsReset(vs, now, s)
    ensures r == s
  {}

  // resets lists, in order, exactly the future resets among the first k leaves;
  // from holds their positions.
  ghost predicate Listed(vs: seq<VarintLeaf>, now: int, k: nat, resets: seq<VarintLeaf>, from: seq<nat>)
    requires k <= |vs|
  {
    && |from| == |resets|
    && (forall m :: 0 <= m < |from| ==> from[m] < k && resets[m] == vs[from[m]] && FutureReset(resets[m], now))
    && (forall m, n :: 0 <= m < n < |from| ==> from[m] < from[n])
    && (forall j: nat :: j < k && FutureReset(vs[j], now) ==> j in from)
  }

  method ListResets(vs: seq<VarintLeaf>, now: int) returns (resets: seq<VarintLeaf>, ghost from: seq<nat>)
    ensures Listed(vs, now, |vs|, resets, from)
  {
    resets, from := [], [];
    for k := 0 to |vs|
      invariant Listed(vs, now, k, resets, from)
    {
      if 1_700_000_000 <= vs[k].value <= 2_100_000_000 && vs[k].value * SECOND > now {
        resets, from := resets + [vs[k]], from + [k];
        assert k in from;
      }
    }
  }

  lemma FirstExact(vs: seq<VarintLeaf>, now: int, resets: seq<VarintLeaf>, from: seq<nat>, k: nat)
    requires Listed(vs, now, |vs|, resets, from) && k < |resets| && ExactReset(resets[k], now)
    requires forall m :: 0 <= m < k ==> !ExactReset(resets[m], now)
    ensures ChosenReset(vs, now, from[k])
  {
    forall j | 0 <= j < from[k]
      ensures !ExactReset(vs[j], now)
    {
      if FutureReset(vs[j], now) {
        var m :| 0 <= m < |from| && from[m] == j;
        assert m < k;
        assert !ExactReset(resets[m], now);
      }
    }
  }

  lemma Earliest(vs: seq<VarintLeaf>, now: int, resets: seq<VarintLeaf>, from: seq<nat>, k: nat)
    requires Listed(vs, now, |vs|, resets, from) && k < |resets|
    requires forall m :: 0 <= m < |resets| ==> !ExactReset(resets[m], now)
    requires forall m :: 0 <= m < |resets| ==> resets[k].value <= resets[m].value
    ensures ChosenReset(vs, now, from[k])
  {
    forall j | 0 <= j < |vs| && FutureReset(vs[j], now)
      ensures !ExactReset(vs[j], now) && resets[k].value <= vs[j].value
    {
      var m :| 0 <= m < |from| && from[m] == j;
      assert resets[m] == vs[j];
    }
  }

  method SelectReset(vs: seq<VarintLeaf>, now: int) returns (chosen: Option<nat>)
    ensures IsReset(vs, now, chosen)
    ensures chosen.Some? ==> chosen.value * SECOND > now
  {
    var resets;
    ghost var from;
    resets, from := ListResets(vs, now);
    hide ChosenReset;
    var k := 0;
    while k < |resets|
      invariant k <= |resets|
      invariant forall m :: 0 <= m < k ==> !ExactReset(resets[m], now)
    {
      if resets[k].path == [1, 5, 1] {
        FirstExact(vs, now, resets, from, k);
        return Some(resets[k].value);
      }
      k := k + 1;
    }
    if |resets| == 0 {
      return None;
    }
    var min := resets[0].value;
    ghost var at := 0;
    k := 1;
    while k < |resets|
      invariant 1 <= k <= |resets| && at < |resets| && resets[at].value == min
      invariant forall m :: 0 <= m < k ==> min <= resets[m].value
    {
      if resets[k].value < min {
        min, at := resets[k].value, k;
      }
      k := k + 1;
    }
    Earliest(vs, now, resets, from, at);
    return Some(min);
  }

  // --- No usage yet ---

  predicate PeriodMarker(v: VarintLeaf) {
    || (|v.path| >= 2 && v.path[0] == 1 && v.path[1] == 6)
    || (v.path == [1, 8, 1] && (v.value == 1 || v.value == 2))
  }

  predicate HasUsagePeriod(vs: seq<VarintLeaf>) {
    exists i :: 0 <= i < |vs| && PeriodMarker(vs[i])
  }

  method FindUsagePeriod(vs: seq<VarintLeaf>) returns (found: bool)
    ensures found == HasUsagePeriod(vs)
  {
    for k := 0 to |vs|
      invariant forall j :: 0 <= j < k ==> !PeriodMarker(vs[j])
    {
      if PeriodMarker(vs[k]) {
        return true;
      }
    }
    return false;
  }

  // --- The whole response ---

  datatype Snapshot = Snapshot(percent: nat, resetsAt: Option<nat>)
  datatype Reply = Parsed(snapshot: Snapshot) | ParseFailed | Crashed

  predicate LooksLikeProtobuf(data: seq<Byte>) {
    && data != [] && data[0] / 8 > 0
    && data[0] % 8 in {0, 1, 2, 5}
  }

  function Payloads(data: seq<Byte>): seq<seq<Byte>> {
    var ps := DataFrames(data);
    if ps == [] && LooksLikeProtobuf(data) then [data] else ps
  }

  // Each payload is scanned on its own, with fixed32 orders starting at 0 again.
  function ScanAll(ps: seq<seq<Byte>>): Option<Leaves> {
    if ps == [] then Some(NO_LEAVES)
    else match (ScanAll(ps[..|ps| - 1]), Scan(ps[|ps| - 1], 0, [], 0))
      case (Some(l), Scanned(sub, _)) => Some(l.Merge(sub))
      case _ => None
  }

  // The reply the leaves determine.
  ghost predicate Answers(l: Leaves, now: int, reply: Reply) {
    exists percent, reset :: IsPercent(l.fixed32, percent) && IsReset(l.varints, now, reset) &&
      reply == (
        if percent.Some? then Parsed(Snapshot(percent.value, reset))
        else if l.fixed32 == [] && reset.Some? && HasUsagePeriod(l.varints) then Parsed(Snapshot(ZERO, reset))
        else ParseFailed)
  }

  ghost predicate Replies(data: seq<Byte>, now: int, reply: Reply) {
    if Payloads(data) == [] then reply == ParseFailed
    else match ScanAll(Payloads(data))
      case None => reply == Crashed
      case Some(l) => Answers(l, now, reply)
  }

  method ParseResponse(data: seq<Byte>, now: int) returns (reply: Reply)
    ensures Replies(data, now, reply)
  {
    hide LooksLikeProtobuf, IsPercent, IsReset, HasUsagePeriod, DataFrames, Scan;
    var payloads := ReadDataFrames(data);
    if |payloads| == 0 && LooksLikeProtobuf(data) {
      payloads := [data];
    }
    if |payloads| == 0 {
      return ParseFailed;
    }
    var scan := NO_LEAVES;
    for k := 0 to |payloads|
      invariant ScanAll(payloads[..k]) == Some(scan)
    {
      var sub, _, bad := ScanProtobuf(payloads[k], 0, [], 0);
      assert payloads[..k + 1][..k] == payloads[..k];
      if bad {
        CrashSticks(payloads, k + 1);
        return Crashed;
      }
      scan := scan.Merge(sub);
    }
    assert payloads[..|payloads|] == payloads;
    var percent := SelectPercent(scan.fixed32);
    var chosen := SelectReset(scan.varints, now);
    var hasPeriod := FindUsagePeriod(scan.varints);
    var noUsageYet := percent.None? && |scan.fixed32| == 0 && chosen.Some? && hasPeriod;
    if percent.None? {
      reply := if noUsageYet then Parsed(Snapshot(ZERO, chosen)) else ParseFailed;
    } else {
      reply := Parsed(Snapshot(percent.value, chosen));
    }
  }

  lemma CrashSticks(ps: seq<seq<Byte>>, k: nat)
    requires k <= |ps| && ScanAll(ps[..k]).None?
    ensures ScanAll(ps).None?
    decreases |ps| - k
  {
    hide Scan;
    if k < |ps| {
      assert ps[..k + 1][..k] == ps[..k];
      CrashSticks(ps, k + 1);
    } else {
      assert ps[..k] == ps;
    }
  }

  // The reply is a function of the bytes and the clock: one percent, one reset.
  lemma RepliesUnique(data: seq<Byte>, now: int, r: Reply, s: Reply)
    requires Replies(data, now, r) && Replies(data, now, s)
    ensures r == s
  {
    hide DataFrames, ScanAll, Candidate, LooksLikeProtobuf, ChosenReset, FutureReset, ScanAll, HasUsagePeriod;
    match ScanAll(Payloads(data))
    case None =>
    case Some(l) =>
      if Payloads(data) != [] {
        var p, t :| IsPercent(l.fixed32, p) && IsReset(l.varints, now, t);
        forall q, u | IsPercent(l.fixed32, q) && IsReset(l.varints, now, u)
          ensures q == p && u == t
        {
          IsResetUnique(l.varints, now, t, u);
          IsPercentUnique(l.fixed32, p, q);
        }
      }
  }

  lemma IsPercentUnique(fs: seq<Fixed32Leaf>, r: Option<nat>, s: Option<nat>)
    requires IsPercent(fs, r) && IsPercent(fs, s)
    ensures r == s
  {
    hide Candidate;
    if r.Some? && s.Some? {
      var i: nat :| FirstShallowest(fs, i) && fs[i].bits == r.value;
      var j: nat :| FirstShallowest(fs, j) && fs[j].bits == s.value;
      FirstShallowestUnique(fs, i, j);
    }
  }

  // The percent reported is 0..100 unless it is NaN, and NaN does get through.
  lemma PercentInRange(l: Leaves, now: int, s: Snapshot)
    requires Answers(l, now, Parsed(s))
    ensures IsNaN(s.percent) || 0 <= Units(s.percent) <= Units(ONE_HUNDRED)
  {
    hide IsReset, Units;
    MagnitudeZero();
    RangeTest(ZERO);
  }

  lemma NaNWitness(bits: nat, order: nat)
    requires IsNaN(bits)
    ensures Candidate(Fixed32Leaf([1], bits, order))
  {}
}
