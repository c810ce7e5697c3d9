// Base-128 varints as readVarintGo decodes them: seven bits per byte, least
// significant group first, at most ten bytes, 64-bit accumulator.
module Varint {
  import opened Basics
  import opened Powers

  const MAX_GROUPS: nat := 10

  // 2^(7k), the place value of the k-th group.
  function Place(k: nat): (p: nat)
    ensures p >= 1
  {
    if k == 0 then 1 else 128 * Place(k - 1)
  }

  // `v |= uint64(x & 0x7F) << 7k`. The shift drops bits beyond the 64th; the
  // accumulator holds only bits below 7k, so the OR is an addition (OrIsAddition).
  function Accumulate(v: Word, x: Byte, k: nat): (w: nat)
  {
    v + (x % 128 * Place(k)) % TWO_TO_THE_64
  }

  // The accumulator before group k holds only bits below position 7k.
  predicate Fits(v: Word, k: nat)
  {
    k <= MAX_GROUPS && (k < MAX_GROUPS ==> v < Place(k))
  }

  lemma PlaceValues()
    ensures Place(1) == 0x80 && Place(2) == 0x4000 && Place(3) == 0x20_0000
    ensures Place(4) == 0x1000_0000 && Place(5) == 0x8_0000_0000
    ensures Place(6) == 0x400_0000_0000 && Place(7) == 0x2_0000_0000_0000
    ensures Place(8) == 0x100_0000_0000_0000 && Place(9) == TWO_TO_THE_63
  {
    assert Place(3) == 0x20_0000;
    assert Place(6) == 0x400_0000_0000;
  }

  lemma AccumulateFits(v: Word, x: Byte, k: nat)
    requires Fits(v, k) && k < MAX_GROUPS
    ensures Accumulate(v, x, k) < TWO_TO_THE_64
    ensures Fits(Accumulate(v, x, k), k + 1)
  {
    PlaceValues();
    var g := x % 128;
    if k < 9 {
      assert g * Place(k) <= 127 * Place(k) by { MulMonotone(g, 127, Place(k)); }
      assert Place(k + 1) == 128 * Place(k);
      assert Place(k) <= Place(8) by { PlaceMonotone(k, 8); }
    } else {
      LowBit(g);
    }
  }

  lemma MulMonotone(a: nat, b: nat, c: nat)
    requires a <= b
    ensures a * c <= b * c
  {}

  lemma PlaceMonotone(j: nat, k: nat)
    requires j <= k
    ensures Place(j) <= Place(k)
  {}

  // Only the lowest bit of the tenth group survives the shift by 63.
  lemma LowBit(g: nat)
    ensures (g * TWO_TO_THE_63) % TWO_TO_THE_64 == (g % 2) * TWO_TO_THE_63
  {
    assert g * TWO_TO_THE_63 == (g / 2) * TWO_TO_THE_64 + (g % 2) * TWO_TO_THE_63;
  }

  // Bitwise OR of two naturals, lowest bit first.
  function Or(a: nat, b: nat): nat {
    if a == 0 && b == 0 then 0
    else 2 * Or(a / 2, b / 2) + if a % 2 == 1 || b % 2 == 1 then 1 else 0
  }

  // OR-ing in a number whose low j bits are clear, onto one that has only those.
  lemma {:induction false} OrDisjoint(v: nat, m: nat, j: nat)
    requires v < Pow2(j)
    ensures Or(v, m * Pow2(j)) == v + m * Pow2(j)
    decreases j
  {
    if j == 0 {
      OrZero(m);
    } else {
      var w := m * Pow2(j - 1);
      assert m * Pow2(j) == 2 * w;
      OrDisjoint(v / 2, m, j - 1);
    }
  }

  lemma {:induction false} OrZero(m: nat)
    ensures Or(0, m) == m
  {
    if m != 0 {
      OrZero(m / 2);
    }
  }

  lemma {:induction false} PlaceIsPower(k: nat)
    ensures Place(k) == Pow2(7 * k)
  {
    if k > 0 {
      PlaceIsPower(k - 1);
      var j := 7 * (k - 1);
      assert Pow2(j + 1) == 2 * Pow2(j) && Pow2(j + 2) == 4 * Pow2(j) && Pow2(j + 3) == 8 * Pow2(j);
      assert Pow2(j + 5) == 32 * Pow2(j) && Pow2(j + 7) == 128 * Pow2(j);
    }
  }

  lemma NoOverflow(g: nat, k: nat)
    requires g < 128 && k < 9
    ensures g * Place(k) < TWO_TO_THE_64
  {
    PlaceValues();
    PlaceMonotone(k, 8);
    hide Place;
    MulMonotone(g, 127, Place(k));
  }

  // A shifted group is a multiple of its place, even where its top bits fall off.
  lemma ShiftedGroup(g: nat, k: nat)
    requires g < 128 && k < MAX_GROUPS
    ensures (g * Place(k)) % TWO_TO_THE_64 == (if k < 9 then g else g % 2) * Place(k)
  {
    if k < 9 {
      NoOverflow(g, k);
    } else {
      PlaceValues();
      LowBit(g);
    }
  }

  // Accumulate is the source's OR of the shifted group, bits past the 64th
  // dropped, onto an accumulator that has only lower bits.
  lemma OrIsAddition(v: Word, x: Byte, k: nat)
    requires Fits(v, k) && k < MAX_GROUPS
    ensures Accumulate(v, x, k) == Or(v, (x % 128 * Place(k)) % TWO_TO_THE_64)
  {
    hide Or, Place, Pow2;
    ShiftedGroup(x % 128, k);
    PlaceIsPower(k);
    OrDisjoint(v, if k < 9 then x % 128 else x % 128 % 2, 7 * k);
  }

  // Reads groups k, k+1, ... onto v; the result carries the bytes consumed.
  function ReadGroups(b: seq<Byte>, v: Word, k: nat): (r: Option<(Word, nat)>)
    requires Fits(v, k)
    ensures r.Some? ==> 1 <= r.value.1 <= |b| && k + r.value.1 <= MAX_GROUPS
    decreases |b|
  {
    if b == [] || k >= MAX_GROUPS then None
    else
      AccumulateFits(v, b[0], k);
      var w := Accumulate(v, b[0], k);
      if b[0] < 128 then Some((w, 1))
      else match ReadGroups(b[1..], w, k + 1)
        case None => None
        case Some(r) => Some((r.0, r.1 + 1))
  }

  function Read(b: seq<Byte>): (r: Option<(Word, nat)>)
    ensures r.Some? ==> 1 <= r.value.1 <= |b| && r.value.1 <= MAX_GROUPS
  {
    ReadGroups(b, 0, 0)
  }

  lemma ReadGroupsCons(x: Byte, t: seq<Byte>, v: Word, k: nat)
    requires Fits(v, k) && k < MAX_GROUPS
    ensures Accumulate(v, x, k) < TWO_TO_THE_64 && Fits(Accumulate(v, x, k), k + 1)
    ensures ReadGroups([x] + t, v, k) ==
            if x < 128 then Some((Accumulate(v, x, k), 1))
            else match ReadGroups(t, Accumulate(v, x, k), k + 1)
                 case None => None
                 case Some(r) => Some((r.0, r.1 + 1))
  {
    AccumulateFits(v, x, k);
    assert ([x] + t)[1..] == t;
  }

  lemma ReadGroupsStops(b: seq<Byte>, v: Word, k: nat)
    requires Fits(v, k) && (b == [] || k >= MAX_GROUPS)
    ensures ReadGroups(b, v, k) == None
  {}

  // readVarintGo: advances idx past every byte it looks at, even when it fails.
  method ReadVarint(b: seq<Byte>, start: nat) returns (v: Word, ok: bool, idx: nat)
    requires start <= |b|
    ensures start <= idx <= |b|
    ensures Read(b[start..]) == if ok then Some((v, idx - start)) else None
  {
    hide ReadGroups, Accumulate;
    v, idx := 0, start;
    var shift := 0;
    ghost var k := 0;
    while idx < |b| && shift < 64
      invariant shift == 7 * k && idx == start + k && idx <= |b| && Fits(v, k)
      invariant Read(b[start..]) == match ReadGroups(b[idx..], v, k)
                                    case None => None
                                    case Some(r) => Some((r.0, k + r.1))
    {
      var x := b[idx];
      ReadGroupsCons(x, b[idx + 1..], v, k);
      assert b[idx..] == [x] + b[idx + 1..];
      v, idx := Accumulate(v, x, shift / 7), idx + 1;
      if x < 128 {
        return v, true, idx;
      }
      shift, k := shift + 7, k + 1;
    }
    ReadGroupsStops(b[idx..], v, k);
    return 0, false, idx;
  }

  function Encode(v: nat): (r: seq<Byte>)
    ensures |r| >= 1
  {
    if v < 128 then [v] else [128 + v % 128] + Encode(v / 128)
  }

  lemma SplitGroup(rest: nat, p: nat)
    ensures rest % 128 * p + rest / 128 * (128 * p) == rest * p
  {
    assert rest == 128 * (rest / 128) + rest % 128;
    calc {
      rest * p;
      (128 * (rest / 128) + rest % 128) * p;
      128 * (rest / 128) * p + rest % 128 * p;
      { assert 128 * (rest / 128) * p == rest / 128 * (128 * p); }
      rest / 128 * (128 * p) + rest % 128 * p;
    }
  }

  // One group of a value that fits: no bit is lost and the rest still fits.
  lemma GroupStep(v: Word, rest: nat, k: nat)
    requires Fits(v, k) && k < MAX_GROUPS && rest * Place(k) < TWO_TO_THE_64
    ensures rest < 128 ==> Accumulate(v, rest, k) == v + rest * Place(k)
    ensures rest >= 128 ==>
              && k + 1 < MAX_GROUPS
              && rest / 128 * Place(k + 1) <= rest * Place(k)
              && Accumulate(v, 128 + rest % 128, k) + rest / 128 * Place(k + 1) == v + rest * Place(k)
  {
    PlaceValues();
    SplitGroup(rest, Place(k));
    MulMonotone(rest % 128, rest, Place(k));
    if rest >= 128 {
      MulMonotone(128, rest, Place(k));
      assert (128 + rest % 128) % 128 == rest % 128;
    }
  }

  lemma {:induction false} ReadGroupsEncode(v: Word, rest: nat, k: nat, total: nat, tail: seq<Byte>)
    requires Fits(v, k) && k < MAX_GROUPS
    requires rest * Place(k) < TWO_TO_THE_64 && total == v + rest * Place(k)
    ensures total < TWO_TO_THE_64
    ensures ReadGroups(Encode(rest) + tail, v, k) == Some((total, |Encode(rest)|))
    decreases rest
  {
    GroupStep(v, rest, k);
    if rest < 128 {
      ReadGroupsCons(rest, tail, v, k);
    } else {
      var x := 128 + rest % 128;
      var t := Encode(rest / 128) + tail;
      assert Encode(rest) + tail == [x] + t;
      ReadGroupsCons(x, t, v, k);
      ReadGroupsEncode(Accumulate(v, x, k), rest / 128, k + 1, total, tail);
    }
  }

  // Decoding inverts encoding for every 64-bit value, whatever follows it.
  lemma {:induction false} ReadEncode(v: Word, tail: seq<Byte>)
    ensures Read(Encode(v) + tail) == Some((v, |Encode(v)|))
  {
    ReadGroupsEncode(0, v, 0, v, tail);
  }

  lemma {:induction false} ReadGroupsSucceeds(b: seq<Byte>, v: Word, k: nat)
    requires Fits(v, k)
    ensures ReadGroups(b, v, k).Some? <==>
            exists i :: 0 <= i < |b| && k + i < MAX_GROUPS && b[i] < 128
    ensures ReadGroups(b, v, k).Some? ==>
              var n := ReadGroups(b, v, k).value.1;
              b[n - 1] < 128 && forall i :: 0 <= i < n - 1 ==> b[i] >= 128
    decreases |b|
  {
    if b != [] && k < MAX_GROUPS && b[0] >= 128 {
      AccumulateFits(v, b[0], k);
      var t := b[1..];
      ReadGroupsSucceeds(t, Accumulate(v, b[0], k), k + 1);
      if i :| 0 <= i < |b| && k + i < MAX_GROUPS && b[i] < 128 {
        assert t[i - 1] < 128 && k + 1 + (i - 1) < MAX_GROUPS;
      }
    }
  }

  // A varint is read exactly when one of the next ten bytes has its top bit
  // clear, and it ends at the first such byte.
  lemma ReadSucceedsExactly(b: seq<Byte>)
    ensures Read(b).Some? <==> exists i :: 0 <= i < |b| && i < MAX_GROUPS && b[i] < 128
    ensures Read(b).Some? ==> var n := Read(b).value.1;
                              b[n - 1] < 128 && forall i :: 0 <= i < n - 1 ==> b[i] >= 128
  {
    ReadGroupsSucceeds(b, 0, 0);
  }

  lemma {:induction false} ReadGroupsExtend(b: seq<Byte>, more: seq<Byte>, v: Word, k: nat)
    requires Fits(v, k) && ReadGroups(b, v, k).Some?
    ensures ReadGroups(b + more, v, k) == ReadGroups(b, v, k)
    decreases |b|
  {
    AccumulateFits(v, b[0], k);
    assert (b + more)[1..] == b[1..] + more;
    if b[0] >= 128 {
      ReadGroupsExtend(b[1..], more, Accumulate(v, b[0], k), k + 1);
    }
  }

  // A varint that is read does not depend on the bytes after it.
  lemma ReadExtend(b: seq<Byte>, more: seq<Byte>)
    requires Read(b).Some?
    ensures Read(b + more) == Read(b)
  {
    ReadGroupsExtend(b, more, 0, 0);
  }

  lemma {:induction false} ReadGroupsBound(b: seq<Byte>, v: Word, k: nat)
    requires Fits(v, k)
    ensures var r := ReadGroups(b, v, k);
            r.Some? && k + r.value.1 < MAX_GROUPS ==> r.value.0 < Place(k + r.value.1)
    decreases |b|
  {
    if b != [] && k < MAX_GROUPS {
      AccumulateFits(v, b[0], k);
      if b[0] >= 128 {
        ReadGroupsBound(b[1..], Accumulate(v, b[0], k), k + 1);
      }
    }
  }

  // Only a full ten-byte varint reaches bit 63, so nine continuation bytes in a
  // row come before it.
  lemma TopBitNeedsTenBytes(b: seq<Byte>)
    requires Read(b).Some? && Read(b).value.0 >= TWO_TO_THE_63
    ensures Read(b).value.1 == MAX_GROUPS && forall i :: 0 <= i < 9 ==> b[i] >= 128
  {
    var n := Read(b).value.1;
    ReadGroupsBound(b, 0, 0);
    ReadSucceedsExactly(b);
    PlaceValues();
    if n < MAX_GROUPS {
      PlaceMonotone(n, 9);
    }
  }
}
