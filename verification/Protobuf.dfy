// The schema-less protobuf scanner scanProtobufGo: it walks the bytes of one
// message, records every varint and fixed32 leaf with its field path, descends
// into length-delimited fields, and resynchronises one byte at a time on input
// it cannot read.
module Protobuf {
  import opened Basics
  import Varint

  const MAX_DEPTH: nat := 4

  datatype VarintLeaf = VarintLeaf(path: seq<Word>, value: Word)
  datatype Fixed32Leaf = Fixed32Leaf(path: seq<Word>, bits: nat, order: nat)

  datatype Leaves = Leaves(varints: seq<VarintLeaf>, fixed32: seq<Fixed32Leaf>) {
    function Merge(o: Leaves): Leaves {
      Leaves(varints + o.varints, fixed32 + o.fixed32)
    }
  }

  const NO_LEAVES := Leaves([], [])

  // Crash is the slice-bounds panic of a declared length of 2^63 or more, which
  // converts to a negative int and so slips through the length guard.
  datatype Outcome = Scanned(leaves: Leaves, next: nat) | Crash {
    function After(earlier: Leaves): Outcome {
      if Crash? then Crash else Scanned(earlier.Merge(leaves), next)
    }
  }

  // What one loop iteration recognises at the head of the remaining bytes.
  // `size` counts the bytes the field takes, `header` those before a payload.
  datatype Field =
    | Junk
    | VarintField(num: Word, value: Word, size: nat)
    | Fixed64Field(size: nat)
    | Fixed32Field(num: Word, bits: nat, size: nat)
    | BytesField(num: Word, header: nat, length: nat)
    | NegativeLength

  function Bits32(b: seq<Byte>): nat
    requires |b| >= 4
  {
    var x0: int, x1: int, x2: int, x3: int := b[0], b[1], b[2], b[3];
    x0 + x1 * 0x100 + x2 * 0x1_0000 + x3 * 0x100_0000
  }

  function NextField(b: seq<Byte>): (f: Field)
    requires b != []
    ensures f.VarintField? ==> 2 <= f.size <= |b|
    ensures f.Fixed64Field? ==> 9 <= f.size <= |b|
    ensures f.Fixed32Field? ==> 5 <= f.size <= |b|
    ensures f.BytesField? ==> 2 <= f.header && f.header + f.length <= |b|
  {
    match Varint.Read(b)
    case None => Junk
    case Some((key, n)) =>
      var num, wire, rest := key / 8, key % 8, b[n..];
      if key == 0 then Junk
      else if wire == 0 then
        match Varint.Read(rest)
        case None => Junk
        case Some((v, m)) => VarintField(num, v, n + m)
      else if wire == 1 then
        if 8 <= |rest| then Fixed64Field(n + 8) else Junk
      else if wire == 2 then
        match Varint.Read(rest)
        case None => Junk
        case Some((l, m)) =>
          if l >= TWO_TO_THE_63 then NegativeLength
          else if l > |rest| - m then Junk
          else BytesField(num, n + m, l)
      else if wire == 5 then
        if 4 <= |rest| then Fixed32Field(num, Bits32(rest), n + 4) else Junk
      else Junk
  }

  // Bytes the loop moves on by; unreadable input advances it by one byte.
  function Size(f: Field): nat {
    match f
    case Junk => 1
    case NegativeLength => 1
    case BytesField(_, header, length) => header + length
    case VarintField(_, _, size) => size
    case Fixed64Field(size) => size
    case Fixed32Field(_, _, size) => size
  }

  // The leaves of the field at the head of b, and the next fixed32 order.
  function Visit(b: seq<Byte>, depth: nat, path: seq<Word>, order: nat): Outcome
    requires b != []
    decreases |b|, 0
  {
    match NextField(b)
    case Junk => Scanned(NO_LEAVES, order)
    case Fixed64Field(_) => Scanned(NO_LEAVES, order)
    case VarintField(num, v, _) => Scanned(Leaves([VarintLeaf(path + [num], v)], []), order)
    case Fixed32Field(num, bits, _) => Scanned(Leaves([], [Fixed32Leaf(path + [num], bits, order)]), order + 1)
    case NegativeLength => Crash
    case BytesField(num, header, length) =>
      if depth < MAX_DEPTH then Scan(b[header..header + length], depth + 1, path + [num], order)
      else Scanned(NO_LEAVES, order)
  }

  function Scan(b: seq<Byte>, depth: nat, path: seq<Word>, order: nat): Outcome
    decreases |b|, 1
  {
    if b == [] then Scanned(NO_LEAVES, order)
    else match Visit(b, depth, path, order)
      case Crash => Crash
      case Scanned(found, next) => Scan(b[Size(NextField(b))..], depth, path, next).After(found)
  }

  // int(l) of a uint64 on a 64-bit platform.
  function ToInt(l: Word): int {
    if l < TWO_TO_THE_63 then l else l - TWO_TO_THE_64
  }

  // The key, the wire-type switch and its guards, on the cursor as the loop has it.
  method ReadField(data: seq<Byte>, start: nat) returns (f: Field)
    requires start < |data|
    ensures f == NextField(data[start..])
  {
    hide Varint.Read, Bits32;
    var key, ok, idx := Varint.ReadVarint(data, start);
    if !ok || key == 0 {
      return Junk;
    }
    assert data[start..][idx - start..] == data[idx..];
    var num, wire, from := key / 8, key % 8, idx;
    if wire == 0 {
      var v;
      v, ok, idx := Varint.ReadVarint(data, idx);
      f := if ok then VarintField(num, v, idx - start) else Junk;
    } else if wire == 1 {
      f := if idx + 8 <= |data| then Fixed64Field(idx + 8 - start) else Junk;
    } else if wire == 2 {
      var l;
      l, ok, idx := Varint.ReadVarint(data, idx);
      if !ok || ToInt(l) > |data| - idx {
        f := Junk;
      } else {
        f := if ToInt(l) < 0 then NegativeLength else BytesField(num, idx - start, l);
      }
    } else if wire == 5 {
      f := if idx + 4 <= |data| then Fixed32Field(num, Bits32(data[idx..]), idx + 4 - start) else Junk;
    } else {
      f := Junk;
    }
  }

  method VisitField(data: seq<Byte>, start: nat, f: Field, depth: nat, path: seq<Word>, order: nat)
    returns (found: Leaves, nextOrder: nat, crashed: bool)
    requires start < |data| && f == NextField(data[start..])
    ensures Visit(data[start..], depth, path, order) == if crashed then Crash else Scanned(found, nextOrder)
    decreases |data| - start, 0
  {
    hide NextField;
    found, nextOrder, crashed := NO_LEAVES, order, false;
    match f {
      case Junk =>
      case Fixed64Field(_) =>
      case VarintField(num, v, _) =>
        found := Leaves([VarintLeaf(path + [num], v)], []);
      case Fixed32Field(num, bits, _) =>
        found := Leaves([], [Fixed32Leaf(path + [num], bits, nextOrder)]);
        nextOrder := nextOrder + 1;
      case NegativeLength =>
        crashed := true;
      case BytesField(num, header, length) =>
        if depth < MAX_DEPTH {
          var from := start + header;
          assert data[from..from + length] == data[start..][header..header + length];
          found, nextOrder, crashed := ScanProtobuf(data[from..from + length], depth + 1, path + [num], nextOrder);
        }
    }
  }

  method ScanProtobuf(data: seq<Byte>, depth: nat, path: seq<Word>, order: nat)
    returns (scan: Leaves, nextOrder: nat, crashed: bool)
    ensures Scan(data, depth, path, order) == if crashed then Crash else Scanned(scan, nextOrder)
    decreases |data|, 1
  {
    hide NextField, Visit;
    scan, nextOrder, crashed := NO_LEAVES, order, false;
    var idx := 0;
    while idx < |data|
      invariant idx <= |data|
      invariant Scan(data, depth, path, order) == Scan(data[idx..], depth, path, nextOrder).After(scan)
      decreases |data| - idx
    {
      var f := ReadField(data, idx);
      var found;
      found, nextOrder, crashed := VisitField(data, idx, f, depth, path, nextOrder);
      if crashed {
        return;
      }
      assert data[idx..][Size(f)..] == data[idx + Size(f)..];
      AfterAfter(scan, found, Scan(data[idx + Size(f)..], depth, path, nextOrder));
      scan, idx := scan.Merge(found), idx + Size(f);
    }
  }

  lemma AfterAfter(a: Leaves, b: Leaves, o: Outcome)
    ensures o.After(b).After(a) == o.After(a.Merge(b))
    ensures o.After(NO_LEAVES) == o
  {}
}
