// What scanning promises: it undoes encoding, it consumes at least two bytes per
// varint and five per fixed32, numbers its leaves consecutively, keeps paths
// short, and crashes only on a length no encoder can write.
module ProtobufTheorems {
  import opened Basics
  import opened Protobuf
  import Varint

  // Field numbers keep the 64-bit key `num << 3 | wire` in range.
  const NUM_LIMIT: nat := 0x2000_0000_0000_0000

  datatype Node =
    | VarintNode(num: Word, value: Word)
    | Fixed64Node(num: Word, payload: seq<Byte>)
    | Fixed32Node(num: Word, payload: seq<Byte>)
    | MessageNode(num: Word, children: seq<Node>)

  predicate Legal(n: Node) {
    && 1 <= n.num < NUM_LIMIT
    && (n.Fixed64Node? ==> |n.payload| == 8)
    && (n.Fixed32Node? ==> |n.payload| == 4)
    && (n.MessageNode? ==> AllLegal(n.children))
  }

  predicate AllLegal(ns: seq<Node>) {
    ns != [] ==> Legal(ns[0]) && AllLegal(ns[1..])
  }

  function Encode(n: Node): seq<Byte>
    requires Legal(n)
  {
    match n
    case VarintNode(num, v) => Varint.Encode(num * 8) + Varint.Encode(v)
    case Fixed64Node(num, p) => Varint.Encode(num * 8 + 1) + p
    case Fixed32Node(num, p) => Varint.Encode(num * 8 + 5) + p
    case MessageNode(num, ns) =>
      var body := EncodeAll(ns);
      Varint.Encode(num * 8 + 2) + Varint.Encode(|body|) + body
  }

  function EncodeAll(ns: seq<Node>): seq<Byte>
    requires AllLegal(ns)
  {
    if ns == [] then [] else Encode(ns[0]) + EncodeAll(ns[1..])
  }

  // The leaves of a tree in wire order, with full paths; messages below
  // MAX_DEPTH levels are opaque to the scanner and contribute none.
  function NodeVarints(n: Node, depth: nat, path: seq<Word>): seq<VarintLeaf>
    requires Legal(n)
  {
    match n
    case VarintNode(num, v) => [VarintLeaf(path + [num], v)]
    case MessageNode(num, kids) => if depth < MAX_DEPTH then VarintsOf(kids, depth + 1, path + [num]) else []
    case Fixed64Node(_, _) => []
    case Fixed32Node(_, _) => []
  }

  function VarintsOf(ns: seq<Node>, depth: nat, path: seq<Word>): seq<VarintLeaf>
    requires AllLegal(ns)
  {
    if ns == [] then [] else NodeVarints(ns[0], depth, path) + VarintsOf(ns[1..], depth, path)
  }

  function NodeFixed32s(n: Node, depth: nat, path: seq<Word>): seq<(seq<Word>, nat)>
    requires Legal(n)
  {
    match n
    case Fixed32Node(num, p) => [(path + [num], Bits32(p))]
    case MessageNode(num, kids) => if depth < MAX_DEPTH then Fixed32sOf(kids, depth + 1, path + [num]) else []
    case Fixed64Node(_, _) => []
    case VarintNode(_, _) => []
  }

  function Fixed32sOf(ns: seq<Node>, depth: nat, path: seq<Word>): seq<(seq<Word>, nat)>
    requires AllLegal(ns)
  {
    if ns == [] then [] else NodeFixed32s(ns[0], depth, path) + Fixed32sOf(ns[1..], depth, path)
  }

  function Numbered(fs: seq<(seq<Word>, nat)>, order: nat): (r: seq<Fixed32Leaf>)
    ensures |r| == |fs|
  {
    seq(|fs|, i requires 0 <= i < |fs| => Fixed32Leaf(fs[i].0, fs[i].1, order + i))
  }

  function LeavesOf(ns: seq<Node>, depth: nat, path: seq<Word>, order: nat): Leaves
    requires AllLegal(ns)
  {
    Leaves(VarintsOf(ns, depth, path), Numbered(Fixed32sOf(ns, depth, path), order))
  }

  lemma NumberedConcat(a: seq<(seq<Word>, nat)>, b: seq<(seq<Word>, nat)>, order: nat)
    ensures Numbered(a + b, order) == Numbered(a, order) + Numbered(b, order + |a|)
  {}

  // The head field of an encoded node, whatever bytes follow.
  lemma KeyRead(num: Word, wire: nat, rest: seq<Byte>)
    requires 1 <= num < NUM_LIMIT && wire < 8
    ensures var key := Varint.Encode(num * 8 + wire);
            && Varint.Read(key + rest) == Some((num * 8 + wire, |key|))
            && (key + rest)[|key|..] == rest
            && (num * 8 + wire) / 8 == num && (num * 8 + wire) % 8 == wire
  {
    Varint.ReadEncode(num * 8 + wire, rest);
  }

  lemma VarintHead(num: Word, v: Word, tail: seq<Byte>)
    requires 1 <= num < NUM_LIMIT
    ensures var e := Varint.Encode(num * 8) + Varint.Encode(v);
            NextField(e + tail) == VarintField(num, v, |e|)
  {
    hide Varint.Encode, Varint.Read;
    var key, val := Varint.Encode(num * 8), Varint.Encode(v);
    KeyRead(num, 0, val + tail);
    Varint.ReadEncode(v, tail);
    assert key + val + tail == key + (val + tail);
  }

  lemma FixedHead(num: Word, wire: nat, payload: seq<Byte>, tail: seq<Byte>)
    requires 1 <= num < NUM_LIMIT
    requires (wire == 1 && |payload| == 8) || (wire == 5 && |payload| == 4)
    ensures var e := Varint.Encode(num * 8 + wire) + payload;
            NextField(e + tail) ==
            if wire == 1 then Fixed64Field(|e|) else Fixed32Field(num, Bits32(payload), |e|)
  {
    var key := Varint.Encode(num * 8 + wire);
    KeyRead(num, wire, payload + tail);
    assert key + payload + tail == key + (payload + tail);
  }

  lemma BytesHead(num: Word, body: seq<Byte>, tail: seq<Byte>)
    requires 1 <= num < NUM_LIMIT && |body| < TWO_TO_THE_63
    ensures var h := Varint.Encode(num * 8 + 2) + Varint.Encode(|body|);
            NextField(h + body + tail) == BytesField(num, |h|, |body|)
  {
    hide Varint.Read, Varint.Encode;
    var key, len := Varint.Encode(num * 8 + 2), Varint.Encode(|body|);
    var rest := len + (body + tail);
    KeyRead(num, 2, rest);
    Varint.ReadEncode(|body|, body + tail);
    assert key + len + body + tail == key + rest;
  }

  function NodeLeaves(n: Node, depth: nat, path: seq<Word>, order: nat): Leaves
    requires Legal(n)
  {
    Leaves(NodeVarints(n, depth, path), Numbered(NodeFixed32s(n, depth, path), order))
  }

  // One node at the head: its leaves, then the scan of what follows.
  lemma VisitEncode(n: Node, depth: nat, path: seq<Word>, order: nat, tail: seq<Byte>)
    requires Legal(n) && |Encode(n)| < TWO_TO_THE_63
    ensures var b := Encode(n) + tail;
            && Size(NextField(b)) == |Encode(n)|
            && Visit(b, depth, path, order) ==
               Scanned(NodeLeaves(n, depth, path, order), order + |NodeFixed32s(n, depth, path)|)
    decreases n, 1
  {
    hide NextField, Varint.Encode, Varint.Read, Scan, EncodeAll, VarintsOf, Fixed32sOf;
    match n
    case VarintNode(num, v) =>
      VarintHead(num, v, tail);
    case Fixed64Node(num, p) =>
      FixedHead(num, 1, p, tail);
    case Fixed32Node(num, p) =>
      FixedHead(num, 5, p, tail);
    case MessageNode(num, ns) =>
      VisitMessage(num, ns, depth, path, order, tail);
  }

  lemma VisitMessage(num: Word, ns: seq<Node>, depth: nat, path: seq<Word>, order: nat, tail: seq<Byte>)
    requires var n := MessageNode(num, ns); Legal(n) && |Encode(n)| < TWO_TO_THE_63
    ensures var n := MessageNode(num, ns);
            var b := Encode(n) + tail;
            && Size(NextField(b)) == |Encode(n)|
            && Visit(b, depth, path, order) ==
               Scanned(NodeLeaves(n, depth, path, order), order + |NodeFixed32s(n, depth, path)|)
    decreases ns, 1
  {
    hide NextField, Varint.Encode, Varint.Read, Scan, EncodeAll, VarintsOf, Fixed32sOf;
    var body := EncodeAll(ns);
    var h := Varint.Encode(num * 8 + 2) + Varint.Encode(|body|);
    var b := h + body + tail;
    BytesHead(num, body, tail);
    assert b[|h|..|h| + |body|] == body;
    if depth < MAX_DEPTH {
      ScanMessage(ns, depth + 1, path + [num], order);
    }
  }

  // A message that ends with its slice: exactly its own leaves.
  lemma ScanMessage(ns: seq<Node>, depth: nat, path: seq<Word>, order: nat)
    requires AllLegal(ns) && |EncodeAll(ns)| < TWO_TO_THE_63
    ensures Scan(EncodeAll(ns), depth, path, order) ==
            Scanned(LeavesOf(ns, depth, path, order), order + |Fixed32sOf(ns, depth, path)|)
    decreases ns, 0, 1
  {
    hide NextField, Visit, EncodeAll, VarintsOf, Fixed32sOf, Numbered;
    ScanEncode(ns, depth, path, order, []);
    assert EncodeAll(ns) + [] == EncodeAll(ns);
  }

  lemma ScanCons(e: seq<Byte>, rest: seq<Byte>, depth: nat, path: seq<Word>, order: nat)
    requires e != [] && Size(NextField(e + rest)) == |e|
    ensures Scan(e + rest, depth, path, order) ==
            match Visit(e + rest, depth, path, order)
            case Crash => Crash
            case Scanned(found, next) => Scan(rest, depth, path, next).After(found)
  {
    hide NextField, Visit;
    assert (e + rest)[|e|..] == rest;
  }

  lemma LeavesOfCons(ns: seq<Node>, depth: nat, path: seq<Word>, order: nat)
    requires AllLegal(ns) && ns != []
    ensures var n := |NodeFixed32s(ns[0], depth, path)|;
            && |Fixed32sOf(ns, depth, path)| == n + |Fixed32sOf(ns[1..], depth, path)|
            && LeavesOf(ns, depth, path, order) ==
               NodeLeaves(ns[0], depth, path, order).Merge(LeavesOf(ns[1..], depth, path, order + n))
  {
    hide Legal, NodeVarints, NodeFixed32s, Numbered;
    NumberedConcat(NodeFixed32s(ns[0], depth, path), Fixed32sOf(ns[1..], depth, path), order);
  }

  // Scanning undoes encoding, at every depth, path and order, and leaves any
  // trailing bytes to be scanned as if they stood alone.
  lemma {:induction false} ScanEncode(ns: seq<Node>, depth: nat, path: seq<Word>, order: nat, tail: seq<Byte>)
    requires AllLegal(ns) && |EncodeAll(ns)| < TWO_TO_THE_63
    ensures Scan(EncodeAll(ns) + tail, depth, path, order) ==
            Scan(tail, depth, path, order + |Fixed32sOf(ns, depth, path)|).After(LeavesOf(ns, depth, path, order))
    decreases ns, 0, 0
  {
    hide NextField, Visit, Scan, Encode, Legal, NodeLeaves;
    if ns == [] {
      assert EncodeAll(ns) + tail == tail;
      AfterAfter(NO_LEAVES, NO_LEAVES, Scan(tail, depth, path, order));
    } else {
      hide LeavesOf, Fixed32sOf;
      var e, rest := Encode(ns[0]), EncodeAll(ns[1..]) + tail;
      assert EncodeAll(ns) + tail == e + rest;
      EncodeNonEmpty(ns[0]);
      VisitEncode(ns[0], depth, path, order, rest);
      ScanCons(e, rest, depth, path, order);
      LeavesOfCons(ns, depth, path, order);
      var next := order + |NodeFixed32s(ns[0], depth, path)|;
      ScanEncode(ns[1..], depth, path, next, tail);
      AfterAfter(NodeLeaves(ns[0], depth, path, order), LeavesOf(ns[1..], depth, path, next),
                 Scan(tail, depth, path, order + |Fixed32sOf(ns, depth, path)|));
    }
  }

  lemma EncodeNonEmpty(n: Node)
    requires Legal(n)
    ensures Encode(n) != []
  {}

  // --- Any bytes at all ---

  // p extends path by one field number per level entered, at least one.
  predicate Extends(p: seq<Word>, path: seq<Word>, depth: nat) {
    path <= p && |path| < |p| <= |path| + 1 + (if depth < MAX_DEPTH then MAX_DEPTH - depth else 0)
  }

  // What a scan over `size` bytes may have collected.
  predicate Within(l: Leaves, size: nat, depth: nat, path: seq<Word>, order: nat, next: nat) {
    && 2 * |l.varints| + 5 * |l.fixed32| <= size
    && next == order + |l.fixed32|
    && (forall i :: 0 <= i < |l.fixed32| ==> l.fixed32[i].order == order + i)
    && (forall i :: 0 <= i < |l.fixed32| ==> Extends(l.fixed32[i].path, path, depth))
    && (forall i :: 0 <= i < |l.varints| ==> Extends(l.varints[i].path, path, depth))
  }

  lemma WithinMerge(a: Leaves, b: Leaves, m: nat, n: nat, depth: nat, path: seq<Word>, order: nat, mid: nat, next: nat)
    requires Within(a, m, depth, path, order, mid) && Within(b, n, depth, path, mid, next)
    ensures Within(a.Merge(b), m + n, depth, path, order, next)
  {
    hide Extends;
  }

  // A nested message's leaves sit deeper under the longer path, so they also
  // fit the enclosing message's bounds.
  lemma WithinNested(l: Leaves, num: Word, m: nat, n: nat, depth: nat, path: seq<Word>, order: nat, next: nat)
    requires depth < MAX_DEPTH && m <= n && Within(l, m, depth + 1, path + [num], order, next)
    ensures Within(l, n, depth, path, order, next)
  {
    assert path <= path + [num];
  }

  lemma {:induction false} VisitBounds(b: seq<Byte>, depth: nat, path: seq<Word>, order: nat)
    requires b != []
    ensures var o := Visit(b, depth, path, order);
            o.Scanned? ==> Within(o.leaves, Size(NextField(b)), depth, path, order, o.next)
    decreases |b|, 0
  {
    hide NextField, Scan, Within;
    match NextField(b)
    case VarintField(num, v, size) =>
      OneLeaf(Leaves([VarintLeaf(path + [num], v)], []), num, size, depth, path, order);
    case Fixed32Field(num, bits, size) =>
      OneLeaf(Leaves([], [Fixed32Leaf(path + [num], bits, order)]), num, size, depth, path, order);
    case BytesField(num, header, length) =>
      NoLeaf(header + length, depth, path, order);
      if depth < MAX_DEPTH {
        var sub := b[header..header + length];
        ScanBounds(sub, depth + 1, path + [num], order);
        var o := Scan(sub, depth + 1, path + [num], order);
        if o.Scanned? {
          WithinNested(o.leaves, num, length, header + length, depth, path, order, o.next);
        }
      }
    case Junk => NoLeaf(1, depth, path, order);
    case Fixed64Field(size) => NoLeaf(size, depth, path, order);
    case NegativeLength =>
  }

  lemma NoLeaf(size: nat, depth: nat, path: seq<Word>, order: nat)
    ensures Within(NO_LEAVES, size, depth, path, order, order)
  {}

  lemma OneLeaf(l: Leaves, num: Word, size: nat, depth: nat, path: seq<Word>, order: nat)
    requires (l.varints == [] && |l.fixed32| == 1 && l.fixed32[0].path == path + [num]
              && l.fixed32[0].order == order && size >= 5)
             || (l.fixed32 == [] && |l.varints| == 1 && l.varints[0].path == path + [num] && size >= 2)
    ensures Within(l, size, depth, path, order, order + |l.fixed32|)
  {}

  // Every scan pays two bytes for a varint and five for a fixed32, numbers its
  // fixed32 leaves order, order+1, ... across nested messages, and never nests
  // past the depth limit.
  lemma {:induction false} ScanBounds(b: seq<Byte>, depth: nat, path: seq<Word>, order: nat)
    ensures var o := Scan(b, depth, path, order);
            o.Scanned? ==> Within(o.leaves, |b|, depth, path, order, o.next)
    decreases |b|, 1
  {
    if b != [] {
      hide NextField, Within, Visit;
      var size := Size(NextField(b));
      VisitBounds(b, depth, path, order);
      var v := Visit(b, depth, path, order);
      if v.Scanned? {
        ScanBounds(b[size..], depth, path, v.next);
        var o := Scan(b[size..], depth, path, v.next);
        if o.Scanned? {
          WithinMerge(v.leaves, o.leaves, size, |b| - size, depth, path, order, v.next, o.next);
        }
      }
    }
  }

  // The call the decoder makes: depth 0, empty path, order 0.
  lemma TopLevelBounds(data: seq<Byte>)
    requires Scan(data, 0, [], 0).Scanned?
    ensures var Scanned(l, next) := Scan(data, 0, [], 0);
            && 2 * |l.varints| + 5 * |l.fixed32| <= |data|
            && next == |l.fixed32|
            && (forall i :: 0 <= i < |l.fixed32| ==> l.fixed32[i].order == i && 1 <= |l.fixed32[i].path| <= 5)
            && (forall i :: 0 <= i < |l.varints| ==> 1 <= |l.varints[i].path| <= 5)
  {
    ScanBounds(data, 0, [], 0);
  }

  // Nine continuation bytes in a row.
  predicate HasLongRun(b: seq<Byte>) {
    exists i :: 0 <= i && i + 9 <= |b| && RunAt(b, i)
  }

  predicate RunAt(b: seq<Byte>, i: nat)
    requires i + 9 <= |b|
  {
    forall j :: i <= j < i + 9 ==> b[j] >= 128
  }

  lemma RunInSlice(b: seq<Byte>, lo: nat, hi: nat)
    requires lo <= hi <= |b| && HasLongRun(b[lo..hi])
    ensures HasLongRun(b)
  {
    var i :| 0 <= i && i + 9 <= hi - lo && RunAt(b[lo..hi], i);
    assert RunAt(b, lo + i) by {
      forall j | lo + i <= j < lo + i + 9
        ensures b[j] >= 128
      {
        assert b[lo..hi][j - lo] >= 128;
      }
    }
  }

  lemma NegativeLengthNeedsRun(b: seq<Byte>)
    requires b != [] && NextField(b).NegativeLength?
    ensures HasLongRun(b)
  {
    hide Varint.Read;
    var n := Varint.Read(b).value.1;
    var rest := b[n..|b|];
    assert rest == b[n..];
    Varint.TopBitNeedsTenBytes(rest);
    assert RunAt(rest, 0);
    RunInSlice(b, n, |b|);
  }

  // A field header that declares 2^63 bytes or more stands at position i.
  predicate HugeAt(b: seq<Byte>, i: nat)
    requires i < |b|
  {
    NextField(b[i..]).NegativeLength?
  }

  predicate HasHuge(b: seq<Byte>) {
    exists i :: 0 <= i < |b| && HugeAt(b, i)
  }

  // Such a header does not depend on the bytes after it.
  lemma HugeExtend(b: seq<Byte>, more: seq<Byte>)
    requires b != [] && NextField(b).NegativeLength?
    ensures NextField(b + more).NegativeLength?
  {
    hide Varint.Read;
    Varint.ReadExtend(b, more);
    var n := Varint.Read(b).value.1;
    assert (b + more)[n..] == b[n..] + more;
    Varint.ReadExtend(b[n..], more);
  }

  lemma HugeInSlice(b: seq<Byte>, lo: nat, hi: nat)
    requires lo <= hi <= |b| && HasHuge(b[lo..hi])
    ensures HasHuge(b)
  {
    hide NextField;
    var i :| 0 <= i < hi - lo && HugeAt(b[lo..hi], i);
    HugeExtend(b[lo..hi][i..], b[hi..]);
    assert b[lo..hi][i..] + b[hi..] == b[lo + i..];
    assert HugeAt(b, lo + i);
  }

  lemma HugeHere(b: seq<Byte>)
    requires b != [] && NextField(b).NegativeLength?
    ensures HasHuge(b)
  {
    hide NextField;
    assert b[0..] == b;
    assert HugeAt(b, 0);
  }

  lemma {:induction false} VisitCrashNeedsHuge(b: seq<Byte>, depth: nat, path: seq<Word>, order: nat)
    requires b != [] && Visit(b, depth, path, order).Crash?
    ensures HasHuge(b)
    decreases |b|, 0
  {
    hide NextField, HasHuge;
    if NextField(b).NegativeLength? {
      HugeHere(b);
    } else {
      var BytesField(num, header, length) := NextField(b);
      CrashNeedsHuge(b[header..header + length], depth + 1, path + [num], order);
      HugeInSlice(b, header, header + length);
    }
  }

  // The scan crashes only on a header that declares 2^63 bytes or more, at some
  // position of the input, however deeply it was reached.
  lemma {:induction false} CrashNeedsHuge(b: seq<Byte>, depth: nat, path: seq<Word>, order: nat)
    requires Scan(b, depth, path, order).Crash?
    ensures HasHuge(b)
    decreases |b|, 1
  {
    hide NextField, Visit, HasHuge;
    var size := Size(NextField(b));
    assert b[size..|b|] == b[size..];
    match Visit(b, depth, path, order)
    case Crash => VisitCrashNeedsHuge(b, depth, path, order);
    case Scanned(_, next) =>
      CrashNeedsHuge(b[size..], depth, path, next);
      HugeInSlice(b, size, |b|);
  }

  predicate CrashesFrom(b: seq<Byte>, i: nat)
    requires i <= |b|
  {
    Scan(b[i..], 0, [], 0).Crash?
  }

  // Exactly: bytes are safe to scan from every position if and only if no
  // position holds such a header.
  lemma CrashExactly(b: seq<Byte>)
    ensures HasHuge(b) <==> exists i :: 0 <= i <= |b| && CrashesFrom(b, i)
  {
    hide NextField, Scan;
    if HasHuge(b) {
      var i :| 0 <= i < |b| && HugeAt(b, i);
      HugeCrashes(b[i..]);
      assert CrashesFrom(b, i);
    }
    if i :| 0 <= i <= |b| && CrashesFrom(b, i) {
      CrashNeedsHuge(b[i..], 0, [], 0);
      assert b[i..|b|] == b[i..];
      HugeInSlice(b, i, |b|);
    }
  }

  lemma HugeCrashes(b: seq<Byte>)
    requires b != [] && NextField(b).NegativeLength?
    ensures Scan(b, 0, [], 0).Crash?
  {
    hide NextField;
  }

  // In plainer terms: the scan cannot crash on bytes without nine continuation
  // bytes in a row.
  lemma CrashNeedsRun(b: seq<Byte>, depth: nat, path: seq<Word>, order: nat)
    requires Scan(b, depth, path, order).Crash?
    ensures HasLongRun(b)
  {
    hide NextField, Scan, HasLongRun;
    CrashNeedsHuge(b, depth, path, order);
    var i :| 0 <= i < |b| && HugeAt(b, i);
    NegativeLengthNeedsRun(b[i..]);
    assert b[i..|b|] == b[i..];
    RunInSlice(b, i, |b|);
  }

  lemma HugeLengthHead(num: Word, l: Word, tail: seq<Byte>)
    requires 1 <= num < NUM_LIMIT && l >= TWO_TO_THE_63
    ensures NextField(Varint.Encode(num * 8 + 2) + Varint.Encode(l) + tail) == NegativeLength
  {
    hide Varint.Encode, Varint.Read;
    var key, len := Varint.Encode(num * 8 + 2), Varint.Encode(l);
    KeyRead(num, 2, len + tail);
    Varint.ReadEncode(l, tail);
    assert key + len + tail == key + (len + tail);
  }

  // Crashes do exist: a field header that declares 2^63 bytes or more, after any
  // legal fields and before anything at all.
  lemma HugeLengthCrashes(ns: seq<Node>, num: Word, l: Word, tail: seq<Byte>,
                          depth: nat, path: seq<Word>, order: nat)
    requires AllLegal(ns) && |EncodeAll(ns)| < TWO_TO_THE_63
    requires 1 <= num < NUM_LIMIT && l >= TWO_TO_THE_63
    ensures var header := Varint.Encode(num * 8 + 2) + Varint.Encode(l);
            Scan(EncodeAll(ns) + (header + tail), depth, path, order) == Crash
  {
    hide NextField, EncodeAll, LeavesOf, Fixed32sOf, Varint.Encode;
    var header := Varint.Encode(num * 8 + 2) + Varint.Encode(l);
    HugeLengthHead(num, l, tail);
    ScanEncode(ns, depth, path, order, header + tail);
  }
}
