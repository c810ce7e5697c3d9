// gRPC-web framing as the two frame readers see it: a flag byte, a four-byte
// big-endian length, a payload. Flag bit 7 marks a trailer frame.
module Frames {
  import opened Basics

  const HEADER: nat := 5

  // Any four bytes are below 2^32, so on a 64-bit int the length is never negative.
  function Length(b: seq<Byte>): (n: nat)
    requires |b| >= HEADER
  {
    var x1: int, x2: int, x3: int, x4: int := b[1], b[2], b[3], b[4];
    x1 * 0x100_0000 + x2 * 0x1_0000 + x3 * 0x100 + x4
  }

  predicate IsTrailer(flags: Byte) { flags >= 128 }

  // A whole frame stands at the head of b.
  predicate Whole(b: seq<Byte>) {
    |b| >= HEADER && HEADER + Length(b) <= |b|
  }

  function DataFrom(b: seq<Byte>): Option<seq<seq<Byte>>>
    decreases |b|
  {
    if |b| < HEADER then Some([])
    else if !Whole(b) then None
    else After(if IsTrailer(b[0]) then [] else [b[HEADER..HEADER + Length(b)]], DataFrom(b[HEADER + Length(b)..]))
  }

  function After(seen: seq<seq<Byte>>, rest: Option<seq<seq<Byte>>>): Option<seq<seq<Byte>>> {
    match rest case None => None case Some(ps) => Some(seen + ps)
  }

  lemma AfterAfter(a: seq<seq<Byte>>, b: seq<seq<Byte>>, rest: Option<seq<seq<Byte>>>)
    ensures After(a, After(b, rest)) == After(a + b, rest)
    ensures After([], rest) == rest && a + [] == a
  {
    if rest.Some? {
      assert a + (b + rest.value) == a + b + rest.value && [] + rest.value == rest.value;
    }
  }

  // grpcWebDataFramesGo: nil on a truncated frame, which its caller cannot tell
  // from no data frames at all.
  function DataFrames(b: seq<Byte>): seq<seq<Byte>> {
    match DataFrom(b) case None => [] case Some(ps) => ps
  }

  function TrailerTexts(b: seq<Byte>): seq<seq<Byte>>
    decreases |b|
  {
    if !Whole(b) then []
    else (if IsTrailer(b[0]) then [b[HEADER..HEADER + Length(b)]] else [])
         + TrailerTexts(b[HEADER + Length(b)..])
  }

  method ReadDataFrames(data: seq<Byte>) returns (frames: seq<seq<Byte>>)
    ensures frames == DataFrames(data)
  {
    frames := [];
    var b := data;
    hide Length;
    AfterAfter([], [], DataFrom(data));
    while |b| >= HEADER
      invariant DataFrom(data) == After(frames, DataFrom(b))
      decreases |b|
    {
      var length := Length(b);
      if HEADER + length > |b| {
        return [];
      }
      AfterAfter(frames, if IsTrailer(b[0]) then [] else [b[HEADER..HEADER + length]], DataFrom(b[HEADER + length..]));
      if !IsTrailer(b[0]) {
        frames := frames + [b[HEADER..HEADER + length]];
      }
      b := b[HEADER + length..];
    }
  }

  method ReadTrailerTexts(data: seq<Byte>) returns (texts: seq<seq<Byte>>)
    ensures texts == TrailerTexts(data)
  {
    texts := [];
    var b := data;
    hide Length;
    while |b| >= HEADER
      invariant TrailerTexts(data) == texts + TrailerTexts(b)
      decreases |b|
    {
      var length := Length(b);
      if HEADER + length > |b| {
        break;
      }
      if IsTrailer(b[0]) {
        texts := texts + [b[HEADER..HEADER + length]];
      }
      b := b[HEADER + length..];
    }
  }

  // --- The sender's side ---

  datatype Frame = Frame(flags: Byte, payload: seq<Byte>)

  predicate Sendable(fs: seq<Frame>) {
    forall i :: 0 <= i < |fs| ==> |fs[i].payload| < 0x1_0000_0000
  }

  function BigEndian(n: nat): (r: seq<Byte>)
    requires n < 0x1_0000_0000
    ensures |r| == 4
  {
    [n / 0x100_0000, n / 0x1_0000 % 256, n / 0x100 % 256, n % 256]
  }

  function Write(f: Frame): (r: seq<Byte>)
    requires |f.payload| < 0x1_0000_0000
    ensures |r| == HEADER + |f.payload|
  {
    [f.flags] + BigEndian(|f.payload|) + f.payload
  }

  function WriteAll(fs: seq<Frame>): seq<Byte>
    requires Sendable(fs)
  {
    if fs == [] then [] else Write(fs[0]) + WriteAll(fs[1..])
  }

  function Payloads(fs: seq<Frame>, trailer: bool): seq<seq<Byte>> {
    if fs == [] then []
    else (if IsTrailer(fs[0].flags) == trailer then [fs[0].payload] else []) + Payloads(fs[1..], trailer)
  }

  lemma BytesOfLength(n: nat)
    requires n < 0x1_0000_0000
    ensures n / 0x100_0000 * 0x100_0000 + n / 0x1_0000 % 256 * 0x1_0000 + n / 0x100 % 256 * 0x100 + n % 256 == n
  {
    assert n / 0x1_0000 == n / 0x100 / 256 && n / 0x100_0000 == n / 0x1_0000 / 256;
  }

  lemma ReadHead(f: Frame, tail: seq<Byte>)
    requires |f.payload| < 0x1_0000_0000
    ensures var b := Write(f) + tail;
            && |b| >= HEADER && Whole(b) && b[0] == f.flags && Length(b) == |f.payload|
            && b[HEADER..HEADER + Length(b)] == f.payload && b[HEADER + Length(b)..] == tail
  {
    BytesOfLength(|f.payload|);
    var b := Write(f) + tail;
    assert b[1] == BigEndian(|f.payload|)[0] && b[4] == BigEndian(|f.payload|)[3];
    assert b[2] == BigEndian(|f.payload|)[1] && b[3] == BigEndian(|f.payload|)[2];
  }

  // Data frames and trailer texts partition the frames sent, each in order, and
  // neither reader minds fewer than five stray bytes at the end.
  lemma {:induction false} RoundTrip(fs: seq<Frame>, stray: seq<Byte>)
    requires Sendable(fs) && |stray| < HEADER
    ensures DataFrom(WriteAll(fs) + stray) == Some(Payloads(fs, false))
    ensures TrailerTexts(WriteAll(fs) + stray) == Payloads(fs, true)
  {
    if fs == [] {
      assert WriteAll(fs) + stray == stray;
    } else {
      hide Write, Length, Whole;
      var tail := WriteAll(fs[1..]) + stray;
      assert WriteAll(fs) + stray == Write(fs[0]) + tail;
      ReadHead(fs[0], tail);
      RoundTrip(fs[1..], stray);
    }
  }

  // A truncated last frame loses every data frame but none of the trailers
  // already complete.
  lemma {:induction false} Truncated(fs: seq<Frame>, cut: seq<Byte>)
    requires Sendable(fs) && |cut| >= HEADER && !Whole(cut)
    ensures DataFrames(WriteAll(fs) + cut) == []
    ensures DataFrom(WriteAll(fs) + cut).None?
    ensures TrailerTexts(WriteAll(fs) + cut) == Payloads(fs, true)
  {
    if fs == [] {
      assert WriteAll(fs) + cut == cut;
    } else {
      hide Write, Length, Whole;
      var tail := WriteAll(fs[1..]) + cut;
      assert WriteAll(fs) + cut == Write(fs[0]) + tail;
      ReadHead(fs[0], tail);
      Truncated(fs[1..], cut);
    }
  }

  lemma LengthBytes(b: seq<Byte>)
    requires |b| >= HEADER
    ensures Length(b) < 0x1_0000_0000
    ensures BigEndian(Length(b)) == b[1..HEADER]
  {
    var x1: int, x2: int, x3: int, x4: int := b[1], b[2], b[3], b[4];
    var n := Length(b);
    assert n / 0x100 == x1 * 0x1_0000 + x2 * 0x100 + x3;
    assert n / 0x1_0000 == x1 * 0x100 + x2;
    assert n / 0x100_0000 == x1;
  }

  // Every input splits into whole frames and a rest that no whole frame starts;
  // the rest decides between the two cases above.
  lemma {:induction false} Decompose(b: seq<Byte>) returns (fs: seq<Frame>, rest: seq<Byte>)
    ensures Sendable(fs) && b == WriteAll(fs) + rest && !Whole(rest)
    decreases |b|
  {
    if !Whole(b) {
      fs, rest := [], b;
    } else {
      var f := HeadFrame(b);
      hide Write, Length;
      var tail := b[|Write(f)|..];
      var more;
      more, rest := Decompose(tail);
      fs := [f] + more;
      assert fs[1..] == more;
      assert b == Write(f) + tail;
    }
  }

  lemma HeadFrame(b: seq<Byte>) returns (f: Frame)
    requires Whole(b)
    ensures |f.payload| < 0x1_0000_0000 && Write(f) <= b
  {
    LengthBytes(b);
    f := Frame(b[0], b[HEADER..HEADER + Length(b)]);
    assert b[..HEADER] == [b[0]] + b[1..HEADER];
    assert b[..HEADER + Length(b)] == b[..HEADER] + f.payload;
  }

  // What the readers return on any bytes at all: either the input is whole
  // frames and fewer than five stray bytes, and the data frames are exactly the
  // payloads with flag bit 7 clear; or the last frame is cut and there are none.
  lemma Characterise(b: seq<Byte>) returns (fs: seq<Frame>, rest: seq<Byte>)
    ensures Sendable(fs) && b == WriteAll(fs) + rest && !Whole(rest)
    ensures TrailerTexts(b) == Payloads(fs, true)
    ensures DataFrames(b) == if |rest| < HEADER then Payloads(fs, false) else []
    ensures DataFrom(b).Some? <==> |rest| < HEADER
  {
    fs, rest := Decompose(b);
    if |rest| < HEADER {
      RoundTrip(fs, rest);
    } else {
      Truncated(fs, rest);
    }
  }
}
