// The header fields of gRPC-web trailer frames and the status they carry.
module Trailers {
  import opened Basics
  import opened Frames
  import opened Lines

  const COLON: Byte := 58

  const STATUS := "grpc-status"

  // Trimming, lower-casing and number parsing are library text functions.
  datatype Texts = Texts(key: seq<Byte> -> string, value: seq<Byte> -> string, number: string -> Option<int>)

  // The position of the first colon, or the length when there is none.
  function FirstColon(line: Line): (i: nat)
    ensures i <= |line| && (i < |line| ==> line[i] == COLON) && forall j :: 0 <= j < i ==> line[j] != COLON
  {
    if line == [] || line[0] == COLON then 0 else FirstColon(line[1..]) + 1
  }

  // A line with something before its first colon is a field.
  function FieldOf(t: Texts, line: Line): Option<(string, string)> {
    var i := FirstColon(line);
    if 0 < i < |line| then Some((t.key(line[..i]), t.value(line[i + 1..]))) else None
  }

  function WithLine(t: Texts, fields: map<string, string>, line: Line): map<string, string> {
    match FieldOf(t, line)
    case None => fields
    case Some(f) => fields[f.0 := f.1]
  }

  // Later lines override earlier ones.
  function FieldsFrom(t: Texts, fields: map<string, string>, lines: seq<Line>): map<string, string> {
    if lines == [] then fields
    else WithLine(t, FieldsFrom(t, fields, lines[..|lines| - 1]), lines[|lines| - 1])
  }

  function FieldsOf(t: Texts, lines: seq<Line>): map<string, string> { FieldsFrom(t, map[], lines) }

  // The lines of all texts, in order.
  function AllLines(texts: seq<seq<Byte>>): seq<Line> {
    if texts == [] then [] else Split(texts[0]) + AllLines(texts[1..])
  }

  // Line j is the last one for this key.
  predicate LastFor(t: Texts, lines: seq<Line>, j: nat, k: string, v: string) {
    && j < |lines| && FieldOf(t, lines[j]) == Some((k, v))
    && forall l :: j < l < |lines| && FieldOf(t, lines[l]).Some? ==> FieldOf(t, lines[l]).value.0 != k
  }

  // A field has the value of its last line, and there are no other fields.
  lemma {:induction false} LastWins(t: Texts, lines: seq<Line>, k: string, v: string)
    ensures k in FieldsOf(t, lines) && FieldsOf(t, lines)[k] == v <==> exists j :: LastFor(t, lines, j, k, v)
  {
    if lines == [] {
    } else {
      hide FieldOf;
      var n := |lines| - 1;
      var front := lines[..n];
      LastWins(t, front, k, v);
      if FieldOf(t, lines[n]).Some? && FieldOf(t, lines[n]).value.0 == k {
        assert FieldOf(t, lines[n]).value.1 == v ==> LastFor(t, lines, n, k, v);
        assert forall j :: LastFor(t, lines, j, k, v) ==> j == n;
      } else {
        assert forall j: nat :: j < n ==> front[j] == lines[j];
        assert forall j :: LastFor(t, front, j, k, v) <==> LastFor(t, lines, j, k, v);
      }
    }
  }

  lemma {:induction false} FieldsConcat(t: Texts, fields: map<string, string>, a: seq<Line>, b: seq<Line>)
    ensures FieldsFrom(t, fields, a + b) == FieldsFrom(t, FieldsFrom(t, fields, a), b)
  {
    if b == [] {
      assert a + b == a;
    } else {
      hide WithLine;
      FieldsConcat(t, fields, a, b[..|b| - 1]);
      assert (a + b)[..|a + b| - 1] == a + b[..|b| - 1];
    }
  }

  lemma EmptyLine(t: Texts)
    ensures FieldOf(t, []) == None
  {}

  method AddFields(t: Texts, before: map<string, string>, text: seq<Byte>) returns (fields: map<string, string>)
    ensures fields == FieldsFrom(t, before, Split(text))
  {
    hide FieldOf, Split;
    fields := before;
    var lines := Split(text);
    EmptyLine(t);
    for i := 0 to |lines|
      invariant fields == FieldsFrom(t, before, lines[..i])
    {
      assert lines[..i + 1][..i] == lines[..i];
      if lines[i] == [] {
        continue;
      }
      var field := FieldOf(t, lines[i]);
      if field.Some? {
        fields := fields[field.value.0 := field.value.1];
      }
    }
    assert lines[..|lines|] == lines;
  }

  // The fields of the trailer frames, read off the frames one by one.
  method ReadTrailerFields(t: Texts, data: seq<Byte>) returns (fields: map<string, string>)
    ensures fields == FieldsOf(t, AllLines(TrailerTexts(data)))
  {
    hide Length, FieldsFrom, Split;
    fields := map[];
    var b := data;
    while |b| >= HEADER
      invariant FieldsFrom(t, map[], AllLines(TrailerTexts(data))) == FieldsFrom(t, fields, AllLines(TrailerTexts(b)))
      decreases |b|
    {
      var length := Length(b);
      if HEADER + length > |b| {
        break;
      }
      if IsTrailer(b[0]) {
        var text := b[HEADER..HEADER + length];
        var rest := TrailerTexts(b[HEADER + length..]);
        assert ([text] + rest)[1..] == rest;
        FieldsConcat(t, fields, Split(text), AllLines(rest));
        fields := AddFields(t, fields, text);
      } else {
        assert [] + TrailerTexts(b[HEADER + length..]) == TrailerTexts(b[HEADER + length..]);
      }
      b := b[HEADER + length..];
    }
    NoTexts(t, fields, b);
  }

  lemma NoTexts(t: Texts, fields: map<string, string>, b: seq<Byte>)
    requires !Whole(b)
    ensures FieldsFrom(t, fields, AllLines(TrailerTexts(b))) == fields
  {}

  // The status check rejects a status that is a number other than zero.
  predicate Rejected(t: Texts, fields: map<string, string>) {
    STATUS in fields && fields[STATUS] != "" && t.number(fields[STATUS]).Some? && t.number(fields[STATUS]).value != 0
  }

  method ValidateTrailers(t: Texts, data: seq<Byte>) returns (ok: bool)
    ensures ok == !Rejected(t, FieldsOf(t, AllLines(TrailerTexts(data))))
  {
    var fields := ReadTrailerFields(t, data);
    var raw := if STATUS in fields then fields[STATUS] else "";
    if raw != "" {
      var status := t.number(raw);
      if status.Some? && status.value != 0 {
        return false;
      }
    }
    return true;
  }

  // The last status line says v.
  ghost predicate StatusIs(t: Texts, lines: seq<Line>, v: string) {
    exists j :: LastFor(t, lines, j, STATUS, v)
  }

  // The verdict on frames sent rests on the last status line of their trailer
  // frames alone: no data frame and no stray byte changes it.
  lemma StatusDecides(t: Texts, fs: seq<Frame>, stray: seq<Byte>)
    requires Sendable(fs) && |stray| < HEADER
    ensures var lines := AllLines(Payloads(fs, true));
            Rejected(t, FieldsOf(t, AllLines(TrailerTexts(WriteAll(fs) + stray)))) <==>
            exists v :: StatusIs(t, lines, v) && v != "" && t.number(v).Some? && t.number(v).value != 0
  {
    hide FieldsFrom, AllLines, LastFor, WriteAll;
    RoundTrip(fs, stray);
    var lines := AllLines(Payloads(fs, true));
    var fields := FieldsOf(t, lines);
    forall v
      ensures STATUS in fields && fields[STATUS] == v <==> StatusIs(t, lines, v)
    {
      LastWins(t, lines, STATUS, v);
    }
  }
}
