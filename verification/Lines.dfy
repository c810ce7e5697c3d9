// Splitting a byte stream into newline-terminated lines and an unfinished rest.
module Lines {
  import opened Basics

  type Line = seq<Byte>

  const NEWLINE: Byte := 10

  predicate OneLine(l: Line) { NEWLINE !in l }

  // strings.Split(data, "\n").
  function Split(data: seq<Byte>): (r: seq<Line>)
    ensures |r| >= 1
  {
    if data == [] then [[]]
    else
      var r := Split(data[1..]);
      if data[0] == NEWLINE then [[]] + r else [[data[0]] + r[0]] + r[1..]
  }

  // splitCompleteLines, branch by branch.
  function SplitComplete(data: seq<Byte>): (seq<Line>, Line) {
    if data == [] then ([], [])
    else if data[|data| - 1] == NEWLINE then (Split(data[..|data| - 1]), [])
    else
      var lines := Split(data);
      if |lines| == 1 then ([], data)
      else (lines[..|lines| - 1], lines[|lines| - 1])
  }

  function CompleteLines(data: seq<Byte>): seq<Line> { SplitComplete(data).0 }

  function Rest(data: seq<Byte>): Line { SplitComplete(data).1 }

  // Each line followed by a newline.
  function Text(lines: seq<Line>): seq<Byte> {
    if lines == [] then [] else lines[0] + [NEWLINE] + Text(lines[1..])
  }

  ghost predicate Splits(data: seq<Byte>, lines: seq<Line>, rest: Line) {
    && data == Text(lines) + rest && OneLine(rest)
    && forall i :: 0 <= i < |lines| ==> OneLine(lines[i])
  }

  lemma TextSnoc(lines: seq<Line>, l: Line)
    ensures Text(lines + [l]) == Text(lines) + l + [NEWLINE]
  {
    if lines == [] {
      assert [l][1..] == [];
    } else {
      assert (lines + [l])[1..] == lines[1..] + [l];
    }
  }

  lemma TextConcat(a: seq<Line>, b: seq<Line>)
    ensures Text(a + b) == Text(a) + Text(b)
  {
    if a == [] {
      assert a + b == b;
    } else {
      assert (a + b)[1..] == a[1..] + b;
    }
  }

  lemma SplitsNewline(data: seq<Byte>, lines: seq<Line>, rest: Line)
    requires data != [] && data[0] == NEWLINE && Splits(data[1..], lines, rest)
    ensures Splits(data, [[]] + lines, rest)
  {
    assert ([[]] + lines)[1..] == lines;
  }

  lemma SplitsOther(data: seq<Byte>, lines: seq<Line>, rest: Line)
    requires data != [] && data[0] != NEWLINE && Splits(data[1..], lines, rest)
    ensures lines == [] ==> Splits(data, [], [data[0]] + rest)
    ensures lines != [] ==> Splits(data, [[data[0]] + lines[0]] + lines[1..], rest)
  {
    if lines != [] {
      assert ([[data[0]] + lines[0]] + lines[1..])[1..] == lines[1..];
      assert forall i :: 1 <= i < |lines| ==> lines[1..][i - 1] == lines[i];
    }
  }

  lemma {:induction false} SplitParts(data: seq<Byte>)
    ensures var r := Split(data);
            Splits(data, r[..|r| - 1], r[|r| - 1])
  {
    if data == [] {
    } else {
      hide Splits;
      var r, q := Split(data), Split(data[1..]);
      var lines, rest := q[..|q| - 1], q[|q| - 1];
      SplitParts(data[1..]);
      if data[0] == NEWLINE {
        SplitsNewline(data, lines, rest);
        assert r[..|r| - 1] == [[]] + lines;
      } else {
        SplitsOther(data, lines, rest);
        if |q| > 1 {
          assert r[..|r| - 1] == [[data[0]] + q[0]] + lines[1..];
        } else {
          assert r[..|r| - 1] == [];
        }
      }
    }
  }

  // The lines with their newlines, then the rest, are the input again, and no
  // piece contains a newline.
  lemma SplitCompleteParts(data: seq<Byte>)
    ensures Splits(data, CompleteLines(data), Rest(data))
  {
    if data != [] {
      if data[|data| - 1] == NEWLINE {
        var front := data[..|data| - 1];
        var r := Split(front);
        SplitParts(front);
        assert r == r[..|r| - 1] + [r[|r| - 1]];
        TextSnoc(r[..|r| - 1], r[|r| - 1]);
      } else {
        SplitParts(data);
      }
    }
  }

  // The first newline ends the first line.
  lemma FirstNewline(data: seq<Byte>, lines: seq<Line>, rest: Line)
    requires Splits(data, lines, rest)
    ensures lines == [] ==> rest == data && NEWLINE !in data
    ensures lines != [] ==>
              var n := |lines[0]|;
              && n < |data| && data[n] == NEWLINE && (forall k :: 0 <= k < n ==> data[k] != NEWLINE)
              && lines[0] == data[..n] && Splits(data[n + 1..], lines[1..], rest)
  {
    if lines != [] {
      var n := |lines[0]|;
      assert data == lines[0] + ([NEWLINE] + (Text(lines[1..]) + rest));
      assert data[n + 1..] == Text(lines[1..]) + rest;
      assert forall k :: 0 <= k < n ==> data[k] == lines[0][k];
    }
  }

  lemma {:induction false} SplitsUnique(data: seq<Byte>, a: seq<Line>, r: Line, b: seq<Line>, s: Line)
    requires Splits(data, a, r) && Splits(data, b, s)
    ensures a == b && r == s
  {
    hide Splits;
    FirstNewline(data, a, r);
    FirstNewline(data, b, s);
    if a != [] && b != [] {
      var n := |a[0]|;
      SplitsUnique(data[n + 1..], a[1..], r, b[1..], s);
      assert a == [a[0]] + a[1..] && b == [b[0]] + b[1..];
    }
  }

  // Chunk independence: splitting at any point and carrying the rest over gives
  // the same lines and the same rest as splitting the whole.
  lemma CarryOver(d: seq<Byte>, e: seq<Byte>)
    ensures CompleteLines(d + e) == CompleteLines(d) + CompleteLines(Rest(d) + e)
    ensures Rest(d + e) == Rest(Rest(d) + e)
  {
    hide CompleteLines, Rest, Text;
    var l, m := CompleteLines(d), CompleteLines(Rest(d) + e);
    SplitCompleteParts(d);
    SplitCompleteParts(Rest(d) + e);
    SplitCompleteParts(d + e);
    TextConcat(l, m);
    calc {
      d + e;
      Text(l) + Rest(d) + e;
      Text(l) + (Rest(d) + e);
      Text(l) + (Text(m) + Rest(Rest(d) + e));
      Text(l + m) + Rest(Rest(d) + e);
    }
    SplitsUnique(d + e, CompleteLines(d + e), Rest(d + e), l + m, Rest(Rest(d) + e));
  }
}
