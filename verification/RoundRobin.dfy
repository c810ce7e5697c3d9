// Fairness of the directory cursor when more files exist than one pass may scan.
module RoundRobin {
  import opened Ingest
  import Modular

  function CursorAfter(n: nat, cursor: nat, passes: nat): nat {
    if passes == 0 then cursor else NextCursor(n, CursorAfter(n, cursor, passes - 1))
  }

  // Moving the cursor by m and then looking i further is looking m + i further.
  lemma WrappedTwice(cursor: nat, m: nat, i: nat, n: nat)
    requires n > 0
    ensures Wrapped(Wrapped(cursor, m, n), i, n) == Wrapped(cursor, m + i, n)
  {
    hide Modular.Mod;
    var c := Modular.Mod(cursor, n);
    Modular.AddMod(Modular.Mod(c + m, n), i, n);
    Modular.AddMod(c + m, i, n);
    assert c + m + i == c + (m + i);
  }

  lemma CursorValue(n: nat, cursor: nat, passes: nat, i: nat)
    requires n > MAX_FILES
    ensures Wrapped(CursorAfter(n, cursor, passes), i, n) == Wrapped(cursor, MAX_FILES * passes + i, n)
  {
    if passes > 0 {
      hide Wrapped;
      WrappedTwice(CursorAfter(n, cursor, passes - 1), MAX_FILES, i, n);
      CursorValue(n, cursor, passes - 1, MAX_FILES + i);
    }
  }

  lemma WrappedInjective(cursor: nat, i: nat, j: nat, n: nat)
    requires i < j < n
    ensures Wrapped(cursor, i, n) != Wrapped(cursor, j, n)
  {
    Modular.WrapOnce(Modular.Mod(cursor, n), i, n);
    Modular.WrapOnce(Modular.Mod(cursor, n), j, n);
  }

  // One pass visits 100 files, or all when there are fewer, and none twice.
  lemma PassIsDistinct(paths: seq<Path>, cursor: nat)
    requires forall i, j :: 0 <= i < j < |paths| ==> paths[i] != paths[j]
    ensures var s := Selection(paths, cursor);
            && |s| == (if |paths| > MAX_FILES then MAX_FILES else |paths|)
            && forall i, j :: 0 <= i < j < |s| ==> s[i] != s[j]
  {
    hide Wrapped;
    if |paths| > MAX_FILES {
      forall i, j | 0 <= i < j < MAX_FILES
        ensures Wrapped(cursor, i, |paths|) != Wrapped(cursor, j, |paths|)
      {
        WrappedInjective(cursor, i, j, |paths|);
      }
    }
  }

  // Any ceil(n/100) consecutive passes over n files visit every file, from any
  // starting cursor; the pass that reaches file j is the one returned.
  lemma EveryFileVisited(paths: seq<Path>, cursor: nat, j: nat) returns (pass: nat)
    requires j < |paths|
    ensures pass < (|paths| + MAX_FILES - 1) / MAX_FILES
    ensures paths[j] in Selection(paths, CursorAfter(|paths|, cursor, pass))
  {
    var n := |paths|;
    pass := 0;
    if n > MAX_FILES {
      var c := Modular.Mod(cursor, n);
      var d := if j >= c then j - c else j + n - c;
      pass := d / MAX_FILES;
      Modular.WrapOnce(c, d, n);
      hide Wrapped;
      CursorValue(n, cursor, pass, d % MAX_FILES);
      assert Selection(paths, CursorAfter(n, cursor, pass))[d % MAX_FILES] == paths[j];
    }
  }
}
