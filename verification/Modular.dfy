// Division with remainder by a variable, in the small steps the solver can follow.
module Modular {
  // A nonzero multiple of n is at least n away from zero.
  lemma Multiple(k: int, n: int)
    requires n >= 0
    ensures k >= 1 ==> k * n >= n
    ensures k <= -1 ==> k * n <= -n
  {}

  // Quotient and remainder are determined by the division equation.
  lemma Remainder(x: nat, q: nat, r: nat, n: nat)
    requires n > 0 && r < n && x == q * n + r
    ensures x % n == r
  {
    var p, s := x / n, x % n;
    assert x == p * n + s;
    assert (q - p) * n == q * n - p * n;
    Multiple(q - p, n);
  }

  lemma AddMultiple(x: nat, q: nat, n: nat)
    requires n > 0
    ensures (x + q * n) % n == x % n
  {
    var p, s := x / n, x % n;
    assert x + q * n == (p + q) * n + s;
    Remainder(x + q * n, p + q, s, n);
  }

  // x % n under a name that proofs can hide.
  function Mod(x: nat, n: nat): (r: nat)
    requires n > 0
    ensures r < n
  {
    x % n
  }

  lemma AddMod(a: nat, b: nat, n: nat)
    requires n > 0
    ensures Mod(Mod(a, n) + b, n) == Mod(a + b, n)
  {
    assert a + b == a % n + b + a / n * n;
    AddMultiple(a % n + b, a / n, n);
  }

  lemma WrapOnce(start: nat, i: nat, n: nat)
    requires start < n && i < n
    ensures Mod(start + i, n) == if start + i < n then start + i else start + i - n
  {
    Remainder(start + i, if start + i < n then 0 else 1, if start + i < n then start + i else start + i - n, n);
  }
}
