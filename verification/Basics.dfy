/** Optional values, powers of two and division facts shared by the models. */
module Basics {
  datatype Option<+T> = None | Some(value: T)

  function Pow2(k: nat): (p: nat)
    ensures p > 0
  {
    if k == 0 then 1 else 2 * Pow2(k - 1)
  }

  ghost predicate PowerOfTwo(n: nat) { exists k: nat :: n == Pow2(k) }

  lemma {:induction false} PowAdd(a: nat, b: nat)
    ensures Pow2(a + b) == Pow2(a) * Pow2(b)
  {
    if a > 0 { PowAdd(a - 1, b); }
  }

  lemma {:induction false} PowOrdered(a: nat, b: nat)
    requires a <= b
    ensures Pow2(a) <= Pow2(b)
    decreases b
  {
    if a < b { PowOrdered(a, b - 1); }
  }

  lemma Ordered(a: nat, b: nat, c: nat)
    requires a <= b
    ensures a * c <= b * c
  {
  }

  lemma Division(x: nat, n: nat)
    requires n > 0
    ensures x == (x / n) * n + x % n
  {
  }

  /** Quotient and remainder are determined by the interval a number lies in. */
  lemma QuotientOf(y: nat, q: nat, n: nat)
    requires n > 0 && q * n <= y < q * n + n
    ensures y / n == q && y % n == y - q * n
  {
    var k := y / n;
    Division(y, n);
    if k > q { Ordered(q + 1, k, n); }
    if k < q { Ordered(k + 1, q, n); }
  }
}
