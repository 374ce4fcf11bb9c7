/** Division with remainder, powers of two, the smaller of two numbers. */
module Arithmetic {

  function Places(n: nat): (p: nat)
    ensures p > 0
  {
    if n == 0 then 1 else 2 * Places(n - 1)
  }

  function Min(a: nat, b: nat): nat { if a < b then a else b }

  lemma Quotient(n: int, d: nat)
    requires d > 0
    ensures n / d * d <= n < n / d * d + d
  {
  }

  lemma Remainder(n: int, d: nat)
    requires d > 0
    ensures n == n / d * d + n % d
  {
  }

  lemma QuotientSmaller(n: nat, d: nat)
    requires d > 1 && n >= d
    ensures 0 < n / d < n && 0 <= n % d < d
  {
    var q := n / d;
    Remainder(n, d);
    if q < 1 { MultiplesApart(q, 1, d); }
    Twice(q, d);
  }

  lemma Twice(q: int, d: nat)
    requires d > 1
    ensures q > 0 ==> q * d >= 2 * q
  {
    if q > 0 { assert (d - 2) * q >= 0; }
  }

  lemma MultiplesApart(q: int, k: int, d: nat)
    requires q < k
    ensures q * d + d <= k * d
  {
    assert (k - q - 1) * d >= 0;
  }

  lemma UniqueRest(x: int, n: nat, q: int, r: int)
    requires n > 0 && x == q * n + r && 0 <= r < n
    ensures x % n == r && x / n == q
  {
    Remainder(x, n);
    if q > x / n { MultiplesApart(x / n, q, n); } else if q < x / n { MultiplesApart(q, x / n, n); }
  }
}
