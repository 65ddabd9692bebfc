/** Facts about products, quotients and remainders of naturals. */
module Arithmetic {

  function Power(n: nat, k: nat): (r: nat)
    ensures n >= 1 ==> r >= 1
  {
    if k == 0 then 1 else Power(n, k - 1) * n
  }

  function RealPower(x: real, k: nat): real {
    if k == 0 then 1.0 else x * RealPower(x, k - 1)
  }

  lemma DigitsUnique(q: nat, d: nat, q': nat, d': nat, n: nat)
    requires d < n && d' < n && q * n + d == q' * n + d'
    ensures q == q' && d == d'
  {
    var low, high := if q < q' then q else q', if q < q' then q' else q;
    assert low < high ==> (low + 1) * n <= high * n;
  }

  lemma DivMod(x: nat, n: nat)
    requires n > 0
    ensures x == x / n * n + x % n && x % n < n
  {
  }

  lemma DivIs(q: nat, d: nat, n: nat)
    requires d < n
    ensures (q * n + d) / n == q && (q * n + d) % n == d
  {
    var x := q * n + d;
    DivMod(x, n);
    DigitsUnique(q, d, x / n, x % n, n);
  }

  lemma DigitBound(q: nat, d: nat, n: nat, bound: nat)
    requires d < n && q < bound
    ensures q * n + d < bound * n
  {
    assert (q + 1) * n <= bound * n;
  }

  lemma ProductMonotone(a: nat, b: nat, n: nat)
    requires a <= b
    ensures a * n <= b * n
  {
  }

  lemma Small(x: nat, n: nat)
    requires x < n
    ensures x % n == x
  {
  }

  /** Reducing one summand first does not change the remainder of a sum. */
  lemma AddMod(x: nat, y: nat, n: nat)
    requires n > 0
    ensures (x % n + y) % n == (x + y) % n
  {
    var z := x % n + y;
    DivMod(x, n);
    DivMod(z, n);
    assert x + y == (x / n + z / n) * n + z % n;
    DivIs(x / n + z / n, z % n, n);
  }
}
