/** pow(n, .) for a base of at least 2, known by its laws only. */
module Exponential {

  ghost predicate Adds(pow: real -> real, x: real, y: real) {
    pow(x + y) == pow(x) * pow(y)
  }

  ghost predicate Rises(pow: real -> real, x: real, y: real) {
    x < y ==> pow(x) < pow(y)
  }

  ghost predicate PowerOf(pow: real -> real, n: nat) {
    && n >= 2 && pow(1.0) == n as real
    && (forall x, y :: Adds(pow, x, y))
    && (forall x, y :: Rises(pow, x, y))
  }

  lemma Product(pow: real -> real, n: nat, x: real, y: real)
    requires PowerOf(pow, n)
    ensures pow(x + y) == pow(x) * pow(y)
  {
    assert Adds(pow, x, y);
  }

  lemma Rising(pow: real -> real, n: nat, x: real, y: real)
    requires PowerOf(pow, n)
    ensures x < y <==> pow(x) < pow(y)
    ensures x <= y <==> pow(x) <= pow(y)
  {
    assert Rises(pow, x, y) && Rises(pow, y, x);
  }

  lemma Positive(pow: real -> real, n: nat, x: real)
    requires PowerOf(pow, n)
    ensures pow(x) > 0.0 && pow(0.0) == 1.0
  {
    Product(pow, n, 1.0, 0.0);
    Product(pow, n, (x - 1.0) / 2.0, (x - 1.0) / 2.0);
    Rising(pow, n, x - 1.0, x);
    assert pow(x - 1.0) >= 0.0;
  }

  /** What a step of `d` from `x` adds. */
  function Gain(pow: real -> real, x: real, d: real): real {
    pow(x + d) - pow(x)
  }

  lemma GainIsProduct(pow: real -> real, n: nat, x: real, d: real)
    requires PowerOf(pow, n)
    ensures Gain(pow, x, d) == pow(x) * (pow(d) - 1.0)
  {
    Product(pow, n, x, d);
  }

  lemma GainFromSum(pow: real -> real, n: nat, x: real, y: real, d: real)
    requires PowerOf(pow, n)
    ensures Gain(pow, x + y, d) == pow(x) * pow(y) * (pow(d) - 1.0)
  {
    Product(pow, n, x, y);
    GainIsProduct(pow, n, x + y, d);
    var a, b, c := pow(x + y), pow(x) * pow(y), pow(d) - 1.0;
    assert a == b && a * c == b * c;
  }

  /** The same step adds more higher up. */
  lemma GainGrows(pow: real -> real, n: nat, x: real, y: real, d: real)
    requires PowerOf(pow, n) && x <= y && d >= 0.0
    ensures 0.0 <= Gain(pow, x, d) <= Gain(pow, y, d)
    ensures x < y && d > 0.0 ==> Gain(pow, x, d) < Gain(pow, y, d)
  {
    GainIsProduct(pow, n, x, d);
    GainIsProduct(pow, n, y, d);
    Positive(pow, n, x);
    Rising(pow, n, 0.0, d);
    Rising(pow, n, x, y);
    BiggerGain(Gain(pow, x, d), Gain(pow, y, d), pow(x), pow(y), pow(d) - 1.0);
  }

  lemma BiggerGain(gain: real, gain': real, a: real, b: real, c: real)
    requires 0.0 < a <= b && c >= 0.0 && gain == a * c && gain' == b * c
    ensures 0.0 <= gain <= gain' && (a < b && c > 0.0 ==> gain < gain')
  {
    var e := b - a;
    Products(e, c);
    Products(a, c);
    assert e * c == b * c - a * c;
  }

  lemma Products(a: real, b: real)
    requires a >= 0.0 && b >= 0.0
    ensures a * b >= 0.0 && (a > 0.0 && b > 0.0 ==> a * b > 0.0)
  {
  }

  lemma {:induction false} Unbounded(pow: real -> real, n: nat, k: nat)
    requires PowerOf(pow, n)
    ensures pow(k as real) >= k as real + 1.0
  {
    if k == 0 {
      Positive(pow, n, 0.0);
    } else {
      Unbounded(pow, n, k - 1);
      Product(pow, n, (k - 1) as real, 1.0);
      var p, more := pow((k - 1) as real), n as real - 2.0;
      Products(p, more);
      assert p * n as real == p + p + p * more;
    }
  }

  /** Bounds of a square root. */
  lemma Root(pow: real -> real, n: nat, x: real, low: real, high: real)
    requires PowerOf(pow, n) && 0.0 <= low && 0.0 <= high && low * low <= pow(x + x) <= high * high
    ensures low <= pow(x) <= high
  {
    Product(pow, n, x, x);
    Positive(pow, n, x);
    if pow(x) < low { SquareLess(pow(x), low); }
    if high < pow(x) { SquareLess(high, pow(x)); }
  }

  lemma SquareLess(a: real, b: real)
    requires 0.0 <= a < b
    ensures a * a < b * b
  {
    assert a * (b - a) >= 0.0 && b * (b - a) > 0.0;
  }
}
