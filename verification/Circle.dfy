/** Going round a circle of `n` places. */
module Circle {
  import opened Arithmetic

  /** The z-th place from `x`. */
  function Circular(x: nat, z: nat, n: nat): (m: nat)
    requires x < n && z < n
    ensures m < n
  {
    if x + z < n then x + z else x + z - n
  }

  lemma CircularIsModular(x: nat, z: nat, n: nat)
    requires x < n && z < n
    ensures Circular(x, z, n) == (x + z) % n
  {
    DivIs(if x + z < n then 0 else 1, Circular(x, z, n), n);
  }

  /** Whatever the start, every place is met exactly once. */
  lemma CircularVisitsOnce(x: nat, n: nat, m: nat)
    requires x < n && m < n
    ensures exists z :: 0 <= z < n && Circular(x, z, n) == m && forall y :: 0 <= y < n && Circular(x, y, n) == m ==> y == z
  {
    var z := if m >= x then m - x else m - x + n;
    assert Circular(x, z, n) == m;
  }
}
