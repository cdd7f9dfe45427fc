/** Division with remainder, for variable divisors. */
module Modulo {

  lemma ModUnique(q: int, r: nat, m: nat)
    requires r < m
    ensures (q * m + r) % m == r
  {
    var a := q * m + r;
    var d := a / m - q;
    assert d * m == r - a % m by {
      assert a == (a / m) * m + a % m;
      assert (a / m - q) * m == (a / m) * m - q * m;
    }
    Multiple(d, m);
  }

  lemma Multiple(d: int, m: nat)
    ensures d != 0 ==> d * m >= m || d * m <= 0 - m
  {
    if d >= 1 { assert d * m >= 1 * m; }
    if d <= -1 { assert d * m <= -1 * m; }
  }
}
