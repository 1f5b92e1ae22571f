/** Division with remainder. */
module Arithmetic {
  lemma AtLeast(i: nat, k: nat)
    requires k >= 1
    ensures i * k >= i
  {
    assert i * k == i + i * (k - 1);
  }

  /** Quotient and remainder are unique. */
  lemma Remainder(x: nat, i: nat, q: nat, r: nat)
    requires r < i && x == i * q + r
    ensures x % i == r
  {
    var q', r' := x / i, x % i;
    assert x == i * q' + r';
    if q > q' {
      assert i * q == i * q' + i * (q - q');
      AtLeast(i, q - q');
    } else if q < q' {
      assert i * q' == i * q + i * (q' - q);
      AtLeast(i, q' - q);
    }
  }

  lemma Periodic(x: nat, m: nat, k: nat)
    requires m > 0
    ensures (x + m * k) % m == x % m
  {
    assert x + m * k == m * (x / m + k) + x % m;
    Remainder(x + m * k, m, x / m + k, x % m);
  }
}
