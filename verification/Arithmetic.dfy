/** Products and quotients. */
module Arithmetic {

  lemma AtLeast(k: int, p: nat)
    requires k >= 1
    ensures k * p >= p
  {
    assert k * p == (k - 1) * p + p;
  }

  /** A multiple of `p` is divided by it without remainder. */
  lemma DivideProduct(a: nat, p: nat)
    requires p >= 1
    ensures (a * p) / p == a && (a * p) % p == 0
  {
    var k, r := (a * p) / p, (a * p) % p;
    assert a * p == k * p + r;
    assert (a - k) * p == a * p - k * p;
    if a - k >= 1 {
      AtLeast(a - k, p);
    } else if k - a >= 1 {
      AtLeast(k - a, p);
    }
  }
}
