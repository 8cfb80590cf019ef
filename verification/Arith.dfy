/** Facts about integer multiplication and division that the solver does not find alone. */
module Arith {

  lemma MulMonotone(a: int, b: int, k: int)
    requires a <= b && k >= 0
    ensures a * k <= b * k
  {
    assert (b - a) * k >= 0;
    assert (b - a) * k == b * k - a * k;
  }

  /** Quotient and remainder are the only pair that fits. */
  lemma DivModUnique(x: int, k: int, q: int, r: int)
    requires k > 0 && 0 <= r < k && x == q * k + r
    ensures x / k == q && x % k == r
  {
    var q' := x / k;
    assert x == q' * k + x % k;
    assert (q' + 1) * k == q' * k + k && (q + 1) * k == q * k + k;
    if q' < q {
      MulMonotone(q' + 1, q, k);
    } else if q < q' {
      MulMonotone(q + 1, q', k);
    }
  }

  /** Advancing by one moves the remainder by one, or back to zero. */
  lemma NextRemainder(d: int, k: int)
    requires k > 0
    ensures (d + 1) % k == if d % k == k - 1 then 0 else d % k + 1
  {
    var q := d / k;
    assert d == q * k + d % k;
    if d % k == k - 1 {
      assert (q + 1) * k == q * k + k;
      DivModUnique(d + 1, k, q + 1, 0);
    } else {
      DivModUnique(d + 1, k, q, d % k + 1);
    }
  }
}
