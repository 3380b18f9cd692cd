/** Facts of integer multiplication and division used by the schedule and resize proofs. */
module Arith {

  /** Uniqueness of quotient and remainder. */
  lemma DivMod(n: int, k: int, q: int, r: int)
    requires k >= 1 && 0 <= r < k && n == k * q + r
    ensures n / k == q && n % k == r
  {
    var q', r' := n / k, n % k;
    assert k * q' + r' == n;
    MulStep(k, q', q);
    MulStep(k, q, q');
  }

  /** Multiplying by a positive k keeps a strict order, with a gap of at least k. */
  lemma MulStep(k: int, a: int, b: int)
    requires k >= 1
    ensures a < b ==> k * a + k <= k * b
  {
    if a < b {
      var d := b - a - 1;
      assert k * b == k * a + k + k * d;
      assert k * d >= 0;
    }
  }

  lemma MulCancel(k: int, a: int, b: int)
    requires k >= 1 && k * a < k * b
    ensures a < b
  {
    MulStep(k, b, a);
  }

  /** Multiplying by a non-negative k keeps a non-strict order. */
  lemma MulMono(k: int, a: int, b: int)
    requires k >= 0 && a <= b
    ensures k * a <= k * b
  {
    assert k * b == k * a + k * (b - a);
    assert k * (b - a) >= 0;
  }

  /** The quotient and remainder by a positive divisor. */
  lemma FloorDiv(n: int, k: int)
    requires k >= 1
    ensures k * (n / k) <= n < k * (n / k) + k
  {
  }

  /** Integer division by a positive divisor is monotonic. */
  lemma DivMono(a: int, b: int, k: int)
    requires k >= 1 && a <= b
    ensures a / k <= b / k
  {
    FloorDiv(a, k);
    FloorDiv(b, k);
    MulStep(k, b / k, a / k);
  }
}
