/** Integer stand-ins for the page statistics computed in floating point. */
module Arith {
  /** `Math.round(n / d)` for a positive divisor: the nearest integer, halves
      rounding up. */
  function RoundDiv(n: int, d: int): (r: int)
    requires d > 0
    ensures d * (2 * r - 1) <= 2 * n < d * (2 * r + 1)
  {
    var r := (2 * n + d) / (2 * d);
    assert 2 * d * r <= 2 * n + d < 2 * d * r + 2 * d;
    r
  }

  /** A positive factor can be cancelled from a strict inequality. */
  lemma CancelLess(d: int, a: int, b: int)
    requires d > 0 && d * a < d * b
    ensures a < b
  {
  }

  /** Twice a product is the product with the doubled factor. */
  lemma DoubleFactor(d: int, a: int)
    ensures d * (2 * a) == 2 * (d * a)
  {
  }

  /** A lower bound on the quotient carries over to the rounded one. */
  lemma RoundDivAtLeast(n: int, d: int, lo: int)
    requires d > 0 && d * lo <= n
    ensures lo <= RoundDiv(n, d)
  {
    var r := RoundDiv(n, d);
    DoubleFactor(d, lo);
    CancelLess(d, 2 * lo, 2 * r + 1);
  }

  /** An upper bound on the quotient carries over to the rounded one. */
  lemma RoundDivAtMost(n: int, d: int, hi: int)
    requires d > 0 && n <= d * hi
    ensures RoundDiv(n, d) <= hi
  {
    var r := RoundDiv(n, d);
    DoubleFactor(d, hi);
    assert d * (2 * hi + 1) == d * (2 * hi) + d;
    CancelLess(d, 2 * r - 1, 2 * hi + 1);
  }

  /** The rounded mean of values between `lo` and `hi` is between them too. */
  lemma RoundDivWithin(n: int, d: int, lo: int, hi: int)
    requires d > 0 && d * lo <= n <= d * hi
    ensures lo <= RoundDiv(n, d) <= hi
  {
    RoundDivAtLeast(n, d, lo);
    RoundDivAtMost(n, d, hi);
  }
}
