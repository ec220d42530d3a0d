/** Small facts of integer arithmetic that the solver does not find on its
    own because they multiply two unknowns. */
module Arith {

  /** Cancelling a positive factor from both sides of <=. */
  lemma MulCancelLe(a: int, b: int, c: int)
    requires c > 0 && a * c <= b * c
    ensures a <= b
  {
  }

  /** Cancelling a positive factor from both sides of <. */
  lemma MulCancelLt(a: int, b: int, c: int)
    requires c > 0 && a * c < b * c
    ensures a < b
  {
  }

  /** Multiplying both sides of <= by a non-negative factor. */
  lemma MulMonotone(a: int, b: int, c: int)
    requires a <= b && c >= 0
    ensures a * c <= b * c
  {
  }

  /** A two-digit mixed-radix number a * d + b stays below bound * d. */
  lemma DigitBound(a: int, b: int, d: int, bound: int)
    requires 0 <= a < bound && 0 <= b < d
    ensures 0 <= a * d + b < bound * d
  {
    MulMonotone(0, a, d);
    MulMonotone(a + 1, bound, d);
  }

  /** Quotient and remainder are unique. */
  lemma DivModUnique(k: int, q: int, r: int, d: int)
    requires d > 0 && 0 <= r < d && k == q * d + r
    ensures k / d == q && k % d == r
  {
    var e := q - k / d;
    assert e * d == k % d - r;
    MulCancelLt(e, 1, d);
    MulCancelLt(-1, e, d);
  }

  /** The leading digit of a number below bound * d is below bound. */
  lemma QuotientBound(x: int, d: int, bound: int)
    requires d > 0 && 0 <= x < bound * d
    ensures 0 <= x / d < bound
  {
    assert (x / d) * d <= x;
    MulCancelLt(x / d, bound, d);
  }

  /** Product of naturals that exceeds some natural has no zero factor. */
  lemma PositiveFactors(w: nat, s: nat, t: nat, c: nat, k: nat)
    requires k < w * s * t * c
    ensures w > 0 && s > 0 && t > 0 && c > 0
  {
  }

  /** Euclidean division of a non-negative number: the quotient is not
      negative and the remainder lies in [0, b). */
  lemma DivBounds(a: int, b: int)
    requires a >= 0 && b > 0
    ensures 0 <= a / b && (a / b) * b <= a < (a / b) * b + b
  {
  }

  /** (a + 1) * d == a * d + d. */
  lemma MulSucc(a: int, d: int)
    ensures (a + 1) * d == a * d + d
  {
  }
}
