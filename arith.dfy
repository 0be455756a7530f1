/**
 * Python's built-in `abs` and `min` on reals, and small facts of real arithmetic
 * that the solver needs spelled out one product at a time.
 */
module Arith {

  /** Python's `abs` on a float. */
  function Abs(x: real): (r: real)
    ensures r >= 0.0
    ensures r == x || r == -x
  {
    if x < 0.0 then -x else x
  }

  /** Python's two-argument `min`: the smaller of the two values. */
  function Min(x: real, y: real): (r: real)
    ensures r <= x && r <= y
    ensures r == x || r == y
  {
    if y < x then y else x
  }

  lemma MulPositive(x: real, y: real)
    requires x > 0.0 && y > 0.0
    ensures x * y > 0.0
  {
  }

  lemma MulNonNegative(x: real, y: real)
    requires x >= 0.0 && y >= 0.0
    ensures x * y >= 0.0
  {
  }

  lemma MulNonZero(x: real, y: real)
    requires x != 0.0 && y != 0.0
    ensures x * y != 0.0
  {
  }

  lemma MulIncreasing(x1: real, x2: real, y: real)
    requires x1 < x2 && y > 0.0
    ensures x1 * y < x2 * y
  {
    MulPositive(x2 - x1, y);
  }

  /** If k * q == p with k and p positive then q is positive. */
  lemma QuotientPositive(p: real, k: real, q: real)
    requires p > 0.0 && k > 0.0 && k * q == p
    ensures q > 0.0
  {
  }

  /** With a positive scale k, k * q1 == p1 < p2 == k * q2 gives q1 < q2. */
  lemma ScaledIncreasing(k: real, q1: real, q2: real, p1: real, p2: real)
    requires k > 0.0 && k * q1 == p1 && k * q2 == p2 && p1 < p2
    ensures q1 < q2
  {
    QuotientPositive(p2 - p1, k, q2 - q1);
  }

  /** A nonzero factor common to both sides cancels. */
  lemma CancelFactor(x: real, y: real, z: real)
    requires z != 0.0 && x * z == y * z
    ensures x == y
  {
    assert (x - y) * z == 0.0;
  }
}
