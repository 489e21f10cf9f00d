/** The random source of the game. The C program draws rand() / RAND_MAX, a fraction in [0, 1]
    (both ends included), and stretches it onto [min, max]. Here the fraction is supplied by the
    caller, so genRandDouble becomes a pure map. */
module Random {

  /** A value rand() / RAND_MAX can take. */
  predicate IsFraction(r: real) {
    0.0 <= r <= 1.0
  }

  /** A fraction of a non-negative length is between zero and that length. */
  lemma ScaledFraction(r: real, d: real)
    requires IsFraction(r) && 0.0 <= d
    ensures 0.0 <= r * d <= d
  {
  }

  /** genRandDouble(min, max) for the draw r: the point a fraction r of the way from min to max. */
  function GenRandDouble(min: real, max: real, r: real): (v: real)
    ensures IsFraction(r) && min <= max ==> min <= v <= max
    ensures r == 0.0 ==> v == min
    ensures r == 1.0 ==> v == max
  {
    // Both branches compute the same value; the first only calls ScaledFraction for the bound.
    if IsFraction(r) && min <= max then ScaledFraction(r, max - min); min + r * (max - min)
    else min + r * (max - min)
  }

  /** A larger draw never gives a smaller value: the map is monotone in the draw. */
  lemma GenRandDoubleMonotone(min: real, max: real, r1: real, r2: real)
    requires min <= max && r1 <= r2
    ensures GenRandDouble(min, max, r1) <= GenRandDouble(min, max, r2)
  {
    assert (r2 - r1) * (max - min) >= 0.0 by {
      ScaledNonNegative(r2 - r1, max - min);
    }
    assert r2 * (max - min) - r1 * (max - min) == (r2 - r1) * (max - min);
  }

  lemma ScaledNonNegative(a: real, b: real)
    requires 0.0 <= a && 0.0 <= b
    ensures 0.0 <= a * b
  {
  }
}
