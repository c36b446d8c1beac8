// C++ arithmetic that the curve editor relies on, stated over Dafny's
// unbounded `int` and exact `real`.

module Numerics {

  /** `sqrt` from the C math library is not available as Dafny code: every
      operation that needs it takes it as a parameter satisfying this. */
  ghost predicate IsSqrt(sqrt: real -> real)
  {
    forall v: real :: v >= 0.0 ==> sqrt(v) >= 0.0 && sqrt(v) * sqrt(v) == v
  }

  /** The square root of a positive value is positive. */
  lemma SqrtPositive(sqrt: real -> real, v: real)
    requires IsSqrt(sqrt) && v > 0.0
    ensures sqrt(v) > 0.0
  {
    assert sqrt(v) >= 0.0 && sqrt(v) * sqrt(v) == v;
  }

  /** A sum of two squares is a valid argument of `sqrt`, and `sqrt` of it
      squares back to it. */
  lemma SqrtOfSumOfSquares(sqrt: real -> real, u: real, v: real)
    requires IsSqrt(sqrt)
    ensures u * u + v * v >= 0.0
    ensures sqrt(u * u + v * v) >= 0.0
    ensures sqrt(u * u + v * v) * sqrt(u * u + v * v) == u * u + v * v
  {
    assert u * u >= 0.0 && v * v >= 0.0;
  }

  /** C++ `abs` on int. */
  function Abs(n: int): (r: nat)
    ensures r == n || r == -n
  {
    if n < 0 then -n else n
  }

  /** C++ `fabs` on double. */
  function AbsR(v: real): (r: real)
    ensures r >= 0.0 && (r == v || r == -v)
  {
    if v < 0.0 then -v else v
  }

  function MinR(a: real, b: real): (r: real)
    ensures r <= a && r <= b && (r == a || r == b)
  {
    if a <= b then a else b
  }

  function MaxR(a: real, b: real): (r: real)
    ensures r >= a && r >= b && (r == a || r == b)
  {
    if a >= b then a else b
  }

  /** Conversion of a double to int in C++: the fraction is dropped, rounding
      toward zero. */
  function Trunc(v: real): (r: int)
    ensures v >= 0.0 ==> r >= 0 && r as real <= v < r as real + 1.0
    ensures v < 0.0 ==> r <= 0 && r as real - 1.0 < v <= r as real
  {
    if v >= 0.0 then v.Floor else -((-v).Floor)
  }

  /** `n / 2` on C++ ints: the quotient is truncated toward zero (Dafny's
      `/` is Euclidean, which differs for negative odd `n`). */
  function HalfTrunc(n: int): (q: int)
    ensures n >= 0 ==> q >= 0 && 2 * q <= n <= 2 * q + 1
    ensures n < 0 ==> q <= 0 && 2 * q - 1 <= n <= 2 * q
  {
    if n >= 0 then n / 2 else -((-n) / 2)
  }

  lemma TruncOfInt(n: int)
    ensures Trunc(n as real) == n
  {
  }

  /** Truncation never decreases when its argument grows. */
  lemma TruncMonotone(u: real, v: real)
    requires u <= v
    ensures Trunc(u) <= Trunc(v)
  {
  }
}
