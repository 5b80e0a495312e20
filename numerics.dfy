/**
 * The facts about the C math library and about C's conversions that the
 * model relies on. Doubles are modelled as mathematical reals; `std::sqrt`
 * is passed around as a function parameter and constrained only by
 * `IsSqrt` where a proof needs it.
 */
module Numerics {

  /** Reals that are not zero: divisors the source uses unguarded. */
  type NonZero = x: real | x != 0.0 witness 1.0

  /** Strictly positive reals. */
  type Positive = x: real | x > 0.0 witness 1.0

  /** `std::fabs`. */
  function Abs(x: real): (r: real)
    ensures 0.0 <= r && (r == x || r == -x)
  {
    if x < 0.0 then -x else x
  }

  /** `std::fmin` on ordinary (non-NaN) operands. */
  function FMin(x: real, y: real): (r: real)
    ensures r <= x && r <= y && (r == x || r == y)
  {
    if x < y then x else y
  }

  /** `static_cast<int>` of a double: truncation toward zero. */
  function TruncToInt(x: real): (n: int)
    ensures 0.0 <= x ==> 0 <= n && n as real <= x < n as real + 1.0
    ensures x < 0.0 ==> n <= 0 && n as real - 1.0 < x <= n as real
  {
    if 0.0 <= x then x.Floor else -((-x).Floor)
  }

  /** What the model assumes of `std::sqrt` on non-negative arguments. */
  ghost predicate IsSqrt(sqrt: real -> real)
  {
    forall x :: 0.0 <= x ==> 0.0 <= sqrt(x) && sqrt(x) * sqrt(x) == x
  }

  lemma MulLe(a: real, b: real, c: real)
    requires 0.0 <= c && a <= b
    ensures a * c <= b * c
  {}

  lemma MulLt(a: real, b: real, c: real)
    requires 0.0 < c && a < b
    ensures a * c < b * c
  {}

  lemma NonNegProduct(a: real, b: real)
    requires 0.0 <= a && 0.0 <= b
    ensures 0.0 <= a * b
  {}

  /** Squaring is strictly monotone on the non-negative reals. */
  lemma SquareLt(a: real, b: real)
    requires 0.0 <= a < b
    ensures a * a < b * b
  {
    calc {
      a * a;
    <= { MulLe(a, b, a); }
      b * a;
    < { MulLt(a, b, b); }
      b * b;
    }
  }

  /** The square root of a square is the non-negative base. */
  lemma SqrtOfSquare(sqrt: real -> real, y: real)
    requires IsSqrt(sqrt) && 0.0 <= y
    ensures sqrt(y * y) == y
  {
    var s := sqrt(y * y);
    NonNegProduct(y, y);
    assert 0.0 <= s && s * s == y * y;
    if s < y {
      SquareLt(s, y);
    } else if y < s {
      SquareLt(y, s);
    }
  }

  /** `std::sqrt` is monotone on the non-negative reals. */
  lemma SqrtMonotone(sqrt: real -> real, x: real, y: real)
    requires IsSqrt(sqrt) && 0.0 <= x <= y
    ensures sqrt(x) <= sqrt(y)
  {
    var a, b := sqrt(x), sqrt(y);
    assert 0.0 <= a && a * a == x;
    assert 0.0 <= b && b * b == y;
    if b < a {
      SquareLt(b, a);
    }
  }

  /** The square root of 1 is 1; of 0 is 0. */
  lemma SqrtOneZero(sqrt: real -> real)
    requires IsSqrt(sqrt)
    ensures sqrt(1.0) == 1.0 && sqrt(0.0) == 0.0
  {
    SqrtOfSquare(sqrt, 1.0);
    SqrtOfSquare(sqrt, 0.0);
  }
}
