/**
 * Constants, clamping, angle conversion and the mapping of `rand()` draws
 * to random doubles and ints.
 *
 * `rand()`'s global generator is not modelled: each draw is a value of
 * type `RandDraw` handed in by the caller.
 */
module Util {
  import opened Numerics

  /** `pi`, as the literal the program uses. */
  const Pi: real := 3.1415926535897932385

  /** `RAND_MAX` of the GNU C library. */
  const RandMax: int := 2147483647

  /** A value `rand()` can return. */
  type RandDraw = r: int | 0 <= r <= RandMax

  /**
   * An upper bound that may be the double `infinity`: the model has no
   * infinite reals, so the bound is either finite or `PosInfinity`.
   */
  datatype Extended = Finite(value: real) | PosInfinity

  /** `x < bound`, where every real is below `infinity`. */
  predicate Below(x: real, bound: Extended)
  {
    bound.PosInfinity? || x < bound.value
  }

  /** `degrees_to_radians`. */
  function DegreesToRadians(degrees: real): (radians: real)
    ensures degrees == 180.0 ==> radians == Pi
    ensures degrees == 0.0 ==> radians == 0.0
    ensures (0.0 < degrees <==> 0.0 < radians) && (degrees < 0.0 <==> radians < 0.0)
    ensures radians * 180.0 == degrees * Pi
  {
    degrees * Pi / 180.0
  }

  /** `clamp(x, min, max)`: the lower bound is tested first. */
  function Clamp(x: real, lo: real, hi: real): (r: real)
    ensures x < lo ==> r == lo
    ensures lo <= x && hi < x ==> r == hi
    ensures lo <= x <= hi ==> r == x
    ensures lo <= hi ==> lo <= r <= hi
  {
    if x < lo then lo
    else if x > hi then hi
    else x
  }

  /** Clamping twice to the same non-empty range is clamping once. */
  lemma ClampIdempotent(x: real, lo: real, hi: real)
    requires lo <= hi
    ensures Clamp(Clamp(x, lo, hi), lo, hi) == Clamp(x, lo, hi)
  {}

  /** Clamping is monotone. */
  lemma ClampMonotone(x: real, y: real, lo: real, hi: real)
    requires lo <= hi && x <= y
    ensures Clamp(x, lo, hi) <= Clamp(y, lo, hi)
  {}

  /** `random_double()`: `rand() / (RAND_MAX + 1.0)`, always in [0, 1). */
  function RandomDouble(draw: RandDraw): (u: real)
    ensures 0.0 <= u < 1.0
  {
    draw as real / (RandMax as real + 1.0)
  }

  /**
   * `random_double(min, max)`: `min + (max - min) * random_double()`, where
   * `u` is the value `random_double()` returned.
   */
  function RandomRange(lo: real, hi: real, u: real): (v: real)
    ensures 0.0 <= u < 1.0 && lo < hi ==> lo <= v < hi
    ensures 0.0 <= u < 1.0 && hi < lo ==> hi < v <= lo
    ensures lo == hi ==> v == lo
  {
    LerpBounds(lo, hi - lo, u);
    Lerp(lo, hi - lo, u)
  }

  /** `lo + w * u`. */
  function Lerp(lo: real, w: real, u: real): real
  {
    lo + w * u
  }

  /** For `u` in [0, 1), `lo + w * u` lies between `lo` and `lo + w`, reaching only `lo`. */
  lemma LerpBounds(lo: real, w: real, u: real)
    ensures 0.0 <= u < 1.0 && 0.0 < w ==> lo <= Lerp(lo, w, u) < lo + w
    ensures 0.0 <= u < 1.0 && w < 0.0 ==> lo + w < Lerp(lo, w, u) <= lo
    ensures w == 0.0 ==> Lerp(lo, w, u) == lo
  {
    if !(0.0 <= u < 1.0) {
    } else if 0.0 < w {
      MulLe(0.0, u, w);
      MulLt(u, 1.0, w);
      assert u * w == w * u;
    } else if w < 0.0 {
      var v := -w;
      MulLe(0.0, u, v);
      MulLt(u, 1.0, v);
      assert u * v == -(w * u);
    }
  }

  /**
   * `random_int(min, max)`: the integer part of `random_double(min, max + 1)`.
   * Called with `0 <= min <= max` it stays within [min, max]. Below zero the
   * cast truncates toward zero, so a negative range can yield `max + 1`
   * (see `RandomIntNegativeRange`).
   */
  function RandomInt(lo: int, hi: int, draw: RandDraw): (n: int)
    ensures 0 <= lo <= hi ==> lo <= n <= hi
  {
    TruncToInt(RandomRange(lo as real, (hi + 1) as real, RandomDouble(draw)))
  }

  /** `random_int(-3, -2)` with the draw giving 0.75 passes through -1.5 and returns -1. */
  lemma RandomIntNegativeRange()
    ensures RandomInt(-3, -2, 1610612736) == -1
  {
    assert RandomDouble(1610612736) == 0.75;
    assert RandomRange(-3.0, -1.0, 0.75) == -1.5;
    assert TruncToInt(-1.5) == -1 by {
      assert (1.5).Floor == 1;
    }
  }
}
