/**
 * The three-component vector used as point, direction and colour, its
 * arithmetic, products, normalisation, reflection and refraction, the
 * in-place compound assignments, and the rejection samplers for random
 * points in the unit disk and the unit ball.
 */
module Vectors {
  import opened Numerics
  import opened Util
  import opened Optional

  /** `vec3` as a value: `e[0]`, `e[1]`, `e[2]` are `x`, `y`, `z`. */
  datatype Vec3 = Vec3(x: real, y: real, z: real)

  /** `vec3()`: the default-constructed vector. */
  const Zero: Vec3 := Vec3(0.0, 0.0, 0.0)

  /** The threshold `near_zero` compares each component against. */
  const NearZeroEpsilon: real := 0.00000001

  /** Unary `operator-`. */
  function Neg(v: Vec3): (r: Vec3)
    ensures Add(v, r) == Zero
  {
    Vec3(-v.x, -v.y, -v.z)
  }

  /** `u + v`. */
  function Add(u: Vec3, v: Vec3): Vec3
  {
    Vec3(u.x + v.x, u.y + v.y, u.z + v.z)
  }

  /** `u - v`. */
  function Sub(u: Vec3, v: Vec3): (r: Vec3)
    ensures Add(r, v) == u
  {
    Vec3(u.x - v.x, u.y - v.y, u.z - v.z)
  }

  /** `u * v`: the component-wise product (used for colours). */
  function Mul(u: Vec3, v: Vec3): Vec3
  {
    Vec3(u.x * v.x, u.y * v.y, u.z * v.z)
  }

  /** `t * v` and `v * t`. */
  function Scale(t: real, v: Vec3): Vec3
  {
    Vec3(t * v.x, t * v.y, t * v.z)
  }

  /** `v / t`, computed as `(1/t) * v`. */
  function Div(v: Vec3, t: real): (r: Vec3)
    requires t != 0.0
    ensures Scale(t, r) == v
  {
    Scale(1.0 / t, v)
  }

  /** `dot(u, v)`. */
  function Dot(u: Vec3, v: Vec3): real
  {
    u.x * v.x + u.y * v.y + u.z * v.z
  }

  /** `cross(u, v)`: orthogonal to both arguments. */
  function Cross(u: Vec3, v: Vec3): (w: Vec3)
    ensures Dot(w, u) == 0.0 && Dot(w, v) == 0.0
  {
    Vec3(u.y * v.z - u.z * v.y,
         u.z * v.x - u.x * v.z,
         u.x * v.y - u.y * v.x)
  }

  /** `length_squared()`. */
  function LengthSquared(v: Vec3): real
  {
    v.x * v.x + v.y * v.y + v.z * v.z
  }

  /**
   * `length_squared()` is `dot(v, v)`, is never negative, and is zero only
   * for the zero vector.
   */
  lemma LengthSquaredFacts(v: Vec3)
    ensures 0.0 <= LengthSquared(v)
    ensures LengthSquared(v) == 0.0 <==> v == Zero
    ensures LengthSquared(v) == Dot(v, v)
  {
    SquareNonNeg(v.x);
    SquareNonNeg(v.y);
    SquareNonNeg(v.z);
    SquareZero(v.x);
    SquareZero(v.y);
    SquareZero(v.z);
  }

  /** `length()`: `sqrt(length_squared())`. */
  function Length(v: Vec3, sqrt: real -> real): (r: real)
    ensures IsSqrt(sqrt) ==> 0.0 <= r && r * r == LengthSquared(v)
  {
    LengthSquaredFacts(v);
    sqrt(LengthSquared(v))
  }

  /** `near_zero()`: every component is within 1e-8 of zero. */
  function NearZero(v: Vec3): (b: bool)
    ensures b <==> (-NearZeroEpsilon < v.x < NearZeroEpsilon &&
                    -NearZeroEpsilon < v.y < NearZeroEpsilon &&
                    -NearZeroEpsilon < v.z < NearZeroEpsilon)
    ensures b ==> LengthSquared(v) < 0.0000000000000003
  {
    var s := NearZeroEpsilon;
    var b := Abs(v.x) < s && Abs(v.y) < s && Abs(v.z) < s;
    if b then
      SquareBelow(v.x, s);
      SquareBelow(v.y, s);
      SquareBelow(v.z, s);
      b
    else
      b
  }

  /**
   * `unit_vector(v)`: `v / v.length()`. For a vector of length zero the
   * double division yields NaN components; the model returns `v` itself.
   */
  function UnitVector(v: Vec3, sqrt: real -> real): Vec3
  {
    var len := Length(v, sqrt);
    if len == 0.0 then v else Div(v, len)
  }

  /** `reflect(v, n)`: `v - 2 * dot(v, n) * n`. */
  function Reflect(v: Vec3, n: Vec3): (r: Vec3)
    ensures LengthSquared(n) == 1.0 ==> Dot(r, n) == -Dot(v, n)
    ensures LengthSquared(n) == 1.0 ==> LengthSquared(r) == LengthSquared(v)
  {
    var k := 2.0 * Dot(v, n);
    ReflectFacts(v, n, k);
    Sub(v, Scale(k, n))
  }

  /** `refract(uv, n, etai_over_etat)`. */
  function Refract(uv: Vec3, n: Vec3, etaiOverEtat: real, sqrt: real -> real): Vec3
  {
    var perp := RefractPerp(uv, n, etaiOverEtat);
    Add(perp, RefractParallel(perp, n, sqrt))
  }

  /** `ray_out_perp`: `etai_over_etat * (uv + cos_theta * n)`, the cosine capped at 1. */
  function RefractPerp(uv: Vec3, n: Vec3, etaiOverEtat: real): Vec3
  {
    var cosTheta := FMin(Dot(Neg(uv), n), 1.0);
    Scale(etaiOverEtat, Add(uv, Scale(cosTheta, n)))
  }

  /** `ray_out_parallel`: `-sqrt(|1 - |perp|^2|) * n`. */
  function RefractParallel(perp: Vec3, n: Vec3, sqrt: real -> real): Vec3
  {
    Scale(-sqrt(Abs(1.0 - LengthSquared(perp))), n)
  }

  /** With no perpendicular part, the parallel part is `-n` (given `sqrt(1) == 1`). */
  lemma RefractParallelOfZero(n: Vec3, sqrt: real -> real)
    requires sqrt(1.0) == 1.0
    ensures RefractParallel(Zero, n, sqrt) == Neg(n)
  {
    var k := 1.0 - LengthSquared(Zero);
    assert k == 1.0;
    assert Abs(k) == 1.0;
    assert -sqrt(Abs(k)) == -1.0;
  }

  /** `dot` is symmetric. */
  lemma DotCommutes(u: Vec3, v: Vec3)
    ensures Dot(u, v) == Dot(v, u)
  {}

  /** For a non-zero vector, `unit_vector` has length 1. */
  lemma UnitVectorIsUnit(v: Vec3, sqrt: real -> real)
    requires IsSqrt(sqrt) && v != Zero
    ensures LengthSquared(UnitVector(v, sqrt)) == 1.0
  {
    var len := Length(v, sqrt);
    LengthSquaredFacts(v);
    assert len * len == LengthSquared(v) && 0.0 < LengthSquared(v);
    assert len != 0.0;
    var t := 1.0 / len;
    LengthSquaredScale(t, v);
    assert t * len == 1.0;
    calc {
      LengthSquared(Scale(t, v));
    ==
      (t * t) * LengthSquared(v);
    ==
      (t * t) * (len * len);
    == { assert (t * t) * (len * len) == (t * len) * (t * len); }
      (t * len) * (t * len);
    ==
      1.0;
    }
  }

  /** Every component of `unit_vector(v)` lies in [-1, 1]. */
  lemma UnitVectorComponentBounds(v: Vec3, sqrt: real -> real)
    requires IsSqrt(sqrt)
    ensures var u := UnitVector(v, sqrt);
      -1.0 <= u.x <= 1.0 && -1.0 <= u.y <= 1.0 && -1.0 <= u.z <= 1.0
  {
    var len := Length(v, sqrt);
    if len == 0.0 {
      assert LengthSquared(v) == 0.0;
    } else {
      assert 0.0 < len;
      SquareNonNeg(v.x);
      SquareNonNeg(v.y);
      SquareNonNeg(v.z);
      assert v.x * v.x <= LengthSquared(v) && v.y * v.y <= LengthSquared(v) && v.z * v.z <= LengthSquared(v);
      ComponentOverLength(v.x, len);
      ComponentOverLength(v.y, len);
      ComponentOverLength(v.z, len);
    }
  }

  /** `a / len` lies in [-1, 1] when `a^2 <= len^2`. */
  lemma ComponentOverLength(a: real, len: real)
    requires 0.0 < len && a * a <= len * len
    ensures -1.0 <= 1.0 / len * a <= 1.0
  {
    assert Abs(a) * Abs(a) == a * a;
    SquareLeRoot(Abs(a), len);
    var t := 1.0 / len;
    MulLe(Abs(a), len, t);
    assert len * t == 1.0;
    assert t * a == a * t;
    NonNegProduct(Abs(a), t);
  }

  /** Squaring is order-reflecting on non-negative reals. */
  lemma SquareLeRoot(a: real, b: real)
    requires 0.0 <= a && 0.0 <= b && a * a <= b * b
    ensures a <= b
  {
    if b < a {
      SquareLt(b, a);
    }
  }

  /**
   * The refracted direction never leaves on the normal's side: its
   * perpendicular part is tangent to the surface and its parallel part is
   * a non-positive multiple of the normal (for a unit normal and a cosine
   * that `fmin` does not clip).
   */
  lemma RefractGoesThrough(uv: Vec3, n: Vec3, eta: real, sqrt: real -> real)
    requires IsSqrt(sqrt) && LengthSquared(n) == 1.0 && Dot(Neg(uv), n) <= 1.0
    ensures Dot(Refract(uv, n, eta, sqrt), n) <= 0.0
  {
    var perp := RefractPerp(uv, n, eta);
    PerpIsTangent(uv, n, eta);
    var s := sqrt(Abs(1.0 - LengthSquared(perp)));
    assert 0.0 <= s;
    ParallelAlongNormal(perp, n, sqrt);
    DotAdd(perp, RefractParallel(perp, n, sqrt), n);
  }

  /** `ray_out_perp` is orthogonal to a unit normal when `fmin` does not clip. */
  lemma PerpIsTangent(uv: Vec3, n: Vec3, eta: real)
    requires LengthSquared(n) == 1.0 && Dot(Neg(uv), n) <= 1.0
    ensures Dot(RefractPerp(uv, n, eta), n) == 0.0
  {
    var c := FMin(Dot(Neg(uv), n), 1.0);
    DotNegLeft(uv, n);
    assert c == -Dot(uv, n);
    var inner := Add(uv, Scale(c, n));
    DotAdd(uv, Scale(c, n), n);
    DotScaleUnit(c, n);
    assert Dot(inner, n) == 0.0;
    DotScale(eta, inner, n);
    MulByZero(eta, Dot(inner, n));
  }

  /** `ray_out_parallel` has normal component `-sqrt(...)`. */
  lemma ParallelAlongNormal(perp: Vec3, n: Vec3, sqrt: real -> real)
    requires LengthSquared(n) == 1.0
    ensures Dot(RefractParallel(perp, n, sqrt), n) == -sqrt(Abs(1.0 - LengthSquared(perp)))
  {
    DotScaleUnit(-sqrt(Abs(1.0 - LengthSquared(perp))), n);
  }

  /**
   * With `etai_over_etat == 1` (no change of medium), a unit direction
   * that meets a unit normal head-on or obliquely from the front passes
   * through unbent.
   */
  lemma RefractUnitRatioIsIdentity(uv: Vec3, n: Vec3, sqrt: real -> real)
    requires IsSqrt(sqrt) && LengthSquared(n) == 1.0 && LengthSquared(uv) == 1.0
    requires 0.0 <= Dot(Neg(uv), n)
    ensures Refract(uv, n, 1.0, sqrt) == uv
  {
    var c := FMin(Dot(Neg(uv), n), 1.0);
    var d := Dot(uv, n);
    CauchySchwarzUnit(uv, n);
    assert c == -d;
    var perp := Scale(1.0, Add(uv, Scale(c, n)));
    assert perp == Add(uv, Scale(c, n));
    LengthSquaredAddScale(uv, n, c);
    assert LengthSquared(perp) == 1.0 + 2.0 * c * d + (c * c);
    assert 2.0 * c * d == -2.0 * (c * c);
    assert 1.0 - LengthSquared(perp) == c * c;
    SquareNonNeg(c);
    SqrtOfSquare(sqrt, c);
    var parallel := Scale(-sqrt(Abs(1.0 - LengthSquared(perp))), n);
    assert parallel == Scale(-c, n);
    assert Add(perp, parallel) == uv;
  }

  /** For unit vectors, `dot(u, n)` lies in [-1, 1]. */
  lemma CauchySchwarzUnit(u: Vec3, n: Vec3)
    requires LengthSquared(u) == 1.0 && LengthSquared(n) == 1.0
    ensures -1.0 <= Dot(u, n) <= 1.0
  {
    LengthSquaredSubScale(u, n, 1.0);
    LengthSquaredSubScale(u, n, -1.0);
    assert LengthSquared(Sub(u, Scale(1.0, n))) == 2.0 - 2.0 * Dot(u, n);
    assert LengthSquared(Sub(u, Scale(-1.0, n))) == 2.0 + 2.0 * Dot(u, n);
  }

  // ---------------------------------------------------------------------
  // Random vectors. Each `rand()` draw is handed in; the components take
  // their draws in x, y, z order.

  /** `vec3::random()`: every component in [0, 1). */
  function RandomVector(dx: RandDraw, dy: RandDraw, dz: RandDraw): (v: Vec3)
    ensures 0.0 <= v.x < 1.0 && 0.0 <= v.y < 1.0 && 0.0 <= v.z < 1.0
  {
    Vec3(RandomDouble(dx), RandomDouble(dy), RandomDouble(dz))
  }

  /** `vec3::random(min, max)`: every component in [min, max) when min < max. */
  function RandomVectorIn(lo: real, hi: real, dx: RandDraw, dy: RandDraw, dz: RandDraw): (v: Vec3)
    ensures lo < hi ==> lo <= v.x < hi && lo <= v.y < hi && lo <= v.z < hi
    ensures lo == hi ==> v == Vec3(lo, lo, lo)
  {
    Vec3(RandomRange(lo, hi, RandomDouble(dx)),
         RandomRange(lo, hi, RandomDouble(dy)),
         RandomRange(lo, hi, RandomDouble(dz)))
  }

  /** One candidate point of `random_in_unit_disk`: x and y in [-1, 1), z zero. */
  function DiskCandidate(d: (RandDraw, RandDraw)): (p: Vec3)
    ensures -1.0 <= p.x < 1.0 && -1.0 <= p.y < 1.0 && p.z == 0.0
  {
    Vec3(RandomRange(-1.0, 1.0, RandomDouble(d.0)), RandomRange(-1.0, 1.0, RandomDouble(d.1)), 0.0)
  }

  /** One candidate point of `random_in_unit_sphere`: the cube [-1, 1)^3. */
  function SphereCandidate(d: (RandDraw, RandDraw, RandDraw)): (p: Vec3)
    ensures -1.0 <= p.x < 1.0 && -1.0 <= p.y < 1.0 && -1.0 <= p.z < 1.0
  {
    RandomVectorIn(-1.0, 1.0, d.0, d.1, d.2)
  }

  /**
   * `random_in_unit_disk`: draws candidates until one lies strictly inside
   * the unit disk. The source loops forever; here the candidates come from
   * a finite sequence, and `None` means every one of them was rejected.
   * `rejected` counts the candidates thrown away before the answer.
   */
  method RandomInUnitDisk(attempts: seq<(RandDraw, RandDraw)>) returns (p: Option<Vec3>, rejected: nat)
    ensures p.Some? ==> p.value.z == 0.0 && LengthSquared(p.value) < 1.0
    ensures p.Some? ==> rejected < |attempts| && p.value == DiskCandidate(attempts[rejected])
    ensures p.None? ==> rejected == |attempts|
    ensures forall j :: 0 <= j < rejected ==> 1.0 <= LengthSquared(DiskCandidate(attempts[j]))
  {
    rejected := 0;
    while rejected < |attempts|
      invariant 0 <= rejected <= |attempts|
      invariant forall j :: 0 <= j < rejected ==> 1.0 <= LengthSquared(DiskCandidate(attempts[j]))
    {
      var candidate := DiskCandidate(attempts[rejected]);
      if LengthSquared(candidate) < 1.0 {
        return Some(candidate), rejected;
      }
      rejected := rejected + 1;
    }
    return None, rejected;
  }

  /**
   * `random_in_unit_sphere`: the same rejection loop over the cube
   * [-1, 1)^3, written as in the source with a `continue` on rejection.
   */
  method RandomInUnitSphere(attempts: seq<(RandDraw, RandDraw, RandDraw)>) returns (p: Option<Vec3>, rejected: nat)
    ensures p.Some? ==> LengthSquared(p.value) < 1.0
    ensures p.Some? ==> rejected < |attempts| && p.value == SphereCandidate(attempts[rejected])
    ensures p.None? ==> rejected == |attempts|
    ensures forall j :: 0 <= j < rejected ==> 1.0 <= LengthSquared(SphereCandidate(attempts[j]))
  {
    rejected := 0;
    while rejected < |attempts|
      invariant 0 <= rejected <= |attempts|
      invariant forall j :: 0 <= j < rejected ==> 1.0 <= LengthSquared(SphereCandidate(attempts[j]))
    {
      var candidate := SphereCandidate(attempts[rejected]);
      if LengthSquared(candidate) >= 1.0 {
        rejected := rejected + 1;
        continue;
      }
      return Some(candidate), rejected;
    }
    return None, rejected;
  }

  /**
   * The sphere sampler can accept the origin itself (three draws of
   * 2^30 give 0.5 each), which `random_unit_vector` then divides by its
   * zero length.
   */
  lemma RandomInUnitSphereAcceptsOrigin()
    ensures SphereCandidate((1073741824, 1073741824, 1073741824)) == Zero
    ensures LengthSquared(SphereCandidate((1073741824, 1073741824, 1073741824))) < 1.0
  {
    assert RandomDouble(1073741824) == 0.5;
  }

  /** `random_unit_vector`: normalises the point the sphere sampler accepted. */
  function RandomUnitVector(inSphere: Vec3, sqrt: real -> real): Vec3
  {
    UnitVector(inSphere, sqrt)
  }

  /** Away from the origin, `random_unit_vector` lands on the unit sphere. */
  lemma RandomUnitVectorIsUnit(inSphere: Vec3, sqrt: real -> real)
    requires IsSqrt(sqrt) && inSphere != Zero
    ensures LengthSquared(RandomUnitVector(inSphere, sqrt)) == 1.0
  {
    UnitVectorIsUnit(inSphere, sqrt);
  }

  // ---------------------------------------------------------------------
  // A `vec3` object updated in place by `+=`, `*=` and `/=`.

  /** A `vec3` as the object the compound assignments update: its array `e[3]`. */
  class Vec3Cell {
    const e: array<real>

    ghost predicate Valid()
    {
      e.Length == 3
    }

    /** The vector the three array slots hold. */
    function Value(): Vec3
      reads this, e
      requires Valid()
    {
      Vec3(e[0], e[1], e[2])
    }

    constructor (v: Vec3)
      ensures Valid() && fresh(e) && Value() == v
    {
      e := new real[3][v.x, v.y, v.z];
    }

    /** `operator+=`: adds `v` component by component. */
    method AddAssign(v: Vec3)
      requires Valid()
      modifies e
      ensures Valid() && Value() == Add(old(Value()), v)
    {
      e[0] := e[0] + v.x;
      e[1] := e[1] + v.y;
      e[2] := e[2] + v.z;
    }

    /** `operator*=`: scales every component by `t`. */
    method MulAssign(t: real)
      requires Valid()
      modifies e
      ensures Valid() && Value() == Scale(t, old(Value()))
    {
      e[0] := e[0] * t;
      e[1] := e[1] * t;
      e[2] := e[2] * t;
    }

    /** `operator/=`: multiplies by `1/t`, which undoes a scaling by `t`. */
    method DivAssign(t: NonZero)
      requires Valid()
      modifies e
      ensures Valid() && Value() == Div(old(Value()), t)
      ensures Scale(t, Value()) == old(Value())
    {
      MulAssign(1.0 / t);
    }
  }

  // ---------------------------------------------------------------------
  // Arithmetic facts the contracts above rest on.

  lemma DotAdd(a: Vec3, b: Vec3, n: Vec3)
    ensures Dot(Add(a, b), n) == Dot(a, n) + Dot(b, n)
  {
    assert (a.x + b.x) * n.x == a.x * n.x + b.x * n.x;
    assert (a.y + b.y) * n.y == a.y * n.y + b.y * n.y;
    assert (a.z + b.z) * n.z == a.z * n.z + b.z * n.z;
  }

  lemma DotScale(t: real, a: Vec3, n: Vec3)
    ensures Dot(Scale(t, a), n) == t * Dot(a, n)
  {
    assert (t * a.x) * n.x == t * (a.x * n.x);
    assert (t * a.y) * n.y == t * (a.y * n.y);
    assert (t * a.z) * n.z == t * (a.z * n.z);
  }

  lemma DotNegLeft(u: Vec3, v: Vec3)
    ensures Dot(Neg(u), v) == -Dot(u, v)
  {
    assert -u.x * v.x == -(u.x * v.x);
    assert -u.y * v.y == -(u.y * v.y);
    assert -u.z * v.z == -(u.z * v.z);
  }

  /** `dot(t n, n) == t` for a unit `n`. */
  lemma DotScaleUnit(t: real, n: Vec3)
    requires LengthSquared(n) == 1.0
    ensures Dot(Scale(t, n), n) == t
  {
    DotScale(t, n, n);
    LengthSquaredFacts(n);
    MulByOne(t, Dot(n, n));
  }

  lemma MulByOne(a: real, b: real)
    requires b == 1.0
    ensures a * b == a
  {}

  lemma MulByZero(a: real, b: real)
    requires b == 0.0
    ensures a * b == 0.0
  {}

  lemma LengthSquaredScale(t: real, v: Vec3)
    ensures LengthSquared(Scale(t, v)) == (t * t) * LengthSquared(v)
  {
    assert (t * v.x) * (t * v.x) == (t * t) * (v.x * v.x);
    assert (t * v.y) * (t * v.y) == (t * t) * (v.y * v.y);
    assert (t * v.z) * (t * v.z) == (t * t) * (v.z * v.z);
  }

  /** `|v + k n|^2 == |v|^2 + 2 k dot(v, n) + k^2 |n|^2`. */
  lemma LengthSquaredAddScale(v: Vec3, n: Vec3, k: real)
    ensures LengthSquared(Add(v, Scale(k, n)))
         == LengthSquared(v) + 2.0 * k * Dot(v, n) + (k * k) * LengthSquared(n)
  {
    SquareOfSum(v.x, k, n.x);
    SquareOfSum(v.y, k, n.y);
    SquareOfSum(v.z, k, n.z);
    assert (k * k) * LengthSquared(n)
        == (k * k) * (n.x * n.x) + (k * k) * (n.y * n.y) + (k * k) * (n.z * n.z);
  }

  lemma SquareOfSum(a: real, k: real, b: real)
    ensures (a + k * b) * (a + k * b) == a * a + 2.0 * k * (a * b) + (k * k) * (b * b)
  {}

  lemma SquareNonNeg(a: real)
    ensures 0.0 <= a * a
  {
    if a < 0.0 {
      NonNegProduct(-a, -a);
    } else {
      NonNegProduct(a, a);
    }
  }

  lemma SquareBelow(a: real, s: real)
    requires Abs(a) < s
    ensures a * a < s * s
  {
    SquareLt(Abs(a), s);
    assert Abs(a) * Abs(a) == a * a;
  }

  lemma SquareZero(a: real)
    ensures a * a == 0.0 <==> a == 0.0
  {
    if a != 0.0 {
      SquareLt(0.0, Abs(a));
      assert Abs(a) * Abs(a) == a * a;
    }
  }

  /** `dot(v - k n, n) == dot(v, n) - k dot(n, n)`. */
  lemma DotSubScale(v: Vec3, n: Vec3, k: real)
    ensures Dot(Sub(v, Scale(k, n)), n) == Dot(v, n) - k * Dot(n, n)
  {
    assert (v.x - k * n.x) * n.x == v.x * n.x - k * (n.x * n.x);
    assert (v.y - k * n.y) * n.y == v.y * n.y - k * (n.y * n.y);
    assert (v.z - k * n.z) * n.z == v.z * n.z - k * (n.z * n.z);
  }

  /** `|v - k n|^2 == |v|^2 - 2 k dot(v, n) + k^2 |n|^2`. */
  lemma LengthSquaredSubScale(v: Vec3, n: Vec3, k: real)
    ensures LengthSquared(Sub(v, Scale(k, n)))
         == LengthSquared(v) - 2.0 * k * Dot(v, n) + (k * k) * LengthSquared(n)
  {
    SquareOfDifference(v.x, k, n.x);
    SquareOfDifference(v.y, k, n.y);
    SquareOfDifference(v.z, k, n.z);
    assert (k * k) * LengthSquared(n)
        == (k * k) * (n.x * n.x) + (k * k) * (n.y * n.y) + (k * k) * (n.z * n.z);
  }

  lemma SquareOfDifference(a: real, k: real, b: real)
    ensures (a - k * b) * (a - k * b) == a * a - 2.0 * k * (a * b) + (k * k) * (b * b)
  {}

  lemma ReflectFacts(v: Vec3, n: Vec3, k: real)
    requires k == 2.0 * Dot(v, n)
    ensures LengthSquared(n) == 1.0 ==> Dot(Sub(v, Scale(k, n)), n) == -Dot(v, n)
    ensures LengthSquared(n) == 1.0 ==> LengthSquared(Sub(v, Scale(k, n))) == LengthSquared(v)
  {
    DotSubScale(v, n, k);
    LengthSquaredSubScale(v, n, k);
    var d := Dot(v, n);
    if LengthSquared(n) == 1.0 {
      assert k * Dot(n, n) == k;
      assert (k * k) * LengthSquared(n) == k * k;
      assert 2.0 * k * d == k * k;
    }
  }
}
