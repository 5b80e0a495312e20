/**
 * The three materials and how each scatters an incoming ray at a hit.
 *
 * `scatter` fills two out-parameters and returns a success flag; here each
 * material has a method with those three results, specified by a function
 * the recursive integrator can call.
 */
module Materials {
  import opened Numerics
  import opened Util
  import opened Vectors
  import opened Rays
  import opened Hittable

  /**
   * `lambertian(albedo)`, `metal(albedo, fuzz)` and `dielectric(ir)`.
   * The index of refraction is positive, so that `1/ir` and
   * `1 + refraction_ratio` are never zero. `Metal` itself takes any fuzz;
   * the program sets it only through `metal(a, f)`, and the metals that
   * `NewMetal` builds have fuzz at most 1.
   */
  datatype Material =
    | Lambertian(albedo: Vec3)
    | Metal(albedo: Vec3, fuzz: real)
    | Dielectric(ir: Positive)

  /** What `scatter` hands back: the flag and the two out-parameters. */
  datatype Scattered = Scattered(ok: bool, attenuation: Vec3, ray: Ray)

  /**
   * The random input one `scatter` call consumes: the point
   * `random_in_unit_sphere` accepted (for `random_unit_vector`) and one
   * `rand()` draw (for `random_double`).
   */
  datatype Bounce = Bounce(inSphere: Vec3, draw: RandDraw)

  /** Every component lies in [0, 1]. */
  predicate UnitColor(c: Vec3)
  {
    0.0 <= c.x <= 1.0 && 0.0 <= c.y <= 1.0 && 0.0 <= c.z <= 1.0
  }

  /** The metal constructor caps the fuzz at 1 and leaves smaller values alone. */
  function NewMetal(albedo: Vec3, f: real): (m: Material)
    ensures m.Metal? && m.albedo == albedo
    ensures m.fuzz <= 1.0 && m.fuzz == FMin(f, 1.0)
    ensures f < 1.0 ==> m.fuzz == f
  {
    Metal(albedo, if f < 1.0 then f else 1.0)
  }

  // ---------------------------------------------------------------------
  // Lambertian

  /**
   * `lambertian::scatter`: always scatters, from the hit point, along the
   * normal plus a random unit vector, falling back to the normal when that
   * sum is nearly zero.
   */
  function LambertianScattered(albedo: Vec3, rec: HitInfo<Material>, b: Bounce, sqrt: real -> real): (s: Scattered)
    ensures s.ok && s.attenuation == albedo && s.ray.origin == rec.p
    ensures !NearZero(rec.normal) ==> !NearZero(s.ray.direction)
    ensures NearZero(Add(rec.normal, RandomUnitVector(b.inSphere, sqrt))) ==> s.ray.direction == rec.normal
    ensures !NearZero(Add(rec.normal, RandomUnitVector(b.inSphere, sqrt))) ==>
      s.ray.direction == Add(rec.normal, RandomUnitVector(b.inSphere, sqrt))
  {
    var direction := Add(rec.normal, RandomUnitVector(b.inSphere, sqrt));
    Scattered(true, albedo, Ray(rec.p, if NearZero(direction) then rec.normal else direction))
  }

  /** `lambertian::scatter`, reassigning the direction as the source does. */
  method LambertianScatter(albedo: Vec3, rec: HitInfo<Material>, b: Bounce, sqrt: real -> real)
    returns (ok: bool, attenuation: Vec3, scattered: Ray)
    ensures Scattered(ok, attenuation, scattered) == LambertianScattered(albedo, rec, b, sqrt)
  {
    var scatterDirection := Add(rec.normal, RandomUnitVector(b.inSphere, sqrt));
    if NearZero(scatterDirection) {
      scatterDirection := rec.normal;
    }
    scattered := Ray(rec.p, scatterDirection);
    attenuation := albedo;
    ok := true;
  }

  // ---------------------------------------------------------------------
  // Metal

  /**
   * `metal::scatter`: reflects the unit incoming direction about the
   * normal, perturbs it by `fuzz` times a random unit vector, and succeeds
   * exactly when the result leaves on the normal's side.
   */
  function MetalScattered(albedo: Vec3, fuzz: real, rIn: Ray, rec: HitInfo<Material>, b: Bounce, sqrt: real -> real): (s: Scattered)
    ensures s.attenuation == albedo && s.ray.origin == rec.p
    ensures s.ok <==> Dot(s.ray.direction, rec.normal) > 0.0
    ensures fuzz == 0.0 ==> s.ray.direction == Reflect(UnitVector(rIn.direction, sqrt), rec.normal)
    ensures s.ray.direction == Add(Reflect(UnitVector(rIn.direction, sqrt), rec.normal), Scale(fuzz, RandomUnitVector(b.inSphere, sqrt)))
  {
    var reflected := Reflect(UnitVector(rIn.direction, sqrt), rec.normal);
    var direction := Add(reflected, Scale(fuzz, RandomUnitVector(b.inSphere, sqrt)));
    assert fuzz == 0.0 ==> direction == reflected;
    Scattered(Dot(direction, rec.normal) > 0.0, albedo, Ray(rec.p, direction))
  }

  /** `metal::scatter`. */
  method MetalScatter(albedo: Vec3, fuzz: real, rIn: Ray, rec: HitInfo<Material>, b: Bounce, sqrt: real -> real)
    returns (ok: bool, attenuation: Vec3, scattered: Ray)
    ensures Scattered(ok, attenuation, scattered) == MetalScattered(albedo, fuzz, rIn, rec, b, sqrt)
  {
    var reflected := Reflect(UnitVector(rIn.direction, sqrt), rec.normal);
    scattered := Ray(rec.p, Add(reflected, Scale(fuzz, RandomUnitVector(b.inSphere, sqrt))));
    attenuation := albedo;
    ok := Dot(scattered.direction, rec.normal) > 0.0;
  }

  /**
   * A perfect mirror (fuzz 0) with a unit normal scatters exactly when the
   * incoming ray runs against the normal.
   */
  lemma MirrorScattersIffIncoming(albedo: Vec3, rIn: Ray, rec: HitInfo<Material>, b: Bounce, sqrt: real -> real)
    requires LengthSquared(rec.normal) == 1.0
    ensures MetalScattered(albedo, 0.0, rIn, rec, b, sqrt).ok <==> Dot(UnitVector(rIn.direction, sqrt), rec.normal) < 0.0
  {
    var u := UnitVector(rIn.direction, sqrt);
    assert Dot(Reflect(u, rec.normal), rec.normal) == -Dot(u, rec.normal);
  }

  // ---------------------------------------------------------------------
  // Dielectric

  /** `x^5`, the exponent `std::pow` is called with. */
  function Pow5(x: real): (p: real)
    ensures 0.0 <= x <= 1.0 ==> 0.0 <= p <= 1.0
    ensures x == 0.0 ==> p == 0.0
  {
    if 0.0 <= x <= 1.0 then
      Pow5Bounds(x);
      x * x * x * x * x
    else
      x * x * x * x * x
  }

  lemma Pow5Bounds(x: real)
    requires 0.0 <= x <= 1.0
    ensures 0.0 <= x * x * x * x * x <= 1.0
  {
    UnitProduct(x, x);
    UnitProduct(x * x, x);
    UnitProduct(x * x * x, x);
    UnitProduct(x * x * x * x, x);
  }

  lemma UnitProduct(a: real, b: real)
    requires 0.0 <= a <= 1.0 && 0.0 <= b <= 1.0
    ensures 0.0 <= a * b <= 1.0
  {
    calc {
      a * b;
    <= { MulLe(a, 1.0, b); }
      1.0 * b;
    ==
      b;
    <=
      1.0;
    }
    NonNegProduct(a, b);
  }

  /** `r0 = ((1 - ref_idx) / (1 + ref_idx))^2`. */
  function R0(refIdx: real): real
    requires refIdx != -1.0
  {
    var q := (1.0 - refIdx) / (1.0 + refIdx);
    q * q
  }

  /**
   * `reflectance` as the code computes it: `r0 * (1 - r0) * (1 - cosine)^5`.
   * This is not Schlick's `r0 + (1 - r0) * (1 - cosine)^5`; in particular
   * it is zero at normal incidence and at most 1/4 everywhere.
   */
  function Reflectance(cosine: real, refIdx: real): real
    requires refIdx != -1.0
  {
    var r0 := R0(refIdx);
    r0 * (1.0 - r0) * Pow5(1.0 - cosine)
  }

  /** For a positive index and a cosine in [0, 1], `reflectance` lies in [0, 1/4]. */
  lemma ReflectanceBounds(cosine: real, refIdx: real)
    requires 0.0 <= cosine <= 1.0 && 0.0 < refIdx
    ensures 0.0 <= Reflectance(cosine, refIdx) <= 0.25
  {
    var q := (1.0 - refIdx) / (1.0 + refIdx);
    var r0 := R0(refIdx);
    assert r0 == q * q;
    assert -1.0 < q < 1.0 by {
      assert q * (1.0 + refIdx) == 1.0 - refIdx;
    }
    SquareLt(Abs(q), 1.0);
    assert Abs(q) * Abs(q) == r0;
    assert 0.0 <= r0 < 1.0;
    var g := r0 * (1.0 - r0);
    assert g == 0.25 - (r0 - 0.5) * (r0 - 0.5);
    SquareNonNeg(r0 - 0.5);
    NonNegProduct(r0, 1.0 - r0);
    assert 0.0 <= g <= 0.25;
    var p := Pow5(1.0 - cosine);
    assert 0.0 <= p <= 1.0;
    NonNegProduct(g, p);
    MulLe(p, 1.0, g);
    assert g * p == p * g;
    assert Reflectance(cosine, refIdx) == g * p;
  }

  /** At normal incidence the formula as written gives no reflection at all. */
  lemma ReflectanceAtNormalIncidence(refIdx: real)
    requires refIdx != -1.0
    ensures Reflectance(1.0, refIdx) == 0.0
  {
    assert Pow5(0.0) == 0.0;
  }

  /** `refraction_ratio`: `1/ir` entering the front face, `ir` leaving. */
  function RefractionRatio(frontFace: bool, ir: Positive): (ratio: Positive)
    ensures frontFace ==> ratio * ir == 1.0
    ensures !frontFace ==> ratio == ir
  {
    if frontFace then 1.0 / ir else ir
  }

  /** `cos_theta`: the cosine between the reversed unit direction and the normal, capped at 1. */
  function CosTheta(unit: Vec3, n: Vec3): (c: real)
    ensures c <= 1.0
  {
    FMin(Dot(Neg(unit), n), 1.0)
  }

  /** `sin_theta`: `sqrt(1 - cos_theta^2)`. */
  function SinTheta(cosTheta: real, sqrt: real -> real): real
  {
    sqrt(1.0 - cosTheta * cosTheta)
  }

  /** `cannot_refract`: Snell's law would need a sine above 1. */
  predicate CannotRefract(ratio: real, sinTheta: real)
  {
    ratio * sinTheta > 1.0
  }

  /**
   * The direction `dielectric::scatter` picks for the unit incoming
   * direction `unit`, the ratio `ratio` and the random double `u`: the
   * reflection when the ray cannot refract or the reflectance exceeds
   * `u`, and the refraction otherwise.
   */
  function DielectricDirection(ratio: Positive, unit: Vec3, n: Vec3, u: real, sqrt: real -> real): (d: Vec3)
    ensures d == Reflect(unit, n) || d == Refract(unit, n, ratio, sqrt)
    ensures CannotRefract(ratio, SinTheta(CosTheta(unit, n), sqrt)) ==> d == Reflect(unit, n)
    ensures d == Refract(unit, n, ratio, sqrt) && d != Reflect(unit, n)
      ==> Reflectance(CosTheta(unit, n), ratio) <= u
    ensures Reflectance(CosTheta(unit, n), ratio) > u ==> d == Reflect(unit, n)
    ensures !CannotRefract(ratio, SinTheta(CosTheta(unit, n), sqrt)) && Reflectance(CosTheta(unit, n), ratio) <= u
      ==> d == Refract(unit, n, ratio, sqrt)
  {
    var cosTheta := CosTheta(unit, n);
    if CannotRefract(ratio, SinTheta(cosTheta, sqrt)) || Reflectance(cosTheta, ratio) > u then Reflect(unit, n)
    else Refract(unit, n, ratio, sqrt)
  }

  /**
   * `dielectric::scatter`: always succeeds with white attenuation from the
   * hit point, in the direction above.
   */
  function DielectricScattered(ir: Positive, rIn: Ray, rec: HitInfo<Material>, b: Bounce, sqrt: real -> real): (s: Scattered)
    ensures s.ok && s.attenuation == Vec3(1.0, 1.0, 1.0) && s.ray.origin == rec.p
    ensures s.ray.direction
      == DielectricDirection(RefractionRatio(rec.frontFace, ir), UnitVector(rIn.direction, sqrt), rec.normal, RandomDouble(b.draw), sqrt)
  {
    var direction := DielectricDirection(RefractionRatio(rec.frontFace, ir), UnitVector(rIn.direction, sqrt), rec.normal, RandomDouble(b.draw), sqrt);
    Scattered(true, Vec3(1.0, 1.0, 1.0), Ray(rec.p, direction))
  }

  /** `dielectric::scatter`, with its local `direction` assigned on either branch. */
  method DielectricScatter(ir: Positive, rIn: Ray, rec: HitInfo<Material>, b: Bounce, sqrt: real -> real)
    returns (ok: bool, attenuation: Vec3, scattered: Ray)
    ensures Scattered(ok, attenuation, scattered) == DielectricScattered(ir, rIn, rec, b, sqrt)
  {
    attenuation := Vec3(1.0, 1.0, 1.0);
    var refractionRatio := RefractionRatio(rec.frontFace, ir);
    var unitDirection := UnitVector(rIn.direction, sqrt);
    var cosTheta := CosTheta(unitDirection, rec.normal);
    var sinTheta := SinTheta(cosTheta, sqrt);
    var cannotRefract := CannotRefract(refractionRatio, sinTheta);
    var direction: Vec3;
    if cannotRefract || Reflectance(cosTheta, refractionRatio) > RandomDouble(b.draw) {
      direction := Reflect(unitDirection, rec.normal);
    } else {
      direction := Refract(unitDirection, rec.normal, refractionRatio, sqrt);
    }
    assert direction == DielectricDirection(refractionRatio, unitDirection, rec.normal, RandomDouble(b.draw), sqrt);
    scattered := Ray(rec.p, direction);
    ok := true;
  }

  /**
   * A ray meeting a dielectric head-on (its unit direction is the negated
   * unit normal) passes straight through, whatever the index and the draw.
   */
  lemma DielectricHeadOnPassesThrough(ir: Positive, rIn: Ray, rec: HitInfo<Material>, b: Bounce, sqrt: real -> real)
    requires IsSqrt(sqrt) && LengthSquared(rec.normal) == 1.0
    requires UnitVector(rIn.direction, sqrt) == Neg(rec.normal)
    ensures DielectricScattered(ir, rIn, rec, b, sqrt).ray.direction == UnitVector(rIn.direction, sqrt)
  {
    SqrtOneZero(sqrt);
    HeadOnDirection(RefractionRatio(rec.frontFace, ir), rec.normal, RandomDouble(b.draw), sqrt);
  }

  /** Along the negated unit normal, the dielectric direction is the incoming one. */
  lemma HeadOnDirection(ratio: Positive, n: Vec3, u: real, sqrt: real -> real)
    requires sqrt(1.0) == 1.0 && sqrt(0.0) == 0.0 && LengthSquared(n) == 1.0 && 0.0 <= u
    ensures DielectricDirection(ratio, Neg(n), n, u, sqrt) == Neg(n)
  {
    var unit := Neg(n);
    assert Neg(unit) == n;
    assert CosTheta(unit, n) == 1.0;
    assert SinTheta(1.0, sqrt) == 0.0;
    assert !CannotRefract(ratio, 0.0);
    ReflectanceAtNormalIncidence(ratio);
    HeadOnRefraction(n, ratio, sqrt);
  }

  /** Refracting the negated unit normal leaves it unchanged. */
  lemma HeadOnRefraction(n: Vec3, ratio: real, sqrt: real -> real)
    requires sqrt(1.0) == 1.0 && LengthSquared(n) == 1.0
    ensures Refract(Neg(n), n, ratio, sqrt) == Neg(n)
  {
    assert Neg(Neg(n)) == n;
    assert FMin(Dot(n, n), 1.0) == 1.0;
    assert Add(Neg(n), Scale(1.0, n)) == Zero;
    assert RefractPerp(Neg(n), n, ratio) == Zero;
    RefractParallelOfZero(n, sqrt);
  }

  // ---------------------------------------------------------------------
  // Dispatch

  /** `rec.m_material_ptr->scatter(...)`: the virtual call, by cases. */
  function Scatter(m: Material, rIn: Ray, rec: HitInfo<Material>, b: Bounce, sqrt: real -> real): (s: Scattered)
    ensures s.ray.origin == rec.p
    ensures m.Lambertian? || m.Dielectric? ==> s.ok
    ensures m.Dielectric? ==> s.attenuation == Vec3(1.0, 1.0, 1.0)
    ensures !m.Dielectric? ==> s.attenuation == m.albedo
    ensures m.Lambertian? ==> s == LambertianScattered(m.albedo, rec, b, sqrt)
    ensures m.Metal? ==> s == MetalScattered(m.albedo, m.fuzz, rIn, rec, b, sqrt)
    ensures m.Dielectric? ==> s == DielectricScattered(m.ir, rIn, rec, b, sqrt)
  {
    match m
    case Lambertian(albedo) => LambertianScattered(albedo, rec, b, sqrt)
    case Metal(albedo, fuzz) => MetalScattered(albedo, fuzz, rIn, rec, b, sqrt)
    case Dielectric(ir) => DielectricScattered(ir, rIn, rec, b, sqrt)
  }

  /** Albedos are in [0, 1] (a dielectric always attenuates by white). */
  predicate PhysicalMaterial(m: Material)
  {
    !m.Dielectric? ==> UnitColor(m.albedo)
  }

  /** A physical material never amplifies light. */
  lemma ScatterAttenuationIsUnit(m: Material, rIn: Ray, rec: HitInfo<Material>, b: Bounce, sqrt: real -> real)
    requires PhysicalMaterial(m)
    ensures UnitColor(Scatter(m, rIn, rec, b, sqrt).attenuation)
  {}
}
