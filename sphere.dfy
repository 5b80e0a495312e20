/**
 * Ray-sphere intersection: the discriminant test, the choice of root and
 * the filling of the hit record.
 */
module Spheres {
  import opened Optional
  import opened Numerics
  import opened Vectors
  import opened Rays
  import opened Hittable

  /**
   * `sphere(center, radius, material)`. A negative radius is allowed and
   * turns the normals inward; a zero radius would divide the outward normal
   * by zero and is excluded by the type.
   */
  datatype Sphere<M> = Sphere(center: Vec3, radius: NonZero, material: M)

  /** `a`: the squared length of the ray direction. */
  function QuadA(r: Ray): real
  {
    LengthSquared(r.direction)
  }

  /** `half_b`: `dot(origin - center, direction)`. */
  function HalfB<M>(s: Sphere<M>, r: Ray): real
  {
    Dot(Sub(r.origin, s.center), r.direction)
  }

  /** `c`: `|origin - center|^2 - radius^2`. */
  function QuadC<M>(s: Sphere<M>, r: Ray): real
  {
    LengthSquared(Sub(r.origin, s.center)) - s.radius * s.radius
  }

  /** `half_b^2 - a*c`. */
  function Discriminant<M>(s: Sphere<M>, r: Ray): real
  {
    HalfB(s, r) * HalfB(s, r) - QuadA(r) * QuadC(s, r)
  }

  /** The nearer root `(-half_b - sqrtd) / a`. */
  function NearRoot<M>(s: Sphere<M>, r: Ray, sqrt: real -> real): real
    requires QuadA(r) != 0.0
  {
    (-HalfB(s, r) - sqrt(Discriminant(s, r))) / QuadA(r)
  }

  /** The farther root `(-half_b + sqrtd) / a`. */
  function FarRoot<M>(s: Sphere<M>, r: Ray, sqrt: real -> real): real
    requires QuadA(r) != 0.0
  {
    (-HalfB(s, r) + sqrt(Discriminant(s, r))) / QuadA(r)
  }

  /** `(p - center) / radius`. */
  function OutwardNormal<M>(s: Sphere<M>, p: Vec3): Vec3
  {
    Div(Sub(p, s.center), s.radius)
  }

  /** The record `hit` fills in for the accepted parameter `t`. */
  function Record<M>(s: Sphere<M>, r: Ray, t: real): (h: HitInfo<M>)
    ensures h.t == t && h.p == At(r, t) && h.material == s.material
    ensures Facing(h.frontFace, h.normal) == FaceNormal(r, OutwardNormal(s, At(r, t)))
  {
    var p := At(r, t);
    var f := FaceNormal(r, OutwardNormal(s, p));
    HitInfo(p, f.normal, s.material, t, f.frontFace)
  }

  /** A record at a surrounded parameter meets the `hittable::hit` contract. */
  lemma RecordIsValid<M>(s: Sphere<M>, r: Ray, rayT: Interval, t: real)
    requires Surrounds(rayT, t)
    ensures ValidHit(r, rayT, Record(s, r, t))
  {}

  /**
   * The value `sphere::hit` computes. A zero direction (`a == 0`) is a
   * miss: in the source both roots are then `0/0`, which no interval
   * surrounds.
   */
  function Intersect<M>(s: Sphere<M>, r: Ray, rayT: Interval, sqrt: real -> real): (h: Option<HitInfo<M>>)
    ensures Discriminant(s, r) < 0.0 ==> h.None?
    ensures h.Some? ==> h.value.material == s.material
  {
    if Discriminant(s, r) < 0.0 || QuadA(r) == 0.0 then None
    else ChooseRoot(s, r, rayT, NearRoot(s, r, sqrt), FarRoot(s, r, sqrt))
  }

  /** Every hit a sphere reports is inside the window, on the ray, and faces the ray. */
  lemma IntersectIsValid<M>(s: Sphere<M>, r: Ray, rayT: Interval, sqrt: real -> real)
    ensures var h := Intersect(s, r, rayT, sqrt); h.Some? ==> ValidHit(r, rayT, h.value)
  {
    if 0.0 <= Discriminant(s, r) && QuadA(r) != 0.0 {
      var near, far := NearRoot(s, r, sqrt), FarRoot(s, r, sqrt);
      assert Intersect(s, r, rayT, sqrt) == ChooseRoot(s, r, rayT, near, far);
    }
  }

  /** The nearer root if the window surrounds it, else the farther one, else a miss. */
  function ChooseRoot<M>(s: Sphere<M>, r: Ray, rayT: Interval, near: real, far: real): (h: Option<HitInfo<M>>)
    ensures h.Some? ==> ValidHit(r, rayT, h.value) && h.value.material == s.material
    ensures h.Some? ==> h.value.t == near || h.value.t == far
    ensures Surrounds(rayT, near) ==> h.Some? && h.value.t == near
    ensures !Surrounds(rayT, near) ==> (h.Some? <==> Surrounds(rayT, far))
  {
    if Surrounds(rayT, near) then
      RecordIsValid(s, r, rayT, near);
      Some(Record(s, r, near))
    else if Surrounds(rayT, far) then
      RecordIsValid(s, r, rayT, far);
      Some(Record(s, r, far))
    else None
  }

  /**
   * Root selection: the nearer root is taken whenever the window
   * surrounds it, the farther root only otherwise, and a hit is always at
   * one of the two.
   */
  lemma RootSelection<M>(s: Sphere<M>, r: Ray, rayT: Interval, sqrt: real -> real)
    ensures var h := Intersect(s, r, rayT, sqrt);
      h.Some? ==> (QuadA(r) != 0.0 && 0.0 <= Discriminant(s, r)
        && (h.value.t == NearRoot(s, r, sqrt) || h.value.t == FarRoot(s, r, sqrt)))
    ensures QuadA(r) != 0.0 && 0.0 <= Discriminant(s, r) ==>
      var near, far := NearRoot(s, r, sqrt), FarRoot(s, r, sqrt);
      Intersect(s, r, rayT, sqrt) ==
        if Surrounds(rayT, near) then Some(Record(s, r, near))
        else if Surrounds(rayT, far) then Some(Record(s, r, far))
        else None
  {}

  /**
   * `sphere::hit`: on a hit `rec` holds exactly the record `Intersect`
   * describes; on every `false` return `rec` is untouched.
   */
  method Hit<M>(s: Sphere<M>, r: Ray, rayT: Interval, rec: HitRecord<M>, sqrt: real -> real) returns (hit: bool)
    modifies rec
    ensures hit <==> Intersect(s, r, rayT, sqrt).Some?
    ensures hit ==> rec.Info() == Intersect(s, r, rayT, sqrt).value
    ensures !hit ==> unchanged(rec)
  {
    var oc := Sub(r.origin, s.center);
    var a := LengthSquared(r.direction);
    var halfB := Dot(oc, r.direction);
    var c := LengthSquared(oc) - s.radius * s.radius;
    var discriminant := halfB * halfB - a * c;
    if discriminant < 0.0 {
      return false;
    }
    if a == 0.0 {
      // Both roots are 0/0 in the source, and no interval surrounds them.
      return false;
    }
    assert a == QuadA(r) && halfB == HalfB(s, r) && discriminant == Discriminant(s, r);
    var sqrtd := sqrt(discriminant);
    var root := (-halfB - sqrtd) / a;
    if !Surrounds(rayT, root) {
      root := (-halfB + sqrtd) / a;
      if !Surrounds(rayT, root) {
        return false;
      }
    }
    rec.t := root;
    rec.p := At(r, rec.t);
    var outward := Div(Sub(rec.p, s.center), s.radius);
    rec.SetFaceNormal(r, outward);
    rec.material := s.material;
    return true;
  }

  /** A sphere meets the contract of `hittable::hit`. */
  lemma SphereIsHittable<M>(s: Sphere<M>, sqrt: real -> real)
    ensures IsHittable((r: Ray, rayT: Interval) => Intersect(s, r, rayT, sqrt))
  {
    forall r: Ray, rayT: Interval | Intersect(s, r, rayT, sqrt).Some?
      ensures ValidHit(r, rayT, Intersect(s, r, rayT, sqrt).value)
    {
      IntersectIsValid(s, r, rayT, sqrt);
    }
  }

  /**
   * When `sqrt` is a true square root, an accepted parameter puts the hit
   * point on the sphere: `|at(t) - center|^2 == radius^2`.
   */
  lemma HitIsOnSphere<M>(s: Sphere<M>, r: Ray, rayT: Interval, sqrt: real -> real)
    requires IsSqrt(sqrt) && Intersect(s, r, rayT, sqrt).Some?
    ensures LengthSquared(Sub(Intersect(s, r, rayT, sqrt).value.p, s.center)) == s.radius * s.radius
  {
    var sd := sqrt(Discriminant(s, r));
    assert sd * sd == Discriminant(s, r);
    RootIsOnSphere(s, r, sqrt, Intersect(s, r, rayT, sqrt).value.t);
  }

  /** Either root of the quadratic lies on the sphere. */
  lemma RootIsOnSphere<M>(s: Sphere<M>, r: Ray, sqrt: real -> real, t: real)
    requires QuadA(r) != 0.0
    requires sqrt(Discriminant(s, r)) * sqrt(Discriminant(s, r)) == Discriminant(s, r)
    requires t == NearRoot(s, r, sqrt) || t == FarRoot(s, r, sqrt)
    ensures LengthSquared(Sub(At(r, t), s.center)) == s.radius * s.radius
  {
    QuadraticRoot(QuadA(r), HalfB(s, r), QuadC(s, r), sqrt(Discriminant(s, r)), t);
    assert Sub(At(r, t), s.center) == Add(Sub(r.origin, s.center), Scale(t, r.direction));
    LengthSquaredAddScale(Sub(r.origin, s.center), r.direction, t);
  }

  /** A root of the quadratic formula solves `a t^2 + 2 half_b t + c == 0`. */
  lemma QuadraticRoot(a: real, hb: real, c: real, sd: real, t: real)
    requires a != 0.0 && sd * sd == hb * hb - a * c
    requires t == (-hb - sd) / a || t == (-hb + sd) / a
    ensures 2.0 * t * hb + (t * t) * a + c == 0.0
  {
    var u := a * t;
    var e := 2.0 * t * hb + (t * t) * a + c;
    assert u == -hb - sd || u == -hb + sd;
    assert u * u + 2.0 * hb * u + a * c == 0.0;
    assert a * e == u * u + 2.0 * hb * u + a * c;
    assert e == (a * e) / a;
  }

  /**
   * Negating the radius changes neither whether the ray hits nor where:
   * only `radius * radius` enters the test. The outward normal is negated,
   * so the face flag flips and, wherever the ray is not tangent to the
   * surface, the stored normal is the same.
   */
  lemma NegativeRadius<M>(center: Vec3, radius: NonZero, m: M, r: Ray, rayT: Interval, sqrt: real -> real)
    ensures var h, g := Intersect(Sphere(center, radius, m), r, rayT, sqrt), Intersect(Sphere(center, -(radius as real), m), r, rayT, sqrt);
      && (h.Some? <==> g.Some?)
      && (h.Some? ==> g.value.t == h.value.t && g.value.p == h.value.p && g.value.material == h.value.material)
      && (h.Some? && Dot(r.direction, h.value.normal) != 0.0 ==> g.value.normal == h.value.normal && g.value.frontFace == !h.value.frontFace)
    ensures forall p: Vec3 :: OutwardNormal(Sphere(center, -(radius as real), m), p) == Neg(OutwardNormal(Sphere(center, radius, m), p))
  {
    var negated: NonZero := -(radius as real);
    var s, s' := Sphere(center, radius, m), Sphere(center, negated, m);
    assert negated * negated == radius * radius;
    assert QuadC(s', r) == QuadC(s, r) && Discriminant(s', r) == Discriminant(s, r);
    forall p: Vec3
      ensures OutwardNormal(s', p) == Neg(OutwardNormal(s, p))
    {
      OutwardNormalNegated(s, s', p);
    }
    if 0.0 <= Discriminant(s, r) && QuadA(r) != 0.0 {
      var near, far := NearRoot(s, r, sqrt), FarRoot(s, r, sqrt);
      assert NearRoot(s', r, sqrt) == near && FarRoot(s', r, sqrt) == far;
      assert Intersect(s, r, rayT, sqrt) == ChooseRoot(s, r, rayT, near, far);
      assert Intersect(s', r, rayT, sqrt) == ChooseRoot(s', r, rayT, near, far);
      RecordNegated(s, s', r, near);
      RecordNegated(s, s', r, far);
    }
  }

  lemma OutwardNormalNegated<M>(s: Sphere<M>, s': Sphere<M>, p: Vec3)
    requires s'.center == s.center && s'.radius == -(s.radius as real)
    ensures OutwardNormal(s', p) == Neg(OutwardNormal(s, p))
  {
    var q := Sub(p, s.center);
    var k := 1.0 / s.radius;
    assert 1.0 / s'.radius == -k;
    assert (-k) * q.x == -(k * q.x);
    assert (-k) * q.y == -(k * q.y);
    assert (-k) * q.z == -(k * q.z);
  }

  /** The records of a sphere and of its negated-radius twin at the same `t`. */
  lemma RecordNegated<M>(s: Sphere<M>, s': Sphere<M>, r: Ray, t: real)
    requires s'.center == s.center && s'.radius == -(s.radius as real) && s'.material == s.material
    ensures var h, g := Record(s, r, t), Record(s', r, t);
      && g.t == h.t && g.p == h.p && g.material == h.material
      && (Dot(r.direction, h.normal) != 0.0 ==> g.normal == h.normal && g.frontFace == !h.frontFace)
  {
    var p := At(r, t);
    var o := OutwardNormal(s, p);
    OutwardNormalNegated(s, s', p);
    DotNeg(r.direction, o);
    assert Neg(Neg(o)) == o;
  }
}
