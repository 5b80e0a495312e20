/**
 * The hit record, its face orientation, and the contract every surface's
 * `hit` must meet.
 */
module Hittable {
  import opened Optional
  import opened Util
  import opened Vectors
  import opened Rays

  /**
   * The parameter window a hit must fall in. The bound type lives in
   * `interval.h`, which is not part of this model: it is a lower bound
   * and a possibly infinite upper bound, and `surrounds` is the open test
   * `min < x < max`.
   */
  datatype Interval = Interval(min: real, max: Extended)

  /** `interval::surrounds`: `min < x < max`. */
  predicate Surrounds(i: Interval, x: real)
  {
    i.min < x && Below(x, i.max)
  }

  /** The two fields `set_face_normal` writes. */
  datatype Facing = Facing(frontFace: bool, normal: Vec3)

  /**
   * The orientation `set_face_normal` computes: the ray hits the front
   * face exactly when it runs against the outward normal, and the stored
   * normal always points back toward the ray.
   */
  function FaceNormal(r: Ray, outward: Vec3): (f: Facing)
    ensures f.frontFace <==> Dot(r.direction, outward) < 0.0
    ensures f.normal == (if f.frontFace then outward else Neg(outward))
    ensures Dot(r.direction, f.normal) <= 0.0
    ensures LengthSquared(f.normal) == LengthSquared(outward)
  {
    var front := Dot(r.direction, outward) < 0.0;
    DotNeg(r.direction, outward);
    LengthSquaredNeg(outward);
    Facing(front, if front then outward else Neg(outward))
  }

  /** What a `hit_record` holds once a hit has filled it in. */
  datatype HitInfo<M> = HitInfo(p: Vec3, normal: Vec3, material: M, t: real, frontFace: bool)

  /** `hit_record`: the fields a hit test writes through its out-parameter. */
  class HitRecord<M> {
    var p: Vec3
    var normal: Vec3
    var material: M
    var t: real
    var frontFace: bool

    /** A record holding `info`. */
    constructor (info: HitInfo<M>)
      ensures Info() == info
    {
      p := info.p;
      normal := info.normal;
      material := info.material;
      t := info.t;
      frontFace := info.frontFace;
    }

    /** The record's five fields as one value. */
    function Info(): HitInfo<M>
      reads this
    {
      HitInfo(p, normal, material, t, frontFace)
    }

    /**
     * `set_face_normal`: writes the face flag and the oriented normal and
     * leaves the point, the parameter and the material alone.
     */
    method SetFaceNormal(r: Ray, outward: Vec3)
      modifies this
      ensures frontFace <==> Dot(r.direction, outward) < 0.0
      ensures normal == (if frontFace then outward else Neg(outward))
      ensures Facing(frontFace, normal) == FaceNormal(r, outward)
      ensures p == old(p) && t == old(t) && material == old(material)
    {
      frontFace := Dot(r.direction, outward) < 0.0;
      normal := if frontFace then outward else Neg(outward);
    }
  }

  /**
   * What a successful `hit(r, ray_t, rec)` promises about `rec`: the
   * parameter lies inside the window, the point is on the ray there, and
   * the normal is oriented against the ray.
   */
  ghost predicate ValidHit<M>(r: Ray, rayT: Interval, h: HitInfo<M>)
  {
    && Surrounds(rayT, h.t)
    && h.p == At(r, h.t)
    && Dot(r.direction, h.normal) <= 0.0
    && (h.frontFace ==> Dot(r.direction, h.normal) < 0.0)
  }

  /** The abstract `hittable::hit`: every hit it reports is valid. */
  ghost predicate IsHittable<M>(hit: (Ray, Interval) -> Option<HitInfo<M>>)
  {
    forall r: Ray, rayT: Interval :: hit(r, rayT).Some? ==> ValidHit(r, rayT, hit(r, rayT).value)
  }

  lemma DotNeg(u: Vec3, v: Vec3)
    ensures Dot(u, Neg(v)) == -Dot(u, v)
  {
    assert u.x * -v.x == -(u.x * v.x);
    assert u.y * -v.y == -(u.y * v.y);
    assert u.z * -v.z == -(u.z * v.z);
  }

  lemma LengthSquaredNeg(v: Vec3)
    ensures LengthSquared(Neg(v)) == LengthSquared(v)
  {
    assert -v.x * -v.x == v.x * v.x;
    assert -v.y * -v.y == v.y * v.y;
    assert -v.z * -v.z == v.z * v.z;
  }
}
