/**
 * A ray `origin + t * direction`.
 */
module Rays {
  import opened Vectors

  /** `ray(origin, direction)`: the two fields are exactly what was passed in. */
  datatype Ray = Ray(origin: Vec3, direction: Vec3)

  /** `at(t)`: the point reached after `t` units of the direction. */
  function At(r: Ray, t: real): (p: Vec3)
    ensures Sub(p, r.origin) == Scale(t, r.direction)
  {
    Add(r.origin, Scale(t, r.direction))
  }

  /** The accessors return the constructor's arguments unchanged. */
  lemma RayFields(origin: Vec3, direction: Vec3)
    ensures Ray(origin, direction).origin == origin
    ensures Ray(origin, direction).direction == direction
  {}

  /** `at(0)` is the origin. */
  lemma AtZero(r: Ray)
    ensures At(r, 0.0) == r.origin
  {}

  /** `at` is affine in `t`: moving on by `t` from `at(s)` reaches `at(s + t)`. */
  lemma AtAffine(r: Ray, s: real, t: real)
    ensures Add(At(r, s), Scale(t, r.direction)) == At(r, s + t)
  {
    var d := r.direction;
    assert (s + t) * d.x == s * d.x + t * d.x;
    assert (s + t) * d.y == s * d.y + t * d.y;
    assert (s + t) * d.z == s * d.z + t * d.z;
  }
}
