/**
 * The camera: the recursive radiance estimate `ray_color`, the image and
 * viewport set-up `initialize`, the primary rays `get_ray`, and the raster
 * loops of `render`.
 *
 * The world is any function from a ray and a parameter window to an
 * optional hit (`hittable_list.h` is not part of this model). The random
 * draws one sample consumes are handed in as `SampleDraws`, chosen for
 * each pixel and sample by an `Entropy` oracle.
 */
module Cameras {
  import opened Optional
  import opened Numerics
  import opened Util
  import opened Vectors
  import opened Rays
  import opened Hittable
  import opened Materials
  import opened Colors
  import opened Decimal

  /** `world.hit(r, ray_t, rec)`: `Some(rec)` for the hit it reports. */
  type World = (Ray, Interval) -> Option<HitInfo<Material>>

  /** `interval(0.001, infinity)`: ignores hits too close to the ray origin. */
  const SceneInterval: Interval := Interval(0.001, PosInfinity)

  const White: Vec3 := Vec3(1.0, 1.0, 1.0)
  const SkyBlue: Vec3 := Vec3(0.5, 0.7, 1.0)

  /**
   * What one sample draws: the two jitter values of `pixel_sample_square`,
   * the point `random_in_unit_disk` returned for `defocus_disk_sample`, and
   * the draws of the scatter at each remaining depth.
   */
  datatype SampleDraws = SampleDraws(jitterX: RandDraw, jitterY: RandDraw, disk: Vec3, bounce: int -> Bounce)

  /** The draws of sample `s` of pixel `(i, j)`. */
  type Entropy = (int, int, int) -> SampleDraws

  // ---------------------------------------------------------------------
  // ray_color

  /** The blend factor `a = 0.5 * (unit_direction.y() + 1)` of the background. */
  function SkyBlend(r: Ray, sqrt: real -> real): real
  {
    0.5 * (UnitVector(r.direction, sqrt).y + 1.0)
  }

  /** The background: white blended linearly into sky blue. */
  function SkyColor(r: Ray, sqrt: real -> real): Vec3
  {
    var a := SkyBlend(r, sqrt);
    Add(Scale(1.0 - a, White), Scale(a, SkyBlue))
  }

  /**
   * The background lies between white and sky blue: the blend factor is in
   * [0, 1] because a unit vector's components are.
   */
  lemma SkyColorBounds(r: Ray, sqrt: real -> real)
    requires IsSqrt(sqrt)
    ensures 0.0 <= SkyBlend(r, sqrt) <= 1.0
    ensures var c := SkyColor(r, sqrt);
      0.5 <= c.x <= 1.0 && 0.7 <= c.y <= 1.0 && c.z == 1.0
  {
    UnitVectorComponentBounds(r.direction, sqrt);
  }

  /** Looking straight up gives sky blue; straight down gives white. */
  lemma SkyAtZenithAndNadir(origin: Vec3, k: real, sqrt: real -> real)
    requires IsSqrt(sqrt) && k > 0.0
    ensures SkyColor(Ray(origin, Vec3(0.0, k, 0.0)), sqrt) == SkyBlue
    ensures SkyColor(Ray(origin, Vec3(0.0, -k, 0.0)), sqrt) == White
  {
    SqrtOfSquare(sqrt, k);
    VerticalUnit(k, sqrt);
    SkyOfVertical(Ray(origin, Vec3(0.0, k, 0.0)), sqrt);
    SkyOfVertical(Ray(origin, Vec3(0.0, -k, 0.0)), sqrt);
  }

  lemma SkyOfVertical(r: Ray, sqrt: real -> real)
    ensures UnitVector(r.direction, sqrt).y == 1.0 ==> SkyColor(r, sqrt) == SkyBlue
    ensures UnitVector(r.direction, sqrt).y == -1.0 ==> SkyColor(r, sqrt) == White
  {
    var y := UnitVector(r.direction, sqrt).y;
    assert SkyBlend(r, sqrt) == 0.5 * (y + 1.0);
    SkyOfBlend(SkyBlend(r, sqrt));
  }

  lemma SkyOfBlend(a: real)
    ensures a == 1.0 ==> Add(Scale(1.0 - a, White), Scale(a, SkyBlue)) == SkyBlue
    ensures a == 0.0 ==> Add(Scale(1.0 - a, White), Scale(a, SkyBlue)) == White
  {}

  /** A vertical direction of any positive length normalises to `(0, 1, 0)` or `(0, -1, 0)`. */
  lemma VerticalUnit(k: real, sqrt: real -> real)
    requires k > 0.0 && sqrt(k * k) == k
    ensures UnitVector(Vec3(0.0, k, 0.0), sqrt) == Vec3(0.0, 1.0, 0.0)
    ensures UnitVector(Vec3(0.0, -k, 0.0), sqrt) == Vec3(0.0, -1.0, 0.0)
  {
    assert LengthSquared(Vec3(0.0, k, 0.0)) == k * k;
    assert LengthSquared(Vec3(0.0, -k, 0.0)) == k * k;
    assert 1.0 / k * k == 1.0;
    assert 1.0 / k * -k == -1.0;
  }

  /**
   * `ray_color(r, depth, world)`: black once the bounce budget is spent;
   * on a hit, the attenuation times the colour of the scattered ray one
   * level deeper, or black when the material absorbs the ray; on a miss,
   * the background. The draws of the scatter at depth `d` are `bounce(d)`.
   */
  function RayColor(r: Ray, depth: int, world: World, bounce: int -> Bounce, sqrt: real -> real): (c: Vec3)
    ensures depth <= 0 ==> c == Zero
    decreases depth
  {
    if depth <= 0 then Zero
    else
      match world(r, SceneInterval)
      case None => SkyColor(r, sqrt)
      case Some(rec) =>
        var s := Scatter(rec.material, r, rec, bounce(depth), sqrt);
        if s.ok then Mul(s.attenuation, RayColor(s.ray, depth - 1, world, bounce, sqrt)) else Zero
  }

  /**
   * The three cases of `ray_color` with bounces left: a miss is the sky
   * gradient, an absorbed hit is black, and a scattered hit is the
   * attenuation times the colour of the scattered ray one level deeper.
   */
  lemma RayColorCases(r: Ray, depth: int, world: World, bounce: int -> Bounce, sqrt: real -> real)
    requires depth > 0
    ensures world(r, SceneInterval).None? ==> RayColor(r, depth, world, bounce, sqrt) == SkyColor(r, sqrt)
    ensures world(r, SceneInterval).Some? ==>
      var rec := world(r, SceneInterval).value;
      var s := Scatter(rec.material, r, rec, bounce(depth), sqrt);
      && (!s.ok ==> RayColor(r, depth, world, bounce, sqrt) == Zero)
      && (s.ok ==> RayColor(r, depth, world, bounce, sqrt) == Mul(s.attenuation, RayColor(s.ray, depth - 1, world, bounce, sqrt)))
  {}

  /** Where nothing is ever hit, every ray with bounces left sees the sky. */
  lemma EmptySceneIsSky(r: Ray, depth: int, world: World, bounce: int -> Bounce, sqrt: real -> real)
    requires depth > 0
    requires forall q: Ray :: world(q, SceneInterval).None?
    ensures RayColor(r, depth, world, bounce, sqrt) == SkyColor(r, sqrt)
  {
    RayColorCases(r, depth, world, bounce, sqrt);
  }

  /** Every material the world can report has albedos in [0, 1]. */
  ghost predicate PhysicalWorld(world: World)
  {
    forall r: Ray, i: Interval :: world(r, i).Some? ==> PhysicalMaterial(world(r, i).value.material)
  }

  /** In a world of physical materials no path gathers more than white. */
  lemma {:induction false} RayColorIsUnit(r: Ray, depth: int, world: World, bounce: int -> Bounce, sqrt: real -> real)
    requires IsSqrt(sqrt) && PhysicalWorld(world)
    ensures UnitColor(RayColor(r, depth, world, bounce, sqrt))
    decreases depth
  {
    if depth > 0 {
      match world(r, SceneInterval)
      case None =>
        SkyColorBounds(r, sqrt);
      case Some(rec) =>
        var s := Scatter(rec.material, r, rec, bounce(depth), sqrt);
        if s.ok {
          ScatterAttenuationIsUnit(rec.material, r, rec, bounce(depth), sqrt);
          RayColorIsUnit(s.ray, depth - 1, world, bounce, sqrt);
          MulUnit(s.attenuation, RayColor(s.ray, depth - 1, world, bounce, sqrt));
        }
    }
  }

  /** The componentwise product of two colours in [0, 1] stays in [0, 1]. */
  lemma MulUnit(a: Vec3, b: Vec3)
    requires UnitColor(a) && UnitColor(b)
    ensures UnitColor(Mul(a, b))
  {
    UnitProduct(a.x, b.x);
    UnitProduct(a.y, b.y);
    UnitProduct(a.z, b.z);
  }

  /**
   * A scene from which no ray escapes, so that every ray hits something,
   * is rendered black: light is only ever gathered from the background.
   */
  lemma {:induction false} EnclosedSceneIsBlack(r: Ray, depth: int, world: World, bounce: int -> Bounce, sqrt: real -> real)
    requires forall q: Ray :: world(q, SceneInterval).Some?
    ensures RayColor(r, depth, world, bounce, sqrt) == Zero
    decreases depth
  {
    if depth > 0 {
      var rec := world(r, SceneInterval).value;
      var s := Scatter(rec.material, r, rec, bounce(depth), sqrt);
      if s.ok {
        EnclosedSceneIsBlack(s.ray, depth - 1, world, bounce, sqrt);
        assert Mul(s.attenuation, Zero) == Zero;
      }
    }
  }

  /**
   * The recursion uses the draws of the depths `1..depth` only, so it
   * scatters at most `depth` times.
   */
  lemma {:induction false} RayColorUsesDepthsUpTo(r: Ray, depth: int, world: World, b1: int -> Bounce, b2: int -> Bounce, sqrt: real -> real)
    requires forall d :: 1 <= d <= depth ==> b1(d) == b2(d)
    ensures RayColor(r, depth, world, b1, sqrt) == RayColor(r, depth, world, b2, sqrt)
    decreases depth
  {
    if depth > 0 {
      match world(r, SceneInterval)
      case None =>
      case Some(rec) =>
        assert b1(depth) == b2(depth);
        var s := Scatter(rec.material, r, rec, b1(depth), sqrt);
        if s.ok {
          RayColorUsesDepthsUpTo(s.ray, depth - 1, world, b1, b2, sqrt);
        }
    }
  }

  /** The world is only ever asked for hits in `interval(0.001, infinity)`. */
  lemma {:induction false} RayColorQueriesSceneInterval(r: Ray, depth: int, w1: World, w2: World, bounce: int -> Bounce, sqrt: real -> real)
    requires forall q: Ray :: w1(q, SceneInterval) == w2(q, SceneInterval)
    ensures RayColor(r, depth, w1, bounce, sqrt) == RayColor(r, depth, w2, bounce, sqrt)
    decreases depth
  {
    if depth > 0 {
      assert w1(r, SceneInterval) == w2(r, SceneInterval);
      match w1(r, SceneInterval)
      case None =>
      case Some(rec) =>
        var s := Scatter(rec.material, r, rec, bounce(depth), sqrt);
        if s.ok {
          RayColorQueriesSceneInterval(s.ray, depth - 1, w1, w2, bounce, sqrt);
        }
    }
  }

  // ---------------------------------------------------------------------
  // initialize

  /**
   * `static_cast<int>(image_width / aspect_ratio)`, raised to 1 when it is
   * smaller: the image always has at least one row.
   */
  function ImageHeight(imageWidth: int, aspectRatio: real): (h: int)
    requires aspectRatio != 0.0
    ensures 1 <= h && TruncToInt(imageWidth as real / aspectRatio) <= h
    ensures 1 <= TruncToInt(imageWidth as real / aspectRatio) ==> h == TruncToInt(imageWidth as real / aspectRatio)
    ensures TruncToInt(imageWidth as real / aspectRatio) < 1 ==> h == 1
  {
    var h := TruncToInt(imageWidth as real / aspectRatio);
    if h < 1 then 1 else h
  }

  /** The default camera is 100 by 100; the scene program's 400-wide 16:9 image is 225 rows high. */
  lemma ImageHeightExamples()
    ensures ImageHeight(100, 1.0) == 100
    ensures ImageHeight(400, 16.0 / 9.0) == 225
    ensures ImageHeight(1, 16.0 / 9.0) == 1
  {
    assert 400 as real / (16.0 / 9.0) == 225.0;
  }

  /** `2 * tan(theta / 2) * focus_dist` with `theta` the field of view in radians. */
  function ViewportHeight(viewFov: real, focusDist: real, tan: real -> real): real
  {
    2.0 * tan(DegreesToRadians(viewFov) / 2.0) * focusDist
  }

  /** `viewport_height * (double(image_width) / image_height)`. */
  function ViewportWidth(viewportHeight: real, imageWidth: int, imageHeight: int): real
    requires imageHeight != 0
  {
    viewportHeight * (imageWidth as real / imageHeight as real)
  }

  /** `center - focus_dist * w - viewport_u / 2 - viewport_v / 2`. */
  function ViewportUpperLeft(center: Vec3, focusDist: real, w: Vec3, viewportU: Vec3, viewportV: Vec3): Vec3
  {
    Sub(Sub(Sub(center, Scale(focusDist, w)), Div(viewportU, 2.0)), Div(viewportV, 2.0))
  }

  /** The centre of the upper-left pixel: half a pixel in from the corner. */
  function Pixel00(upperLeft: Vec3, deltaU: Vec3, deltaV: Vec3): Vec3
  {
    Add(upperLeft, Scale(0.5, Add(deltaU, deltaV)))
  }

  /** `pixel_00_location + i * pixel_delta_u + j * pixel_delta_v`. */
  function PixelCenterAt(pixel00: Vec3, deltaU: Vec3, deltaV: Vec3, i: real, j: real): Vec3
  {
    Add(Add(pixel00, Scale(i, deltaU)), Scale(j, deltaV))
  }

  /** `focus_dist * tan(degrees_to_radians(defocus_angle / 2))`. */
  function DefocusRadius(defocusAngle: real, focusDist: real, tan: real -> real): real
  {
    focusDist * tan(DegreesToRadians(defocusAngle / 2.0))
  }

  /**
   * The pixel grid is centred on the view direction: the point midway
   * between the first and the last pixel centre, `((W-1)/2, (H-1)/2)` in
   * pixel coordinates, is `center - focus_dist * w`.
   */
  lemma ViewportIsCentred(center: Vec3, focusDist: real, w: Vec3, viewportU: Vec3, viewportV: Vec3, imageWidth: int, imageHeight: int)
    requires imageWidth != 0 && imageHeight != 0
    ensures var du, dv := Div(viewportU, imageWidth as real), Div(viewportV, imageHeight as real);
      PixelCenterAt(Pixel00(ViewportUpperLeft(center, focusDist, w, viewportU, viewportV), du, dv), du, dv,
                    (imageWidth as real - 1.0) / 2.0, (imageHeight as real - 1.0) / 2.0)
      == Sub(center, Scale(focusDist, w))
  {
    var nw, nh := imageWidth as real, imageHeight as real;
    HalfSpan(viewportU.x, nw);
    HalfSpan(viewportU.y, nw);
    HalfSpan(viewportU.z, nw);
    HalfSpan(viewportV.x, nh);
    HalfSpan(viewportV.y, nh);
    HalfSpan(viewportV.z, nh);
  }

  /** Half a step plus `(n-1)/2` steps of `a/n` is half of `a`. */
  lemma HalfSpan(a: real, n: real)
    requires n != 0.0
    ensures 0.5 * (1.0 / n * a) + (n - 1.0) / 2.0 * (1.0 / n * a) == 1.0 / 2.0 * a
  {
    var s := 1.0 / n * a;
    assert n * s == a;
    calc {
      0.5 * s + (n - 1.0) / 2.0 * s;
    ==
      n * s / 2.0;
    ==
      1.0 / 2.0 * a;
    }
  }

  // ---------------------------------------------------------------------
  // Primary rays

  /** `-0.5 + random_double()`: an offset in [-0.5, 0.5). */
  function JitterOffset(draw: RandDraw): (o: real)
    ensures -0.5 <= o < 0.5
  {
    -0.5 + RandomDouble(draw)
  }

  /** `center + p[0] * du + p[1] * dv`. */
  function DiskPoint(center: Vec3, du: Vec3, dv: Vec3, p: Vec3): Vec3
  {
    Add(Add(center, Scale(p.x, du)), Scale(p.y, dv))
  }

  /**
   * A point of the unit disk mapped onto the disk spanned by `rho u` and
   * `rho v`, for an orthonormal pair `u`, `v`, is within `rho` of the centre.
   */
  lemma DiskPointWithinRadius(center: Vec3, u: Vec3, v: Vec3, rho: real, p: Vec3)
    requires LengthSquared(u) == 1.0 && LengthSquared(v) == 1.0 && Dot(u, v) == 0.0
    requires p.z == 0.0 && LengthSquared(p) < 1.0
    ensures LengthSquared(Sub(DiskPoint(center, Scale(rho, u), Scale(rho, v), p), center)) <= rho * rho
  {
    var du, dv := Scale(rho, u), Scale(rho, v);
    ScaledBasis(rho, u, v);
    UnitDiskNorm(p);
    SquareNonNeg(rho);
    calc {
      LengthSquared(Sub(DiskPoint(center, du, dv, p), center));
    == { assert Sub(DiskPoint(center, du, dv, p), center) == Add(Scale(p.x, du), Scale(p.y, dv)); }
      LengthSquared(Add(Scale(p.x, du), Scale(p.y, dv)));
    == { DiskOffsetLength(p.x, p.y, du, dv, rho * rho); }
      PlanarNorm(p.x, p.y) * (rho * rho);
    <= { Shrink(PlanarNorm(p.x, p.y), rho); }
      rho * rho;
    }
  }

  /** `rho u` and `rho v` stay orthogonal, each of squared length `rho^2`. */
  lemma ScaledBasis(rho: real, u: Vec3, v: Vec3)
    requires LengthSquared(u) == 1.0 && LengthSquared(v) == 1.0 && Dot(u, v) == 0.0
    ensures LengthSquared(Scale(rho, u)) == rho * rho && LengthSquared(Scale(rho, v)) == rho * rho
    ensures Dot(Scale(rho, u), Scale(rho, v)) == 0.0
  {
    LengthSquaredScale(rho, u);
    LengthSquaredScale(rho, v);
    MulByOne(rho * rho, LengthSquared(u));
    MulByOne(rho * rho, LengthSquared(v));
    DotScale(rho, u, Scale(rho, v));
    DotScaleRight(rho, u, v);
    MulByZero(rho, Dot(u, v));
    MulByZero(rho, rho * Dot(u, v));
  }

  /** A point of the unit disk has `x^2 + y^2` in [0, 1). */
  lemma UnitDiskNorm(p: Vec3)
    requires p.z == 0.0 && LengthSquared(p) < 1.0
    ensures 0.0 <= PlanarNorm(p.x, p.y) < 1.0
  {
    SquareNonNeg(p.x);
    SquareNonNeg(p.y);
    MulByZero(p.z, p.z);
  }

  /** `p` is `a * du + b * dv` for offsets `a`, `b` in [-0.5, 0.5). */
  ghost predicate InPixelSquare(p: Vec3, du: Vec3, dv: Vec3)
  {
    exists a: real, b: real :: -0.5 <= a < 0.5 && -0.5 <= b < 0.5 && p == Add(Scale(a, du), Scale(b, dv))
  }

  /** `dot(a du + b dv, a du + b dv)` for orthogonal `du`, `dv` of equal length. */
  lemma DiskOffsetLength(a: real, b: real, du: Vec3, dv: Vec3, rho2: real)
    requires Dot(du, dv) == 0.0 && LengthSquared(du) == rho2 && LengthSquared(dv) == rho2
    ensures LengthSquared(Add(Scale(a, du), Scale(b, dv))) == PlanarNorm(a, b) * rho2
  {
    var p := Add(Scale(a, du), Scale(b, dv));
    assert p == Add(Scale(a, du), Scale(b, dv));
    LengthSquaredScale(a, du);
    LengthSquaredScale(b, dv);
    LengthSquaredOfSum(Scale(a, du), Scale(b, dv));
    DotScale(a, du, Scale(b, dv));
    DotScaleRight(b, du, dv);
    assert Dot(Scale(a, du), Scale(b, dv)) == a * (b * Dot(du, dv));
    MulByZero(b, Dot(du, dv));
    MulByZero(a, b * Dot(du, dv));
    assert (a * a) * rho2 + (b * b) * rho2 == (a * a + b * b) * rho2;
  }

  /** `a^2 + b^2`. */
  function PlanarNorm(a: real, b: real): real
  {
    a * a + b * b
  }

  /** Scaling by a factor in [0, 1) does not grow a square. */
  lemma Shrink(q: real, rho: real)
    requires 0.0 <= q < 1.0
    ensures q * (rho * rho) <= rho * rho
  {
    SquareNonNeg(rho);
    MulLe(q, 1.0, rho * rho);
    assert 1.0 * (rho * rho) == rho * rho;
  }

  lemma LengthSquaredOfSum(p: Vec3, q: Vec3)
    ensures LengthSquared(Add(p, q)) == LengthSquared(p) + 2.0 * Dot(p, q) + LengthSquared(q)
  {
    assert (p.x + q.x) * (p.x + q.x) == p.x * p.x + 2.0 * (p.x * q.x) + q.x * q.x;
    assert (p.y + q.y) * (p.y + q.y) == p.y * p.y + 2.0 * (p.y * q.y) + q.y * q.y;
    assert (p.z + q.z) * (p.z + q.z) == p.z * p.z + 2.0 * (p.z * q.z) + q.z * q.z;
  }

  lemma DotScaleRight(b: real, u: Vec3, v: Vec3)
    ensures Dot(u, Scale(b, v)) == b * Dot(u, v)
  {
    assert u.x * (b * v.x) == b * (u.x * v.x);
    assert u.y * (b * v.y) == b * (u.y * v.y);
    assert u.z * (b * v.z) == b * (u.z * v.z);
  }

  /**
   * The camera's public settings (defaults as declared) and the state
   * `initialize` derives from them.
   */
  class Camera {
    var aspectRatio: real
    var imageWidth: int
    var samplesPerPixel: int
    var maxDepth: int

    var viewFov: real
    var lookfrom: Vec3
    var lookat: Vec3
    var cameraUp: Vec3

    var defocusAngle: real
    var focusDist: real

    var imageHeight: int
    var cameraCenter: Vec3
    var pixel00Location: Vec3
    var pixelDeltaU: Vec3
    var pixelDeltaV: Vec3
    var u: Vec3
    var v: Vec3
    var w: Vec3
    var defocusDiskU: Vec3
    var defocusDiskV: Vec3

    /**
     * A camera with the declared defaults. The nine vector fields start at
     * zero, as the default `vec3` constructor makes them. `m_image_height`
     * is indeterminate in the program until `render`; here it starts at 0.
     */
    constructor ()
      ensures aspectRatio == 1.0 && imageWidth == 100 && samplesPerPixel == 10 && maxDepth == 10
      ensures viewFov == 90.0 && lookfrom == Vec3(0.0, 0.0, -1.0) && lookat == Zero && cameraUp == Vec3(0.0, 1.0, 0.0)
      ensures defocusAngle == 0.0 && focusDist == 10.0
      ensures imageHeight == 0
      ensures cameraCenter == Zero && pixel00Location == Zero && pixelDeltaU == Zero && pixelDeltaV == Zero
      ensures u == Zero && v == Zero && w == Zero && defocusDiskU == Zero && defocusDiskV == Zero
    {
      aspectRatio := 1.0;
      imageWidth := 100;
      samplesPerPixel := 10;
      maxDepth := 10;
      viewFov := 90.0;
      lookfrom := Vec3(0.0, 0.0, -1.0);
      lookat := Zero;
      cameraUp := Vec3(0.0, 1.0, 0.0);
      defocusAngle := 0.0;
      focusDist := 10.0;
      imageHeight := 0;
      cameraCenter := Zero;
      pixel00Location := Zero;
      pixelDeltaU := Zero;
      pixelDeltaV := Zero;
      u, v, w := Zero, Zero, Zero;
      defocusDiskU := Zero;
      defocusDiskV := Zero;
    }

    /** `m_image_height`: the width over the aspect ratio, at least one row. */
    ghost predicate HeightSet()
      reads this`aspectRatio, this`imageWidth, this`imageHeight
    {
      aspectRatio != 0.0 && imageHeight == ImageHeight(imageWidth, aspectRatio)
    }

    /** The orthonormal camera frame: `w` opposite the view direction, `u` to the right, `v` up. */
    ghost predicate FrameSet(sqrt: real -> real)
      reads this`lookfrom, this`lookat, this`cameraUp, this`u, this`v, this`w
    {
      && w == UnitVector(Sub(lookfrom, lookat), sqrt)
      && u == UnitVector(Cross(cameraUp, w), sqrt)
      && v == Cross(w, u)
    }

    /** The viewport edges, split into per-pixel steps, and the first pixel centre. */
    ghost predicate PixelGridSet(tan: real -> real)
      reads this`viewFov, this`focusDist, this`imageWidth, this`imageHeight, this`cameraCenter,
        this`u, this`v, this`w, this`pixelDeltaU, this`pixelDeltaV, this`pixel00Location
    {
      && imageWidth != 0 && imageHeight != 0
      && var viewportHeight := ViewportHeight(viewFov, focusDist, tan);
         var viewportU := Scale(ViewportWidth(viewportHeight, imageWidth, imageHeight), u);
         var viewportV := Scale(viewportHeight, Neg(v));
         && pixelDeltaU == Div(viewportU, imageWidth as real)
         && pixelDeltaV == Div(viewportV, imageHeight as real)
         && pixel00Location == Pixel00(ViewportUpperLeft(cameraCenter, focusDist, w, viewportU, viewportV),
                                       pixelDeltaU, pixelDeltaV)
    }

    /** The defocus disk basis: `u` and `v` scaled by the defocus radius. */
    ghost predicate DefocusDiskSet(tan: real -> real)
      reads this`defocusAngle, this`focusDist, this`u, this`v, this`defocusDiskU, this`defocusDiskV
    {
      && defocusDiskU == Scale(DefocusRadius(defocusAngle, focusDist, tan), u)
      && defocusDiskV == Scale(DefocusRadius(defocusAngle, focusDist, tan), v)
    }

    /** The derived fields are those `initialize` computes from the settings. */
    ghost predicate Initialized(sqrt: real -> real, tan: real -> real)
      reads this
    {
      && HeightSet()
      && cameraCenter == lookfrom
      && FrameSet(sqrt)
      && PixelGridSet(tan)
      && DefocusDiskSet(tan)
    }

    /**
     * `initialize`: the image height, the camera frame, the pixel grid and
     * the defocus disk, from the settings. Only the derived fields are in
     * its frame, so the settings do not change. The steps after the image
     * height and the centre are three methods below: the frame, the pixel
     * grid (viewport dimensions, edges, steps and upper-left pixel) and the
     * defocus disk. `initialize` computes the viewport dimensions before the
     * frame; the two do not depend on each other, so the order is immaterial.
     */
    method Initialize(sqrt: real -> real, tan: real -> real)
      requires aspectRatio != 0.0 && imageWidth != 0
      modifies this`imageHeight, this`cameraCenter, this`pixel00Location, this`pixelDeltaU, this`pixelDeltaV
      modifies this`u, this`v, this`w, this`defocusDiskU, this`defocusDiskV
      ensures Initialized(sqrt, tan)
    {
      imageHeight := TruncToInt(imageWidth as real / aspectRatio);
      imageHeight := if imageHeight < 1 then 1 else imageHeight;

      cameraCenter := lookfrom;

      InitializeFrame(sqrt);
      InitializePixelGrid(sqrt, tan);
      InitializeDefocusDisk(sqrt, tan);
    }

    /** The `u`, `v`, `w` basis of the camera frame. */
    method InitializeFrame(sqrt: real -> real)
      requires HeightSet() && cameraCenter == lookfrom
      modifies this`u, this`v, this`w
      ensures HeightSet() && cameraCenter == lookfrom && FrameSet(sqrt)
    {
      w := UnitVector(Sub(lookfrom, lookat), sqrt);
      u := UnitVector(Cross(cameraUp, w), sqrt);
      v := Cross(w, u);
    }

    /** The viewport dimensions, the pixel steps and the upper-left pixel centre. */
    method InitializePixelGrid(sqrt: real -> real, tan: real -> real)
      requires HeightSet() && imageWidth != 0 && cameraCenter == lookfrom && FrameSet(sqrt)
      modifies this`pixel00Location, this`pixelDeltaU, this`pixelDeltaV
      ensures HeightSet() && cameraCenter == lookfrom && FrameSet(sqrt) && PixelGridSet(tan)
    {
      var viewportHeight := ViewportHeight(viewFov, focusDist, tan);
      var viewportWidth := ViewportWidth(viewportHeight, imageWidth, imageHeight);

      var viewportU := Scale(viewportWidth, u);
      var viewportV := Scale(viewportHeight, Neg(v));

      pixelDeltaU := Div(viewportU, imageWidth as real);
      pixelDeltaV := Div(viewportV, imageHeight as real);

      var viewportUpperLeft := ViewportUpperLeft(cameraCenter, focusDist, w, viewportU, viewportV);
      pixel00Location := Pixel00(viewportUpperLeft, pixelDeltaU, pixelDeltaV);
    }

    /** The defocus disk basis vectors. */
    method InitializeDefocusDisk(sqrt: real -> real, tan: real -> real)
      requires HeightSet() && cameraCenter == lookfrom && FrameSet(sqrt) && PixelGridSet(tan)
      modifies this`defocusDiskU, this`defocusDiskV
      ensures Initialized(sqrt, tan)
    {
      var defocusRadius := DefocusRadius(defocusAngle, focusDist, tan);
      defocusDiskU := Scale(defocusRadius, u);
      defocusDiskV := Scale(defocusRadius, v);
    }

    /** `pixel_sample_square()`: a jitter within the pixel's square. */
    function PixelSampleSquare(jitterX: RandDraw, jitterY: RandDraw): (p: Vec3)
      reads this
      ensures InPixelSquare(p, pixelDeltaU, pixelDeltaV)
    {
      var px := JitterOffset(jitterX);
      var py := JitterOffset(jitterY);
      Add(Scale(px, pixelDeltaU), Scale(py, pixelDeltaV))
    }

    /** `defocus_disk_sample()` for the point `p` that `random_in_unit_disk` returned. */
    function DefocusDiskSample(p: Vec3): Vec3
      reads this
    {
      DiskPoint(cameraCenter, defocusDiskU, defocusDiskV, p)
    }

    /** The centre of pixel `(i, j)`. */
    function PixelCenter(i: int, j: int): Vec3
      reads this
    {
      PixelCenterAt(pixel00Location, pixelDeltaU, pixelDeltaV, i as real, j as real)
    }

    /** The jittered point of pixel `(i, j)` a sample aims at. */
    function PixelSample(i: int, j: int, d: SampleDraws): (p: Vec3)
      reads this
      ensures InPixelSquare(Sub(p, PixelCenter(i, j)), pixelDeltaU, pixelDeltaV)
    {
      var center := PixelCenter(i, j);
      var offset := PixelSampleSquare(d.jitterX, d.jitterY);
      assert Sub(Add(center, offset), center) == offset;
      Add(center, offset)
    }

    /**
     * `get_ray(i, j)`: from the camera centre when the defocus angle is not
     * positive, otherwise from a point of the defocus disk, towards the
     * jittered pixel sample, which the ray reaches at `t = 1`.
     */
    function GetRay(i: int, j: int, d: SampleDraws): (r: Ray)
      reads this
      ensures defocusAngle <= 0.0 ==> r.origin == cameraCenter
      ensures 0.0 < defocusAngle ==> r.origin == DefocusDiskSample(d.disk)
      ensures Add(r.origin, r.direction) == PixelSample(i, j, d)
      ensures At(r, 1.0) == PixelSample(i, j, d)
    {
      var pixelSample := PixelSample(i, j, d);
      var rayOrigin := if defocusAngle <= 0.0 then cameraCenter else DefocusDiskSample(d.disk);
      var ray := Ray(rayOrigin, Sub(pixelSample, rayOrigin));
      assert Scale(1.0, ray.direction) == ray.direction;
      ray
    }

    /**
     * With the initialised frame `u`, `v` orthonormal, a defocus-disk
     * origin lies within the disk of radius `defocus_radius` around the
     * camera centre: `|origin - center|^2 <= radius^2`.
     */
    lemma DefocusOriginInDisk(p: Vec3, sqrt: real -> real, tan: real -> real)
      requires Initialized(sqrt, tan)
      requires LengthSquared(u) == 1.0 && LengthSquared(v) == 1.0 && Dot(u, v) == 0.0
      requires p.z == 0.0 && LengthSquared(p) < 1.0
      ensures var rho := DefocusRadius(defocusAngle, focusDist, tan);
        LengthSquared(Sub(DefocusDiskSample(p), cameraCenter)) <= rho * rho
    {
      DiskPointWithinRadius(cameraCenter, u, v, DefocusRadius(defocusAngle, focusDist, tan), p);
    }

    // -------------------------------------------------------------------
    // render

    /** The colour one sample of pixel `(i, j)` gathers. */
    function SampleColor(i: int, j: int, d: SampleDraws, world: World, sqrt: real -> real): Vec3
      reads this
    {
      RayColor(GetRay(i, j, d), maxDepth, world, d.bounce, sqrt)
    }

    /** The sum of the first `n` samples of pixel `(i, j)`. */
    function PixelSum(i: int, j: int, n: nat, world: World, entropy: Entropy, sqrt: real -> real): Vec3
      reads this
    {
      if n == 0 then Zero
      else Add(PixelSum(i, j, n - 1, world, entropy, sqrt), SampleColor(i, j, entropy(i, j, n - 1), world, sqrt))
    }

    /** The number of times a `for` loop from 0 while below `n` runs. */
    static function Runs(n: int): nat
    {
      if n < 0 then 0 else n
    }

    /** The line `write_color` emits for pixel `(i, j)`. */
    function PixelLine(i: int, j: int, world: World, entropy: Entropy, sqrt: real -> real): string
      reads this
      requires samplesPerPixel != 0
    {
      PixelText(Channels(PixelSum(i, j, Runs(samplesPerPixel), world, entropy, sqrt), samplesPerPixel, sqrt))
    }

    /** `PixelLine` as a function of the pixel coordinates. */
    function PixelLines(world: World, entropy: Entropy, sqrt: real -> real): (int, int) ~> string
      reads this
    {
      (i: int, j: int) reads this requires samplesPerPixel != 0 => PixelLine(i, j, world, entropy, sqrt)
    }

    /** The lines of the first `n` pixels of row `j`, left to right. */
    function Row(j: int, n: nat, world: World, entropy: Entropy, sqrt: real -> real): seq<string>
      reads this
      requires samplesPerPixel != 0
    {
      GridRow(PixelLines(world, entropy, sqrt), j, n)
    }

    /** The lines of the first `m` rows, top to bottom. */
    function Rows(m: nat, world: World, entropy: Entropy, sqrt: real -> real): seq<string>
      reads this
      requires samplesPerPixel != 0
    {
      GridRows(PixelLines(world, entropy, sqrt), m, Runs(imageWidth))
    }

    /** The whole image: the header, then every row. */
    function Image(world: World, entropy: Entropy, sqrt: real -> real): seq<string>
      reads this
      requires samplesPerPixel != 0
    {
      [Header(imageWidth, imageHeight)] + Rows(Runs(imageHeight), world, entropy, sqrt)
    }

    /** `P3`, the width and height, and the maximum channel value 255. */
    static function Header(width: int, height: int): string
    {
      "P3\n" + IntToString(width) + " " + IntToString(height) + "\n255\n"
    }

    /**
     * The pixel loops of `render`: the header, then one line per pixel,
     * row by row, each the average of `samples_per_pixel` samples.
     */
    method EmitImage(world: World, entropy: Entropy, sqrt: real -> real) returns (out: seq<string>)
      requires samplesPerPixel != 0
      ensures out == Image(world, entropy, sqrt)
    {
      var rows := EmitRows(world, entropy, sqrt);
      out := [Header(imageWidth, imageHeight)] + rows;
    }

    /** The loop over `j`: every row, top to bottom. */
    method EmitRows(world: World, entropy: Entropy, sqrt: real -> real) returns (rows: seq<string>)
      requires samplesPerPixel != 0
      ensures rows == Rows(Runs(imageHeight), world, entropy, sqrt)
    {
      rows := [];
      var j := 0;
      while j < imageHeight
        invariant 0 <= j <= Runs(imageHeight)
        invariant rows == Rows(j, world, entropy, sqrt)
      {
        var row := EmitRow(j, world, entropy, sqrt);
        RowsStep(j, world, entropy, sqrt);
        rows := rows + row;
        j := j + 1;
      }
      assert j == Runs(imageHeight);
    }

    /** One more row appends that row's lines. */
    lemma RowsStep(j: nat, world: World, entropy: Entropy, sqrt: real -> real)
      requires samplesPerPixel != 0
      ensures Rows(j + 1, world, entropy, sqrt) == Rows(j, world, entropy, sqrt) + Row(j, Runs(imageWidth), world, entropy, sqrt)
    {
    }

    /** The loop over `i`: the lines of row `j`, left to right. */
    method EmitRow(j: int, world: World, entropy: Entropy, sqrt: real -> real) returns (lines: seq<string>)
      requires samplesPerPixel != 0
      ensures lines == Row(j, Runs(imageWidth), world, entropy, sqrt)
    {
      lines := [];
      var i := 0;
      while i < imageWidth
        invariant 0 <= i <= Runs(imageWidth)
        invariant lines == Row(j, i, world, entropy, sqrt)
      {
        var pixelColor := AccumulatePixel(i, j, world, entropy, sqrt);
        var line := WriteColor(pixelColor, samplesPerPixel, sqrt);
        lines := lines + [line];
        i := i + 1;
      }
      assert i == Runs(imageWidth);
    }

    /**
     * The sample loop of pixel `(i, j)`: `pixel_color += ray_color(r, max_depth, world)`
     * for `samples_per_pixel` rays, starting from black.
     */
    method AccumulatePixel(i: int, j: int, world: World, entropy: Entropy, sqrt: real -> real) returns (pixelColor: Vec3)
      ensures pixelColor == PixelSum(i, j, Runs(samplesPerPixel), world, entropy, sqrt)
    {
      pixelColor := Zero;
      var sample := 0;
      while sample < samplesPerPixel
        invariant 0 <= sample <= Runs(samplesPerPixel)
        invariant pixelColor == PixelSum(i, j, sample, world, entropy, sqrt)
      {
        var r := GetRay(i, j, entropy(i, j, sample));
        pixelColor := Add(pixelColor, RayColor(r, maxDepth, world, entropy(i, j, sample).bounce, sqrt));
        sample := sample + 1;
      }
      assert sample == Runs(samplesPerPixel);
    }

    /**
     * `render`: `initialize`, then the image. The progress messages on the
     * log stream are not modelled.
     */
    method Render(world: World, entropy: Entropy, sqrt: real -> real, tan: real -> real) returns (out: seq<string>)
      requires aspectRatio != 0.0 && imageWidth != 0 && samplesPerPixel != 0
      modifies this`imageHeight, this`cameraCenter, this`pixel00Location, this`pixelDeltaU, this`pixelDeltaV
      modifies this`u, this`v, this`w, this`defocusDiskU, this`defocusDiskV
      ensures Initialized(sqrt, tan)
      ensures out == Image(world, entropy, sqrt)
    {
      Initialize(sqrt, tan);
      out := EmitImage(world, entropy, sqrt);
    }

    /**
     * The image is row-major: `width * height` pixel lines follow the
     * header, and pixel `(i, j)` is line `1 + j * width + i`.
     */
    lemma ImageLayout(world: World, entropy: Entropy, sqrt: real -> real, j: int, i: int)
      requires samplesPerPixel != 0
      requires 0 <= j < Runs(imageHeight) && 0 <= i < Runs(imageWidth)
      ensures 1 + Slot(j, i, Runs(imageWidth), Runs(imageHeight)) < |Image(world, entropy, sqrt)|
      ensures Image(world, entropy, sqrt)[1 + Slot(j, i, Runs(imageWidth), Runs(imageHeight))]
        == PixelLine(i, j, world, entropy, sqrt)
    {
      var line := PixelLines(world, entropy, sqrt);
      assert line(i, j) == PixelLine(i, j, world, entropy, sqrt);
      GridRowsAt(line, Runs(imageHeight), Runs(imageWidth), j, i);
    }

    /** The header, then `height` rows of `width` lines. */
    lemma ImageShape(world: World, entropy: Entropy, sqrt: real -> real)
      requires samplesPerPixel != 0
      ensures |Image(world, entropy, sqrt)| == 1 + Runs(imageHeight) * Runs(imageWidth)
      ensures Image(world, entropy, sqrt)[0] == Header(imageWidth, imageHeight)
    {
      GridRowsLength(PixelLines(world, entropy, sqrt), Runs(imageHeight), Runs(imageWidth));
    }
  }

  // ---------------------------------------------------------------------
  // Row-major layout of the pixel lines

  /** `line(0, j), ..., line(n - 1, j)`. */
  function GridRow(line: (int, int) ~> string, j: int, n: nat): seq<string>
    reads line.reads
    requires forall i, k :: line.requires(i, k)
  {
    if n == 0 then [] else GridRow(line, j, n - 1) + [line(n - 1, j)]
  }

  /** Rows `0, ..., m - 1` of `width` lines each, top to bottom. */
  function GridRows(line: (int, int) ~> string, m: nat, width: nat): seq<string>
    reads line.reads
    requires forall i, k :: line.requires(i, k)
  {
    if m == 0 then [] else GridRows(line, m - 1, width) + GridRow(line, m - 1, width)
  }

  /** A row of `n` pixels has `n` lines. */
  lemma {:induction false} GridRowLength(line: (int, int) ~> string, j: int, n: nat)
    requires forall i, k :: line.requires(i, k)
    ensures |GridRow(line, j, n)| == n
  {
    if n > 0 {
      GridRowLength(line, j, n - 1);
    }
  }

  /** A row holds pixel `i` at index `i`. */
  lemma {:induction false} GridRowAt(line: (int, int) ~> string, j: int, n: nat, i: int)
    requires forall i, k :: line.requires(i, k)
    requires 0 <= i < n
    ensures |GridRow(line, j, n)| == n
    ensures GridRow(line, j, n)[i] == line(i, j)
  {
    GridRowLength(line, j, n);
    if i < n - 1 {
      GridRowAt(line, j, n - 1, i);
    }
  }

  /** The index of pixel `(i, j)` in `height` rows of `width` lines: `j * width + i`. */
  function Slot(j: int, i: int, width: int, height: int): (k: int)
    requires 0 <= j < height && 0 <= i < width
    ensures 0 <= k < height * width
  {
    IndexInPrefix(j, i, width, height);
    j * width + i
  }

  lemma {:induction false} GridRowsLength(line: (int, int) ~> string, m: nat, width: nat)
    requires forall i, k :: line.requires(i, k)
    ensures |GridRows(line, m, width)| == m * width
  {
    if m > 0 {
      GridRowsLength(line, m - 1, width);
      GridRowLength(line, m - 1, width);
      MulSucc(m - 1, width);
    }
  }

  /** Pixel `(i, j)` is at index `j * width + i`. */
  lemma {:induction false} GridRowsAt(line: (int, int) ~> string, m: nat, width: nat, j: int, i: int)
    requires forall i, k :: line.requires(i, k)
    requires 0 <= j < m && 0 <= i < width
    ensures |GridRows(line, m, width)| == m * width
    ensures GridRows(line, m, width)[Slot(j, i, width, m)] == line(i, j)
  {
    GridRowsLength(line, m, width);
    GridRowsLength(line, m - 1, width);
    var prefix, last := GridRows(line, m - 1, width), GridRow(line, m - 1, width);
    assert GridRows(line, m, width) == prefix + last;
    if j < m - 1 {
      GridRowsAt(line, m - 1, width, j, i);
      assert Slot(j, i, width, m) == Slot(j, i, width, m - 1);
    } else {
      GridRowAt(line, m - 1, width, i);
      assert Slot(j, i, width, m) == Slot(m - 1, i, width, m);
    }
  }

  lemma MulSucc(a: int, b: int)
    ensures (a + 1) * b == a * b + b
  {}

  /** Row `j < k` of width `n` lies in the first `k * n` lines. */
  lemma IndexInPrefix(j: int, i: int, n: int, k: int)
    requires 0 <= j < k && 0 <= i < n
    ensures j * n + i < k * n
  {
    assert (j + 1) * n <= k * n by {
      MulLeInt(j + 1, k, n);
    }
  }

  lemma MulLeInt(a: int, b: int, c: int)
    requires a <= b && 0 <= c
    ensures a * c <= b * c
  {}
}
