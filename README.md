# A verified model of a small path tracer

This project models the core of a small Monte-Carlo path tracer after the
well-known "ray tracing in one weekend" design. The path tracer:

- shoots jittered primary rays from a pinhole or thin-lens camera through
  every pixel;
- follows each ray through a world of spheres, scattering it off
  Lambertian, metal and dielectric materials up to a bounce limit;
- averages the colours gathered per pixel, gamma corrects them and
  quantises them;
- writes the image as a plain-text PPM.

The model is over Dafny `real`. What it captures, and what is proved about
it, is the algebra and the branching of the program, not floating-point
rounding.

- `sqrt` and `tan` are parameters of type `real -> real`. Lemmas that need
  facts about the square root take the hypothesis `IsSqrt(sqrt)`, which
  says `sqrt(x) >= 0` and `sqrt(x) * sqrt(x) == x` for `x >= 0`. Where
  only an instance is needed, they take that instance, such as
  `sqrt(1.0) == 1.0`.
- `pow((1 - cosine), 5)` is an exact fifth power.
- Every `rand()` call is a value of the subset type `RandDraw`, which
  ranges over `0 .. RAND_MAX` with the glibc `RAND_MAX` of 2147483647.
  - The rejection loops take a finite sequence of candidate draws.
  - The camera receives an `Entropy` oracle. It gives, for pixel `(i, j)`
    and sample `s`, the jitter draws, the point of the lens disk, and the
    draws of the scatter at each depth.
- The world (`hittable_list`) is any function from a ray and a parameter
  window to an optional hit. `IsHittable` states the contract every
  `hittable::hit` must keep: the hit's `t` lies in the window, its point is
  `r.at(t)`, and its normal never points along the ray. A sphere is proved
  to keep it.

Modules follow the headers:

| Module | Models |
|---|---|
| `Numerics` | `fabs`, `fmin`, `static_cast<int>` and square-root facts |
| `Util` | `util.h` |
| `Vectors` | `vec3.h`, where `Vec3Cell` is the in-place `e[3]` array |
| `Rays` | `ray.h` |
| `Hittable` | `hittable.h`, where `HitRecord` is the record `set_face_normal` updates |
| `Spheres` | `sphere.h` |
| `Materials` | `material.h` |
| `Decimal` | how `std::ostream` prints an `int` |
| `Colors` | `color.h` |
| `Cameras` | `camera.h`, where `Camera` is a class with the public settings and the private derived fields |

Three behaviours of the program are modelled exactly as written:

- **Metal fuzz.** The metal constructor only caps fuzz at 1:
  `m_fuzz(f < 1 ? f : 1)`. It has no lower clamp at 0, so a negative fuzz
  is kept. The `Metal` datatype itself admits any fuzz, but a metal built
  by `Materials.NewMetal`, as the program builds each one, has fuzz at
  most 1.
- **Dielectric reflectance.** The dielectric's `reflectance` computes
  `r0 * (1 - r0) * (1 - cosine)^5`, not Schlick's
  `r0 + (1 - r0) * (1 - cosine)^5`. `Materials.ReflectanceBounds` shows
  the consequence: the value as written never exceeds 0.25.
- **Negative `random_int` ranges.** `random_int` is bounded by
  `[min, max]` only for `0 <= min`. Below zero, `static_cast<int>`
  truncates toward zero, so a negative range can return `max + 1`:
  `Util.RandomIntNegativeRange` gives `random_int(-3, -2) == -1`.

## Model

| member | source | states |
|---|---|---|
| Numerics.Abs | includes/vec3.h:59 | `fabs`: non-negative, and equal to `x` or `-x` |
| Numerics.FMin | includes/material.h:74 | `fmin`: below both arguments, and equal to one of them |
| Numerics.TruncToInt | includes/color.h:24-26 | `static_cast<int>` truncates toward zero: `n <= x < n + 1` for `x >= 0`, and `n - 1 < x <= n` for `x < 0` |
| Numerics.SqrtMonotone | includes/color.h:7-10 | the square root is monotone on non-negative inputs |
| Numerics.SqrtOfSquare | includes/vec3.h:46-49 | `sqrt(y * y) == y` for `y >= 0` |
| Util.DegreesToRadians | includes/util.h:13-16 | 180 maps to `pi` and 0 maps to 0; the sign is kept; `radians * 180 == degrees * pi` |
| Util.Clamp | includes/util.h:18-23 | below `min` gives `min`; above `max` gives `max`; inside gives `x`; the result is in `[min, max]` when `min <= max` |
| Util.ClampIdempotent | includes/util.h:18-23 | clamping twice is clamping once |
| Util.ClampMonotone | includes/util.h:18-23 | clamping keeps the order |
| Util.RandomDouble | includes/util.h:26-29 | `rand() / (RAND_MAX + 1)` lies in `[0, 1)` |
| Util.RandomRange | includes/util.h:31-34 | for a draw in `[0, 1)`: the result is in `[min, max)` when `min < max`; in `(max, min]` when `max < min`; and `min` when they are equal |
| Util.Lerp | includes/util.h:33 | `min + (max - min) * random_double()` with the width `max - min` and the draw `u`; `Util.LerpBounds` bounds it |
| Util.LerpBounds | includes/util.h:31-34 | `min + w * u` lies in the half-open span of width `w` for `u` in `[0, 1)` |
| Util.RandomInt | includes/util.h:36-39 | for `0 <= min <= max`, `random_int(min, max)` is in `[min, max]` |
| Util.RandomIntNegativeRange | includes/util.h:36-39 | for a negative range the bound of `Util.RandomInt` fails: `random_int(-3, -2)` with the draw 1610612736 truncates -1.5 toward zero and returns -1, which is `max + 1` |
| Vectors.Neg | includes/vec3.h:21 | `v + (-v)` is the zero vector |
| Vectors.Add | includes/vec3.h:81-84 | the componentwise sum; `Vectors.Sub` is its inverse and `Vectors.DotAdd` distributes `dot` over it |
| Vectors.Sub | includes/vec3.h:86-89 | `(u - v) + v == u` |
| Vectors.Mul | includes/vec3.h:91-94 | the componentwise product; `Cameras.MulUnit` proves it keeps colours in `[0, 1]` |
| Vectors.Scale | includes/vec3.h:96-104 | `t * v`, componentwise; `Vectors.Div` is its inverse and `Vectors.LengthSquaredScale` multiplies the squared length by `t * t` |
| Vectors.Div | includes/vec3.h:106-109 | `t * (v / t) == v` for `t != 0` |
| Vectors.Dot | includes/vec3.h:112-115 | the sum of componentwise products; `Vectors.DotCommutes` proves it symmetric and `Vectors.DotAdd` linear in its first argument |
| Vectors.DotAdd | includes/vec3.h:112-115 | `dot(a + b, n) == dot(a, n) + dot(b, n)` |
| Vectors.DotCommutes | includes/vec3.h:112-115 | `dot(u, v) == dot(v, u)` |
| Vectors.Cross | includes/vec3.h:118-123 | `cross(u, v)` is orthogonal to both `u` and `v` |
| Vectors.LengthSquared | includes/vec3.h:51-54 | the sum of squared components; its properties are `Vectors.LengthSquaredFacts` and `Vectors.LengthSquaredScale` |
| Vectors.LengthSquaredFacts | includes/vec3.h:51-54 | the squared length is non-negative, zero exactly for the zero vector, and equal to `dot(v, v)` |
| Vectors.LengthSquaredScale | includes/vec3.h:96-104 | `length_squared(t * v) == t * t * length_squared(v)` |
| Vectors.Length | includes/vec3.h:46-49 | the length is non-negative and its square is the squared length |
| Vectors.NearZero | includes/vec3.h:56-60 | holds iff every component is within `1e-8` in absolute value; implies a squared length below `3e-16` |
| Vectors.UnitVector | includes/vec3.h:126-129 | `v / v.length()`; `Vectors.UnitVectorIsUnit` proves length 1 for a non-zero `v` |
| Vectors.UnitVectorIsUnit | includes/vec3.h:126-129 | a non-zero vector divided by its length has length 1 |
| Vectors.UnitVectorComponentBounds | includes/vec3.h:126-129 | every component of `unit_vector(v)` lies in `[-1, 1]` |
| Vectors.Reflect | includes/vec3.h:162-165 | for a unit `n`: `dot(reflect(v, n), n) == -dot(v, n)`, and the squared length is kept |
| Vectors.Refract | includes/vec3.h:167-173 | `r_out_perp + r_out_parallel`; `Vectors.PerpIsTangent`, `Vectors.ParallelAlongNormal`, `Vectors.RefractGoesThrough` and `Vectors.RefractUnitRatioIsIdentity` state its properties |
| Vectors.RefractPerp | includes/vec3.h:169-170 | `etai_over_etat * (uv + cos_theta * n)`, the cosine capped at 1; `Vectors.PerpIsTangent` proves it tangent to a unit normal |
| Vectors.RefractParallel | includes/vec3.h:171 | `-sqrt(fabs(1 - |perp|^2)) * n`; `Vectors.ParallelAlongNormal` and `Vectors.RefractParallelOfZero` state it |
| Vectors.PerpIsTangent | includes/vec3.h:167-170 | the perpendicular part of `refract` is orthogonal to a unit normal |
| Vectors.ParallelAlongNormal | includes/vec3.h:171 | the parallel part of `refract` points against the normal, with magnitude `sqrt(fabs(1 - length_squared(perp)))` |
| Vectors.RefractGoesThrough | includes/vec3.h:167-173 | for a unit normal and `dot(-uv, n) <= 1`, the refracted ray never points back out of the surface |
| Vectors.RefractUnitRatioIsIdentity | includes/vec3.h:167-173 | refraction with ratio 1 of a unit ray entering against the normal leaves the ray unchanged |
| Vectors.RefractParallelOfZero | includes/vec3.h:171 | a zero perpendicular part gives the parallel part `-n` |
| Vectors.CauchySchwarzUnit | includes/vec3.h:169 | the dot product of two unit vectors lies in `[-1, 1]` |
| Vectors.RandomVector | includes/vec3.h:62-65 | `vec3::random()` has every component in `[0, 1)` |
| Vectors.RandomVectorIn | includes/vec3.h:67-70 | `vec3::random(min, max)` has every component in `[min, max)`, or is `(min, min, min)` when `min == max` |
| Vectors.DiskCandidate | includes/vec3.h:136 | a disk candidate lies in the square `[-1, 1)^2` of the plane `z == 0` |
| Vectors.SphereCandidate | includes/vec3.h:149 | a sphere candidate lies in the cube `[-1, 1)^3` |
| Vectors.RandomInUnitDisk | includes/vec3.h:132-142 | returns the first candidate strictly inside the unit disk, with `z == 0`; every earlier candidate was rejected; none when every attempt was rejected |
| Vectors.RandomInUnitSphere | includes/vec3.h:144-155 | returns the first candidate with squared length below 1; every earlier one had squared length at least 1; none when every attempt was rejected |
| Vectors.RandomInUnitSphereAcceptsOrigin | includes/vec3.h:144-155 | one example: the draw triple `(2^30, 2^30, 2^30)` gives the origin, a candidate the loop accepts |
| Vectors.RandomUnitVector | includes/vec3.h:157-160 | the normalised point `random_in_unit_sphere` returned; `Vectors.RandomUnitVectorIsUnit` proves length 1 |
| Vectors.RandomUnitVectorIsUnit | includes/vec3.h:157-160 | `random_unit_vector` of an accepted non-zero point has length 1 |
| Vectors.Vec3Cell.constructor | includes/vec3.h:12-15 | a fresh three-element array holding the given components |
| Vectors.Vec3Cell.AddAssign | includes/vec3.h:25-31 | after `+=`, the array holds the components of the old value plus `v`; only the receiver's array changes |
| Vectors.Vec3Cell.MulAssign | includes/vec3.h:33-39 | after `*=`, the array holds `t` times the old value |
| Vectors.Vec3Cell.DivAssign | includes/vec3.h:41-44 | `/=` is `*= 1/t`: the new value is the old one divided by `t`, and `t` times the new value is the old value |
| Rays.RayFields | includes/ray.h:16-21 | `origin()` and `direction()` return the constructor arguments |
| Rays.At | includes/ray.h:23-26 | `at(t) - origin == t * direction` for every `t` |
| Rays.AtZero | includes/ray.h:23-26 | `at(0) == origin` |
| Rays.AtAffine | includes/ray.h:23-26 | `at(s) + t * direction == at(s + t)` |
| Hittable.FaceNormal | includes/hittable.h:17-21 | front face iff `dot(direction, outward) < 0`; the normal is `outward` or `-outward` accordingly; it never points along the ray; it has the squared length of `outward` |
| Hittable.Surrounds | includes/sphere.h:34-37 | `interval::surrounds`, the open test `min < x < max`, where `max` may be infinite |
| Hittable.HitRecord.constructor | includes/hittable.h:9-15 | a record holding the given hit |
| Hittable.HitRecord.SetFaceNormal | includes/hittable.h:17-21 | sets the front-face flag and the normal as `FaceNormal` says; the point, the parameter and the material are unchanged |
| Hittable.ValidHit | includes/hittable.h:17-28 | what a reported hit must satisfy: `t` strictly inside the window, the point `r.at(t)`, and a normal that never points along the ray, against it on a front face |
| Hittable.IsHittable | includes/hittable.h:25-29 | the abstract `hittable::hit`: every hit it reports is a `ValidHit` for the ray and the window asked about; `Spheres.SphereIsHittable` proves a sphere keeps it |
| Spheres.QuadA | includes/sphere.h:20 | `a = r.direction().length_squared()`; `Spheres.QuadraticRoot` uses it as the leading coefficient |
| Spheres.HalfB | includes/sphere.h:19-21 | `half_b = dot(origin - center, direction)`, the halved linear coefficient of `Spheres.QuadraticRoot` |
| Spheres.QuadC | includes/sphere.h:19-22 | `c = |origin - center|^2 - radius^2`, the constant of `Spheres.QuadraticRoot` |
| Spheres.Discriminant | includes/sphere.h:24 | `half_b^2 - a * c`; `Spheres.Intersect` misses when it is negative |
| Spheres.NearRoot | includes/sphere.h:33 | `(-half_b - sqrtd) / a`; `Spheres.ChooseRoot` tries it first and `Spheres.RootIsOnSphere` puts it on the sphere |
| Spheres.FarRoot | includes/sphere.h:36 | `(-half_b + sqrtd) / a`; `Spheres.ChooseRoot` tries it second and `Spheres.RootIsOnSphere` puts it on the sphere |
| Spheres.OutwardNormal | includes/sphere.h:43 | `(p - center) / radius`; `Spheres.OutwardNormalNegated` negates it under a negated radius |
| Spheres.Intersect | includes/sphere.h:17-48 | a negative discriminant is a miss; a hit carries the sphere's material |
| Spheres.IntersectIsValid | includes/sphere.h:33-45 | every hit has its parameter inside the window and its point at `r.at(t)` |
| Spheres.ChooseRoot | includes/sphere.h:33-39 | the near root is taken whenever the window surrounds it; otherwise the far root, if the window surrounds that; otherwise a miss |
| Spheres.RootSelection | includes/sphere.h:24-39 | a hit has `a != 0`, a non-negative discriminant, and one of the two roots; the result is the near root, else the far root, else a miss |
| Spheres.Record | includes/sphere.h:41-45 | the record holds `t`, `r.at(t)`, the sphere's material, and the face normal of `(p - center) / radius` |
| Spheres.RecordIsValid | includes/sphere.h:41-45 | a record in the window is a valid hit |
| Spheres.Hit | includes/sphere.h:17-48 | returns true iff the intersection finds a root in the window; on true the record holds that hit; on false the record is unchanged |
| Spheres.SphereIsHittable | includes/hittable.h:28 | a sphere keeps the `hittable::hit` contract |
| Spheres.RootIsOnSphere | includes/sphere.h:19-36 | given `sqrtd * sqrtd == discriminant` and `a != 0`, either root is a point on the sphere |
| Spheres.HitIsOnSphere | includes/sphere.h:17-48 | every reported hit point lies on the sphere |
| Spheres.QuadraticRoot | includes/sphere.h:24-36 | the two roots `(-half_b -/+ sqrtd) / a` solve `a t^2 + 2 half_b t + c == 0` |
| Spheres.NegativeRadius | includes/sphere.h:22-43 | negating the radius keeps hit or miss, `t`, the point and the material, and negates the outward normal; when the ray is not tangent to the sphere, it keeps the stored normal and flips the front-face flag |
| Spheres.OutwardNormalNegated | includes/sphere.h:43 | a negated radius negates the outward normal |
| Spheres.RecordNegated | includes/sphere.h:41-45 | a negated radius keeps the record's `t`, point and material; when the ray is not tangent to the sphere, it keeps the stored normal and flips the front-face flag |
| Materials.LambertianScattered | includes/material.h:25-38 | always scatters; the attenuation is the albedo; the origin is the hit point; the direction is `normal + random_unit_vector()` unless that sum is near zero, when it falls back to the normal; a normal that is not near zero gives a direction that is not near zero |
| Materials.LambertianScatter | includes/material.h:25-38 | the flag and the out-parameters are those of `LambertianScattered` |
| Materials.NewMetal | includes/material.h:44 | fuzz is `fmin(f, 1)`, so at most 1, and equal to `f` below 1; there is no lower clamp |
| Materials.MetalScattered | includes/material.h:46-56 | the attenuation is the albedo; the origin is the hit point; the direction is `reflect(unit_vector(r_in.direction()), normal) + fuzz * random_unit_vector()`; it succeeds iff that direction has a positive dot with the normal; with zero fuzz the direction is the mirror reflection |
| Materials.MetalScatter | includes/material.h:46-56 | the flag and the out-parameters are those of `MetalScattered` |
| Materials.MirrorScattersIffIncoming | includes/material.h:50-55 | a zero-fuzz metal scatters iff the ray arrives against the unit normal |
| Materials.Pow5 | includes/material.h:99 | the fifth power maps `[0, 1]` into `[0, 1]` and 0 to 0 |
| Materials.R0 | includes/material.h:97-98 | `((1 - ref_idx) / (1 + ref_idx))^2`; `Materials.ReflectanceBounds` rests on it lying in `[0, 1)` for a positive index |
| Materials.Reflectance | includes/material.h:95-100 | `r0 * (1 - r0) * (1 - cosine)^5` with `r0 = ((1 - idx) / (1 + idx))^2`, as written; `Materials.ReflectanceBounds` bounds it by 0.25 |
| Materials.ReflectanceBounds | includes/material.h:95-100 | `r0 * (1 - r0) * (1 - c)^5` lies in `[0, 0.25]` for `c` in `[0, 1]` and a positive index |
| Materials.ReflectanceAtNormalIncidence | includes/material.h:95-100 | at normal incidence the reflectance as written is 0 |
| Materials.RefractionRatio | includes/material.h:71 | `1 / ir` on a front face, `ir` otherwise |
| Materials.CosTheta | includes/material.h:74 | `fmin(dot(-unit, n), 1)` is at most 1 |
| Materials.SinTheta | includes/material.h:75 | `sqrt(1 - cos_theta^2)`; `Materials.DielectricDirection` tests it |
| Materials.CannotRefract | includes/material.h:77 | `refraction_ratio * sin_theta > 1`; `Materials.DielectricDirection` reflects whenever it holds |
| Materials.DielectricDirection | includes/material.h:77-86 | the direction is the reflection or the refraction; it reflects whenever `ratio * sin_theta > 1` or the reflectance exceeds the draw; it refracts whenever `ratio * sin_theta <= 1` and the reflectance does not exceed the draw |
| Materials.DielectricScattered | includes/material.h:67-90 | always scatters with attenuation `(1, 1, 1)` from the hit point, in the direction `DielectricDirection` chooses |
| Materials.DielectricScatter | includes/material.h:67-90 | the flag and the out-parameters are those of `DielectricScattered` |
| Materials.DielectricHeadOnPassesThrough | includes/material.h:67-90 | a ray whose unit direction is `-n`, for the unit normal `n`, passes straight through the glass |
| Materials.HeadOnDirection | includes/material.h:77-86 | head on, the chosen direction is `-n` |
| Materials.HeadOnRefraction | includes/vec3.h:167-173 | refraction of `-n` through a unit normal `n` is `-n` for any ratio |
| Materials.Scatter | includes/material.h:13-14 | the virtual call answers each material by its own rule: `LambertianScattered`, `MetalScattered` or `DielectricScattered`; the scattered ray starts at the hit point; Lambertian and dielectric always scatter; the attenuation is the albedo, or `(1, 1, 1)` for glass |
| Materials.ScatterAttenuationIsUnit | includes/material.h:13-14 | a material with albedo in `[0, 1]` attenuates by a factor in `[0, 1]` |
| Decimal.NatToString | includes/color.h:24-26 | the text of a natural number is a non-empty run of digits without a leading zero |
| Decimal.IntToString | includes/color.h:24-26 | `out << n` is digits, preceded by a minus sign for negative `n` |
| Decimal.NatToStringRoundTrip | includes/color.h:24-26 | the digits read back as the number |
| Decimal.IntToStringRoundTrip | includes/color.h:24-26 | the text of an `int` parses back to it |
| Decimal.IntToStringInjective | includes/color.h:24-26 | distinct numbers are written differently |
| Decimal.NatToStringShort | includes/color.h:24-26 | numbers below 1000 take at most three digits |
| Colors.LinearToGamma | includes/color.h:7-10 | for `x >= 0` the gamma value is non-negative and its square is `x` |
| Colors.Average | includes/color.h:19-22 | `(1.0 / samples_per_pixel) * c`; `Colors.AverageMonotone` proves it keeps the sign and the order |
| Colors.Channel | includes/color.h:24-26 | `static_cast<int>(256 * clamp(c, 0, 0.999))` lies in `[0, 255]`; it is 0 for `c <= 0` and 255 for `c >= 0.999` |
| Colors.ChannelOf | includes/color.h:19-26 | every emitted channel is in `[0, 255]` |
| Colors.Channels | includes/color.h:19-26 | the emitted triple is in byte range |
| Colors.WriteColor | includes/color.h:12-27 | the emitted line is the text of the three averaged, gamma-corrected, quantised channels |
| Colors.PixelText | includes/color.h:24-26 | the three channel values, separated by single spaces, then a newline; `Colors.PixelTextShape` states the shape and that each run parses back |
| Colors.BlackPixel | includes/color.h:19-26 | a zero accumulator with a non-zero sample count is written `0 0 0` |
| Colors.WhitePixel | includes/color.h:19-26 | an accumulator of `samples_per_pixel * (1, 1, 1)` is written `255 255 255` |
| Colors.ChannelMonotone | includes/color.h:19-26 | for non-negative values and a positive sample count, each channel is non-decreasing in the accumulated value |
| Colors.ChannelsMonotone | includes/color.h:19-26 | the triple is componentwise non-decreasing |
| Colors.AverageMonotone | includes/color.h:19-20 | averaging over a positive sample count keeps the sign and the order |
| Colors.PixelTextShape | includes/color.h:24-26 | the line is three digit runs of at most three digits, two single spaces and one final newline, and each run parses back as its channel |
| Cameras.SkyBlend | includes/camera.h:116-117 | `a = 0.5 * (unit_direction.y() + 1)`; `Cameras.SkyColorBounds` puts it in `[0, 1]` |
| Cameras.SkyColor | includes/camera.h:116-118 | the blend `(1 - a) * white + a * sky_blue` with `a = 0.5 * (unit_direction.y + 1)`; `Cameras.SkyColorBounds` bounds it |
| Cameras.SkyColorBounds | includes/camera.h:116-118 | the blend factor is in `[0, 1]`, and each component lies between the white and sky-blue endpoints |
| Cameras.SkyAtZenithAndNadir | includes/camera.h:116-118 | straight up gives sky blue; straight down gives white |
| Cameras.SkyOfVertical | includes/camera.h:116-118 | a unit direction with `y == 1` gives sky blue, and `y == -1` gives white |
| Cameras.VerticalUnit | includes/camera.h:116 | `unit_vector` of `(0, k, 0)` is `(0, 1, 0)` and of `(0, -k, 0)` is `(0, -1, 0)` for every `k > 0` with `sqrt(k * k) == k`; `Cameras.SkyAtZenithAndNadir` rests on it |
| Cameras.RayColor | includes/camera.h:101-119 | `ray_color` with `depth <= 0` is black, whatever the ray and the world; its other cases are `Cameras.RayColorCases` |
| Cameras.RayColorCases | includes/camera.h:106-118 | with bounces left: a miss gives the sky gradient `SkyColor`; a hit whose material does not scatter gives black; a scattered hit gives `attenuation * ray_color(scattered, depth - 1)` |
| Cameras.EmptySceneIsSky | includes/camera.h:108-118 | when nothing is ever hit, every ray with bounces left gets the sky gradient of its own direction |
| Cameras.RayColorIsUnit | includes/camera.h:101-119 | in a world of materials with albedo in `[0, 1]`, every gathered colour is in `[0, 1]` |
| Cameras.MulUnit | includes/camera.h:111-112 | `attenuation * color` of two colours in `[0, 1]` stays in `[0, 1]`; `Cameras.RayColorIsUnit` uses it at each bounce |
| Cameras.EnclosedSceneIsBlack | includes/camera.h:108-113 | when every ray hits something, every path gathers black: light only comes from the background |
| Cameras.RayColorUsesDepthsUpTo | includes/camera.h:111-112 | the recursion scatters only at depths `1 .. depth`, so it ends within `depth` levels |
| Cameras.RayColorQueriesSceneInterval | includes/camera.h:108 | the world is only ever asked about `interval(0.001, infinity)` |
| Cameras.ImageHeight | includes/camera.h:37-38 | the image height is at least 1 and at least `trunc(width / aspect)`; it is `trunc(width / aspect)` when that is at least 1, and 1 when that is below 1 |
| Cameras.ImageHeightExamples | includes/camera.h:37-38 | 100 at aspect 1, 225 for width 400 at 16:9, and 1 for width 1 |
| Cameras.ViewportHeight | includes/camera.h:43-45 | `2 * tan(radians(vfov) / 2) * focus_dist`; `Cameras.Camera.InitializePixelGrid` uses it |
| Cameras.ViewportWidth | includes/camera.h:46 | `viewport_height * (image_width / image_height)`; `Cameras.Camera.InitializePixelGrid` uses it |
| Cameras.ViewportUpperLeft | includes/camera.h:62 | `center - focus_dist * w - viewport_u / 2 - viewport_v / 2`; `Cameras.ViewportIsCentred` states where it puts the grid |
| Cameras.Pixel00 | includes/camera.h:63 | `upper_left + 0.5 * (delta_u + delta_v)`; `Cameras.ViewportIsCentred` states where it puts the grid |
| Cameras.PixelCenterAt | includes/camera.h:73 | `pixel00 + i * delta_u + j * delta_v`; `Cameras.ViewportIsCentred` puts the grid's middle on the view axis |
| Cameras.ViewportIsCentred | includes/camera.h:54-63 | the centre of the pixel grid is `center - focus_dist * w` |
| Cameras.DefocusRadius | includes/camera.h:66 | `focus_dist * tan(radians(defocus_angle / 2))`; `Cameras.Camera.DefocusOriginInDisk` bounds the disk by it |
| Cameras.JitterOffset | includes/camera.h:84-85 | the jitter `-0.5 + random_double()` lies in `[-0.5, 0.5)` |
| Cameras.DiskPoint | includes/camera.h:98 | `center + p[0] * defocus_disk_u + p[1] * defocus_disk_v`; `Cameras.DiskPointWithinRadius` bounds its distance from the centre |
| Cameras.DiskPointWithinRadius | includes/camera.h:95-99 | a point of the unit disk maps within the defocus radius of the centre, for an orthonormal basis |
| Cameras.Camera.constructor | includes/camera.h:122-133 | the declared defaults of the public settings |
| Cameras.Camera.Initialize | includes/camera.h:35-69 | every derived field is what `initialize` computes from the settings; the settings are unchanged |
| Cameras.Camera.InitializeFrame | includes/camera.h:48-51 | `w`, `u` and `v` are the normalised camera basis |
| Cameras.Camera.InitializePixelGrid | includes/camera.h:42-63 | the pixel steps and the upper-left pixel centre follow from the viewport |
| Cameras.Camera.InitializeDefocusDisk | includes/camera.h:65-68 | the defocus disk basis is `u` and `v` scaled by `focus_dist * tan(defocus_angle / 2)` |
| Cameras.Camera.PixelSampleSquare | includes/camera.h:82-87 | the jitter is within half a pixel step along each pixel delta |
| Cameras.Camera.PixelSample | includes/camera.h:73-74 | the sample point is within the square of the pixel centre |
| Cameras.Camera.PixelCenter | includes/camera.h:73 | `pixel00_loc + i * pixel_delta_u + j * pixel_delta_v`; `Cameras.ViewportIsCentred` puts the grid's centre on the view axis |
| Cameras.Camera.GetRay | includes/camera.h:71-80 | the origin is the camera centre exactly when `defocus_angle <= 0`, and a defocus-disk point otherwise; `origin + direction` is the pixel sample, reached at `t = 1` |
| Cameras.Camera.DefocusDiskSample | includes/camera.h:95-99 | `center + p[0] * defocus_disk_u + p[1] * defocus_disk_v` for the unit-disk point `p`; `Cameras.Camera.DefocusOriginInDisk` bounds its distance from the centre |
| Cameras.Camera.DefocusOriginInDisk | includes/camera.h:95-99 | with an orthonormal frame, a defocus-disk origin lies within the defocus radius of the camera centre |
| Cameras.Camera.SampleColor | includes/camera.h:25-26 | `ray_color(get_ray(i, j), max_depth, world)` for one sample's draws; `Cameras.Camera.AccumulatePixel` sums it |
| Cameras.Camera.PixelSum | includes/camera.h:23-27 | the sum of the first `n` samples' colours, from black; `Cameras.Camera.AccumulatePixel` computes it |
| Cameras.Camera.PixelLine | includes/camera.h:23-28 | `write_color` of the pixel's sum over `samples_per_pixel` samples; `Cameras.Camera.ImageLayout` places it |
| Cameras.Camera.AccumulatePixel | includes/camera.h:22-27 | the pixel colour is the sum of exactly `samples_per_pixel` `ray_color` results, starting from black |
| Cameras.Camera.Row | includes/camera.h:22-29 | the lines of the first `n` pixels of row `j`; `Cameras.Camera.EmitRow` computes it and `Cameras.GridRowAt` indexes it |
| Cameras.Camera.Rows | includes/camera.h:20-29 | the lines of the first `m` rows; `Cameras.Camera.EmitRows` computes it and `Cameras.GridRowsAt` indexes it |
| Cameras.Camera.Image | includes/camera.h:18-29 | the header, then every row; `Cameras.Camera.EmitImage` computes it and `Cameras.Camera.ImageShape` and `Cameras.Camera.ImageLayout` describe it |
| Cameras.Camera.EmitRow | includes/camera.h:22-29 | row `j` is the lines of pixels `0 .. width - 1`, left to right |
| Cameras.Camera.EmitImage | includes/camera.h:18-29 | the output is the header, then the rows top to bottom |
| Cameras.Camera.Header | includes/camera.h:18 | `P3`, then the width and the height separated by a space, then `255`, each on its own line; `Cameras.Camera.ImageShape` states it heads the output |
| Cameras.Camera.EmitRows | includes/camera.h:20-29 | the outer loop emits rows `0 .. height - 1` of pixel lines, top to bottom |
| Cameras.Camera.RowsStep | includes/camera.h:20-29 | one more pass of the outer loop appends that row's lines after the earlier rows |
| Cameras.Camera.Render | includes/camera.h:14-32 | `render` initialises the derived fields and emits the image |
| Cameras.Camera.ImageShape | includes/camera.h:18-29 | the output is the header `P3`, width and height, `255`, followed by `width * height` pixel lines |
| Cameras.Camera.ImageLayout | includes/camera.h:20-29 | the pixel `(i, j)` line is output line `1 + j * width + i`: row-major, with `j` outer and `i` inner |
| Cameras.GridRowLength | includes/camera.h:22-29 | the inner loop over `n` pixels emits exactly `n` lines |
| Cameras.GridRowAt | includes/camera.h:22-29 | the inner loop emits pixel `i` of row `j` at position `i` |
| Cameras.GridRowsLength | includes/camera.h:20-29 | `m` rows of `width` lines have `m * width` lines |
| Cameras.GridRowsAt | includes/camera.h:20-29 | in `m` rows, the line of `(i, j)` is at `j * width + i` |

## Left out

- Floating point. The model is over exact reals. Rounding, NaN and
  `infinity` are not modelled. The upper end of `interval(0.001, infinity)`
  is the extended value `PosInfinity`.
- Division by zero is a precondition, not a NaN or infinity:
  - `Vectors.Div` requires `t != 0`, and `Vectors.Vec3Cell.DivAssign`
    takes a divisor of the subset type `NonZero`;
  - a sphere's radius is the subset type `NonZero`;
  - a dielectric's index is `Positive`;
  - the camera's `Initialize` requires a non-zero aspect ratio and width;
  - `Cameras.Camera.Render` and the raster methods require a non-zero
    sample count.
- Vectors.UnitVector: it does not model the NaN of a zero-length vector.
  It returns the zero vector unchanged.
- Spheres.Intersect: it does not model a zero direction (`a == 0`). It
  treats that case as a miss, because the IEEE roots are NaN and fail
  every window test.
- `interval.h` is not part of this model. `surrounds` is the open test
  `min < x < max`.
- `hittable_list.h` is not part of this model either. The world is any
  function from a ray and a window to an optional hit, and `IsHittable`
  states the contract it must keep. That contract does not require the
  hit to be the closest one along the ray, so no property in the model
  depends on closest-hit selection.
- The default constructor `ray()` is not modelled separately. It leaves
  the origin and the direction as zero vectors, which `Rays.Ray` can
  hold.
- The global state of `rand()`. Draws are parameters of type `RandDraw`,
  or come from the `Entropy` oracle. The order in which one expression
  consumes several draws is not modelled.
- The rejection loops run over a finite sequence of attempts. They report
  `None` when every attempt is rejected. The source loops forever, and it
  ends only with probability one.
- The `||` short-circuit in the dielectric scatter. The draw for the
  reflectance test is supplied whether or not total internal reflection
  already decided the direction.
- Stream I/O. The model returns the emitted text as a sequence of
  strings: the header, then one line per pixel. The progress messages on
  `std::clog` are not modelled. Neither are `operator<<` for vectors and
  `operator[]`.
- `Colors.WriteColor` returns the line instead of writing it to a stream.
- `pixel_sample_disk` is dead code and is not modelled.
- `random_int`: it does not model the overflow of `max + 1` at `INT_MAX`,
  because integers are unbounded.
- Cameras.ImageHeight: it does not model the undefined behaviour of
  `static_cast<int>` (camera.h:37) for a quotient outside the `int`
  range, because `Numerics.TruncToInt` returns an unbounded integer.
- Vectors.Refract: the physical correctness of refraction is not stated.
  Only the algebraic facts in the table are proved.
- Materials.Reflectance: it is stated as the code computes it, not as
  Schlick's approximation.
- `shared_ptr` ownership of materials. A hit record holds the material
  value.
- `src/main.cc`: the scene set-up and entry point are not part of this
  model.
- Cameras.Camera.AccumulatePixel: it does not model the in-place `+=` on
  the colour, because it keeps the running sum as a `Vec3` value. The
  in-place operations themselves are modelled on `Vectors.Vec3Cell`.
- Cameras.Camera.Initialize: it sets the image height and the camera
  centre, then runs three methods: the frame, the pixel grid (viewport
  dimensions, edges, steps and upper-left pixel) and the defocus disk.
  `initialize` computes the viewport dimensions before the frame. The
  two do not depend on each other, so the result is the same.
- Cameras.Camera.constructor: the nine vector fields start at zero, as
  the default `vec3` constructor makes them. `m_image_height` is
  indeterminate in the program until `render`. Here it starts at 0.
- Cameras.Camera.DefocusDiskSample: it takes the point
  `random_in_unit_disk` returned as an argument.
- Cameras.DiskPointWithinRadius: it states `|origin - center|^2 <= radius^2`,
  not the strict bound a point strictly inside the unit disk gives.
- Cameras.Camera.DefocusOriginInDisk: it states the same non-strict
  bound, and assumes an orthonormal `u`, `v` frame. It does not derive
  that frame from a non-degenerate `lookfrom`, `lookat` and `up`.
