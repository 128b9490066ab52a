# A verified model of a small Rust path tracer

This project models the core of a "ray tracing in one weekend" style renderer
written in Rust:

- the vector algebra of `Vec3D` and `Point3D`;
- rays and `point_at`;
- 8-bit RGBA colours, with their truncating casts and forced alpha;
- ray-sphere intersection and the nearest-hit scan of a `HitList`;
- the three materials (Lambertian, metal, dielectric) and their `scatter` decisions;
- the thin-lens camera;
- the integrator of `main.rs`. `color` follows a ray through up to 50 bounces.
  `render_world_pixels` averages 100 jittered samples per pixel, gamma-corrects
  them and emits the pixels row by row from the top.

The model is split into modules that follow the source files:

| module | file | source |
|---|---|---|
| `RealMath` | `real_math.dfy` | `f32` helpers: `sqrt`, `powi(5)`, `PI`, `f32::MAX` |
| `Wrappers` | `wrappers.dfy` | `Option` |
| `Vector` | `vector.dfy` | `src/grfx/vector.rs` |
| `Rays` | `ray.dfy` | `src/grfx/ray.rs` |
| `Colors` | `color.dfy` | `src/grfx/color.rs` |
| `Materials` | `material.dfy` | `src/grfx/material.rs` and `HitRecord` of `src/grfx/shape.rs` |
| `Shapes` | `shape.dfy` | `src/grfx/shape.rs` |
| `Cameras` | `camera.dfy` | `src/grfx/camera.rs` |
| `Render` | `render.dfy` | `color` and `render_world_pixels` in `src/main.rs` |

The source's values are Dafny datatypes: `Vec3D`, `Point3D`, `Color`, `Ray`,
`HitRecord`, `Sphere`, `Camera` and the three materials.

The operations that update a value in place are methods of small classes whose
fields are the value's fields:

- `Vec3DVar`: `+=`, `-=`, `*=`, `/=` and `make_unit`;
- `ColorVar`: `set_alpha`, `+=` and `-=`;
- `HitList`: `add`.

`HitList::hit` and `render_world_pixels` are methods with loops. Each is proved
against a specification function:

- `WorldHit` is a fold over the items;
- `Image` holds the pixels of the rows from the top.

`f32` arithmetic is exact `real` arithmetic. `sqrt` is a parameter that must
be a square root (`IsSqrt`), and `tan` is an unconstrained parameter. Every
random number is an input.

The behaviour is modelled as written, including these quirks:

- `*=` and `/=` scale `y` twice and leave `z` alone.
- `random_in_unit_disk` returns a point *outside* the unit disk.
- The pixel accumulators are reset only once per row.

Each quirk has a lemma that pins it down.

## Model

| member | source | states |
|---|---|---|
| `Vector.Neg` | src/grfx/vector.rs:125-130 | `-v` is the additive inverse: `v + (-v)` is the zero vector |
| `Vector.Div` | src/grfx/vector.rs:159-165 | division by a non-zero scalar (the source asserts `scalar != 0`) is undone by multiplying by it |
| `Vector.Cross` | src/grfx/vector.rs:100-106 | the cross product is orthogonal to both operands |
| `Vector.SquaredLength` | src/grfx/vector.rs:65-67 | the squared length is non-negative and zero exactly for the zero vector |
| `Vector.Length` | src/grfx/vector.rs:70-72 | the length is the non-negative square root of the squared length, zero exactly for the zero vector |
| `Vector.UnitVector` | src/grfx/vector.rs:86-88 | for a non-zero vector the result has squared length one and, scaled by the length, gives back the vector |
| `Vector.FromPoints` | src/grfx/vector.rs:46-48 | `origin + from_points(origin, dest) == dest` |
| `Vector.PointNeg` | src/grfx/vector.rs:242-247 | negating a point negates its position vector |
| `Vector.VecAddPoint` | src/grfx/vector.rs:250-255 | `(v + p) - p == v` |
| `Vector.PointAddVec` | src/grfx/vector.rs:258-263 | point + vector is the same point as vector + point |
| `Vector.Vec3DVar.constructor` | src/grfx/vector.rs:38-40 | a new vector holds exactly the three given components |
| `Vector.Vec3DVar.AddAssign` | src/grfx/vector.rs:133-139 | `+=` leaves the vector equal to `old + other` |
| `Vector.Vec3DVar.SubAssign` | src/grfx/vector.rs:142-148 | `-=` leaves the vector equal to `old - other` |
| `Vector.Vec3DVar.MulAssign` | src/grfx/vector.rs:183-190 | `*=` as written: `x` scaled once, `y` twice, `z` unchanged |
| `Vector.Vec3DVar.DivAssign` | src/grfx/vector.rs:192-200 | `/=` as written: `x` divided once, `y` twice, `z` unchanged; requires a non-zero divisor |
| `Vector.Vec3DVar.MakeUnit` | src/grfx/vector.rs:77-82 | `make_unit` leaves the vector equal to `unit_vector` of the old one, of squared length one |
| `Vector.SquaredLengthMul` | src/grfx/vector.rs:151-156 | scaling by `s` scales the squared length by `s * s` |
| `Vector.DotSymmetric` | src/grfx/vector.rs:91-93 | `dot(a, b) == dot(b, a)` |
| `Vector.DotExample` | src/grfx/vector.rs:91-93 | `dot((1,2,3), (1,2,3)) == 14` |
| `Vector.SquaredLengthIsDot` | src/grfx/vector.rs:65-67 | `squared_length(v) == dot(v, v)` |
| `Vector.CrossAntisymmetric` | src/grfx/vector.rs:100-106 | `cross(b, a) == -cross(a, b)` |
| `Vector.CrossSelfIsZero` | src/grfx/vector.rs:100-106 | `cross(a, a)` is the zero vector |
| `Vector.CrossExample` | src/grfx/vector.rs:100-106 | `cross((1,2,3), (3,4,5)) == (-2,4,-2)` |
| `Vector.CrossSquaredLength` | src/grfx/vector.rs:100-106 | Lagrange's identity: `|a x b|^2 == |a|^2 |b|^2 - (a . b)^2` |
| `Vector.DotSquaredBound` | src/grfx/vector.rs:91-93 | Cauchy-Schwarz: `(a . b)^2 <= |a|^2 |b|^2` |
| `Vector.MulExample` | src/grfx/vector.rs:151-156 | `(1,2,3) * 2 == (2,4,6)` |
| `Vector.DivExample` | src/grfx/vector.rs:159-165 | `(2,4,6) / 2 == (1,2,3)` |
| `Vector.MulDivRoundTrip` | src/grfx/vector.rs:151-165 | `v * s` is undone by `/ s`: `(v * s) / s == v` for `s != 0` |
| `Vector.ScalarMulScales` | src/grfx/vector.rs:203-216 | `s * v` is undone by `/ s` for `s != 0`, and scales the squared length by `s * s` |
| `Vector.MulAssigned` | src/grfx/vector.rs:183-190 | the value `*=` leaves: `x` of `v * s`, `y` of `(v * s) * s`, and `z` of `v` |
| `Vector.DivAssigned` | src/grfx/vector.rs:192-200 | the value `/=` leaves: `x` of `v / s`, `y` of `(v / s) / s`, and `z` of `v` |
| `Vector.PointSub` | src/grfx/vector.rs:235-240 | `p - q` is the vector that, added to `q` component-wise, gives `p` |
| `Vector.PointSubRoundTrip` | src/grfx/vector.rs:235-263 | `q + (p - q) == p` with the source's point-plus-vector operator |
| `Vector.AddSubRoundTrip` | src/grfx/vector.rs:111-123 | `+` and `-` of vectors undo each other: `(a + b) - b == a` |
| `Vector.MulAssignAgreesWithMulIff` | src/grfx/vector.rs:183-190 | `*=` agrees with `*` exactly when `y` is 0 or `s` is 0 or 1, and `z` is 0 or `s` is 1 |
| `Vector.MulAssignExample` | src/grfx/vector.rs:183-190 | `(1,2,3) *= 2` gives `(2,8,3)`, not `(2,4,6)` |
| `Vector.DivAssignAgreesWithDivIff` | src/grfx/vector.rs:192-200 | `/=` agrees with `/` exactly when `y` is 0 or `s` is 1, and `z` is 0 or `s` is 1 |
| `Vector.UnitVectorOfUnit` | src/grfx/vector.rs:86-88 | `unit_vector` leaves a vector of length one unchanged |
| `Rays.PointAt` | src/grfx/ray.rs:14-16 | `point_at(t) - origin == direction * t` |
| `Rays.PointAtZero` | src/grfx/ray.rs:14-16 | `point_at(0) == origin` |
| `Rays.PointAtShift` | src/grfx/ray.rs:14-16 | `point_at(s + t) == point_at(s) + direction * t` |
| `Colors.Rgb` | src/grfx/color.rs:25-27 | `rgb` stores the three channels and sets alpha to 255 |
| `Colors.Rgba` | src/grfx/color.rs:28-30 | `rgba` stores all four channels |
| `Colors.AsU8` | src/grfx/color.rs:107-109 | the `as u8` cast: 0 below zero, 255 from 255 up, and in between the integer part |
| `Colors.Difuse` | src/grfx/color.rs:50-57 | every channel of `a.difuse(b)` is `difuse_channel` of the two channels, so it is at most the channel of `a` and of `b`; alpha is 255 |
| `Colors.DifuseChannel` | src/grfx/color.rs:52-54 | `(a / 255 * c) as u8` is the integer part of `a * c / 255`, so it is at most `a` and at most `c` |
| `Colors.AsBytes` | src/grfx/color.rs:62-64 | four bytes from which `rgba` rebuilds the colour |
| `Colors.Add` | src/grfx/color.rs:68-73 | `+` of colours whose channel sums fit a byte; alpha 255 |
| `Colors.Sub` | src/grfx/color.rs:75-80 | `-` of colours whose channel differences are not negative; alpha 255 |
| `Colors.Mul` | src/grfx/color.rs:103-113 | every channel of `c * s` is `(channel * s) as u8`, and alpha is 255 |
| `Colors.Div` | src/grfx/color.rs:132-143 | for `s != 0` (the source asserts it) every channel of `c / s` is `(channel / s) as u8`, alpha is 255, and `c / s == c * (1 / s)` |
| `Colors.Decimal` | src/grfx/color.rs:46-48 | the decimal rendering of a number is a non-empty string of digits without leading zeros: it starts with `0` exactly for zero, and is then `"0"` |
| `Colors.ColorVar.constructor` | src/grfx/color.rs:28-30 | a new colour holds exactly the four given channels |
| `Colors.ColorVar.SetAlpha` | src/grfx/color.rs:58-60 | `set_alpha` changes the alpha channel and nothing else |
| `Colors.ColorVar.AddAssign` | src/grfx/color.rs:83-90 | `+=` leaves the colour equal to `old + other`, alpha 255 |
| `Colors.ColorVar.SubAssign` | src/grfx/color.rs:93-100 | `-=` leaves the colour equal to `old - other`, alpha 255 |
| `Colors.ConstantsAreOpaque` | src/grfx/color.rs:13-21 | every named colour constant has alpha 255 |
| `Colors.AddSubRoundTrip` | src/grfx/color.rs:68-80 | `(a + b) - b` is `a` with its alpha forced to 255 |
| `Colors.AddCommutes` | src/grfx/color.rs:68-73 | `a + b == b + a` |
| `Colors.MulByOneAndZero` | src/grfx/color.rs:103-113 | `c * 1` is `c` with alpha 255, and `c * 0` is `BLACK` |
| `Colors.MulDarkens` | src/grfx/color.rs:103-113 | scaling by `s` in [0, 1] never raises a channel |
| `Colors.ScalarMul` | src/grfx/color.rs:116-129 | every channel of `s * c` is `(s * channel) as u8`, and alpha is 255 |
| `Colors.ScaleChannel` | src/grfx/color.rs:107-109 | one channel is `(channel * s) as u8`, at most the channel when `s` is in [0, 1] |
| `Colors.DivideChannel` | src/grfx/color.rs:137-139 | one channel divided by `s` truncates like the channel scaled by `1 / s` |
| `Colors.BlendNoOverflow` | src/grfx/color.rs:103-113 | `a * (1 - t) + b * t` never overflows a channel for `t` in [0, 1] |
| `Colors.BlendChannel` | src/grfx/color.rs:107-109 | the two truncated shares of a blend of one channel add up to at most 255 |
| `Colors.WhiteDifuse` | src/grfx/color.rs:50-57 | `WHITE.difuse(c)` keeps `c`'s channels and sets alpha to 255 |
| `Colors.BlackDifuse` | src/grfx/color.rs:50-57 | `BLACK.difuse(c)` is `BLACK` |
| `Colors.DecimalRoundTrip` | src/grfx/color.rs:46-48 | reading back the decimal rendering of a number gives the number |
| `Colors.ParseDigitsLine` | src/grfx/color.rs:46-48 | a line of three digit strings separated by spaces and ended by a newline parses to the three numbers |
| `Colors.ToString` | src/grfx/color.rs:46-48 | `to_string` is the line `"r g b\n"`: parsing it gives back the three channels |
| `Colors.ToStringIgnoresAlpha` | src/grfx/color.rs:46-48 | `to_string` does not depend on alpha |
| `Materials.NewHitRecord` | src/grfx/shape.rs:18-25 | the default record has `t`, point and normal zero and a white Lambertian material |
| `Materials.SphereCandidate` | src/grfx/material.rs:53 | a candidate built from uniform numbers in [0, 1) lies in the cube [-1, 1)^3 |
| `Materials.RandomInUnitSphere` | src/grfx/material.rs:49-60 | the first candidate strictly inside the unit sphere, after only rejected ones; `None` exactly when every candidate is rejected |
| `Materials.FuzzOf` | src/grfx/material.rs:78-81 | the metal's fuzz is `min(fuzz, 1)`: the given value when it is at most one, one when it is larger, and one when none is given |
| `Materials.Facing` | src/grfx/material.rs:130-138 | leaving the surface: normal flipped, ratio `ref_idx` and cosine `ref_idx * dot(dir, normal) / |dir|`; entering it: normal kept, ratio `1 / ref_idx` and cosine `-dot(dir, normal) / |dir|` |
| `Materials.LambertianScatter` | src/grfx/material.rs:40-46 | always scatters, with the albedo as attenuation, from the hit point towards `normal + sample` |
| `Materials.MetalScatter` | src/grfx/material.rs:76-88 | attenuation is the albedo and origin the hit point; the direction is `reflect(unit(dir), normal) + p * fuzz`; scatters exactly when that direction faces the normal |
| `Materials.DialectricScatter` | src/grfx/material.rs:121-153 | always scatters with white attenuation from the hit point; when `refract` succeeds the ray is reflected if the draw is below `schlick(cosine, ref_idx)` and refracted otherwise; under total internal reflection it is reflected |
| `Materials.Scatter` | src/grfx/material.rs:39-153 | every material scatters from the hit point; glass always scatters with white attenuation, the others attenuate by their albedo; matte surfaces always scatter, metal exactly when the direction faces the normal |
| `Materials.ReflectFlipsNormal` | src/grfx/material.rs:91-93 | for a unit normal, `dot(reflect(v, n), n) == -dot(v, n)` |
| `Materials.ReflectKeepsLength` | src/grfx/material.rs:91-93 | for a unit normal, reflection keeps the length |
| `Materials.ReflectInvolution` | src/grfx/material.rs:91-93 | for a unit normal, `reflect(reflect(v, n), n) == v` |
| `Materials.RefractUnit` | src/grfx/material.rs:101-110 | for a unit normal, a successful refraction is a unit vector on the far side of the normal |
| `Materials.RefractIntoDenserSucceeds` | src/grfx/material.rs:101-110 | with `|ni_over_nt| < 1` refraction always succeeds (no total internal reflection) |
| `Materials.RefractSucceedsIff` | src/grfx/material.rs:101-110 | `refract` succeeds exactly when the discriminant `1 - ni_over_nt^2 (1 - dt^2)` is positive |
| `Materials.SchlickIsProbability` | src/grfx/material.rs:95-99 | for `ref_idx > 0` and a cosine in [0, 1], `schlick` lies in `[r0^2, 1]` |
| `Materials.SchlickEnds` | src/grfx/material.rs:95-99 | `schlick(1, r) == r0^2` and `schlick(0, r) == 1` |
| `Materials.LambertianScattersOutward` | src/grfx/material.rs:40-46 | a matte surface with a unit normal scatters strictly into the normal's hemisphere, never along a zero direction |
| `Materials.MetalMirror` | src/grfx/material.rs:76-88 | a metal without fuzz is a perfect mirror of unit direction; it scatters exactly when the ray comes from the front |
| `Materials.DialectricDirectionNonZero` | src/grfx/material.rs:121-153 | a dielectric with a unit normal never scatters along a zero direction |
| `Materials.ScatterDirectionNonZero` | src/grfx/material.rs:39-153 | no material with a unit normal scatters along a zero direction |
| `Shapes.SphereHit` | src/grfx/shape.rs:54-106 | a hit is reported only for a positive discriminant (a touching ray misses); it has `t` strictly inside `(min, max)`, the point `point_at(t)`, the normal `(point - center) / radius` and the sphere's material |
| `Shapes.SurfaceRecord` | src/grfx/shape.rs:89-101 | the record at `t` has that `t`, the point `point_at(t)`, the sphere's material and the normal `(point - center) / radius` |
| `Shapes.DiscriminantPositive` | src/grfx/shape.rs:74-83 | a positive discriminant implies a non-zero ray direction and a non-zero radius |
| `Shapes.RayQuadratic` | src/grfx/shape.rs:74-80 | the quadratic in `t` is the squared distance from `point_at(t)` to the centre minus `r^2` |
| `Shapes.Factor` | src/grfx/shape.rs:84-85 | the quadratic factors as `a (t - t1)(t - t2)` |
| `Shapes.Roots` | src/grfx/shape.rs:84-85 | for `a > 0`, `t1 < t2` and they are exactly the zeros of the quadratic |
| `Shapes.HitOnSurface` | src/grfx/shape.rs:89-101 | the reported point lies on the sphere and the normal `(point - center) / radius` has length one |
| `Shapes.HitIsFirst` | src/grfx/shape.rs:84-94 | no point of the ray before the reported `t` and after `min` lies on the sphere |
| `Shapes.MissIsMiss` | src/grfx/shape.rs:83-105 | on a miss no point of the ray in `(min, max)` lies on the sphere, unless the ray only touches it |
| `Shapes.SphereHitNarrow` | src/grfx/shape.rs:87-103 | lowering `max` to any bound above the hit does not change the hit |
| `Shapes.SphereHitWiden` | src/grfx/shape.rs:87-103 | a hit below `max2` is still the hit for any larger `max` |
| `Shapes.ClosestIsNearest` | src/grfx/shape.rs:137-147 | after any prefix of the items the record is one item's own hit, at most the `t` of every item's hit, and absent exactly when no item is hit |
| `Shapes.WorldHit` | src/grfx/shape.rs:135-150 | the hit of a list is one item's own hit, at most the `t` of every item's hit, and absent exactly when every item misses |
| `Shapes.HitList.constructor` | src/grfx/shape.rs:122-126 | a new list is empty |
| `Shapes.HitList.Add` | src/grfx/shape.rs:127-129 | `add` appends the item at the end |
| `Shapes.HitList.Get` | src/grfx/shape.rs:130-132 | `get(i)` is the i-th item when `i` is in range, and `None` otherwise |
| `Shapes.HitList.Hit` | src/grfx/shape.rs:135-150 | the scan reports a hit exactly when `WorldHit` finds one and then returns its record; on a miss the record is untouched |
| `Shapes.WorldHitFacts` | src/grfx/shape.rs:135-150 | the hit of a list lies in `(min, max)`, has a unit normal and the material of one of the items |
| `Cameras.NewCamera` | src/grfx/camera.rs:18-49 | the origin is `look_from`, the lens radius half the aperture, and `(u, v, w)` an orthonormal frame with `w` along `look_from - lookat` |
| `Cameras.CameraFrame` | src/grfx/camera.rs:31-33 | `u`, `v`, `w` have length one and are pairwise orthogonal, and `w` points from `lookat` to `look_from` |
| `Cameras.OrthonormalFrame` | src/grfx/camera.rs:31-33 | `unit(vup x w)` and `w x u` complete a unit `w` to an orthonormal frame |
| `Cameras.GetRay` | src/grfx/camera.rs:50-57 | `origin + direction` is the viewport point at `(s, t)`; with a zero lens radius the ray starts at the camera origin |
| `Cameras.ViewportCorners` | src/grfx/camera.rs:37-55 | the viewport point at `(0, 0)` is the lower left corner and at `(1, 1)` the opposite corner `lower_left + horizontal + vertical` |
| `Cameras.ViewportSpans` | src/grfx/camera.rs:28-43 | `horizontal` and `vertical` are perpendicular to each other and to `w`, with lengths `2 half_width focus_dist` and `2 half_height focus_dist` |
| `Cameras.AspectRatio` | src/grfx/camera.rs:29-43 | the horizontal span is `aspect` times the vertical span |
| `Cameras.ViewportCentred` | src/grfx/camera.rs:37-43 | the centre of the viewport is `look_from - focus_dist * w` |
| `Cameras.RayDepth` | src/grfx/camera.rs:37-57 | every camera ray has the component `-focus_dist` along `w`, so it is never zero when the focus distance is positive |
| `Cameras.DiskCandidate` | src/grfx/camera.rs:64-65 | a candidate has `z = 0` and, from uniform numbers in [0, 1), `x, y` in [-1, 1) |
| `Cameras.RandomInUnitDisk` | src/grfx/camera.rs:60-71 | as written: the first candidate with `p . p >= 1` (outside the unit disk), after only rejected ones; `None` exactly when every candidate is rejected |
| `Render.Sky` | src/main.rs:185-187 | the background blend has alpha 255 and never overflows, with blue at least 254 |
| `Render.BlendKeepsFullChannel` | src/main.rs:187 | blending a full channel with itself loses at most one unit to truncation |
| `Render.RayColor` | src/main.rs:170-188 | `color` always returns an opaque colour |
| `Render.WorldHitValid` | src/main.rs:172 | a hit on `(0.001, f32::MAX)` in a world of valid materials has a unit normal and a valid material |
| `Render.Bounces` | src/main.rs:175-180 | `color` recurses at most `50 - depth` times, so a call at depth 0 nests at most 51 calls (`RayColorOnHit` shows it counts exactly `color`'s recursive calls) |
| `Render.RayColorOnHit` | src/main.rs:170-183 | on a hit below depth 50, `color` is `attenuation.difuse(color(scattered, depth + 1))` when the material scatters and black when it absorbs; at depth 50 it is black |
| `Render.MissSeesSky` | src/main.rs:172-187 | a ray that no sphere hits in `(0.001, f32::MAX)` sees the sky; in an empty world every ray does |
| `Render.OpaqueSurfaceAbsorbs` | src/main.rs:175-183 | after a matte or metal hit every channel is at most that of the surface's albedo |
| `Render.GlassIsClear` | src/main.rs:175-180 | below the depth limit a dielectric scatters and its colour is exactly that of the scattered ray |
| `Render.SkyEnds` | src/main.rs:185-187 | straight up the sky is `(127, 180, 255)`, straight down it is white |
| `Render.FixedCameraFrames` | src/main.rs:107-119 | the fixed camera of the renderer can be framed and focuses in front of the eye |
| `Render.SampleRay` | src/main.rs:132-134 | every camera ray of a sample has a non-zero direction |
| `Render.SampleColor` | src/main.rs:132-136 | every sample colour is opaque |
| `Render.PixelOf` | src/main.rs:154-158 | a pixel built from the accumulators is opaque |
| `Render.SamplePixel` | src/main.rs:131-143 | the sample loop adds the 100 sample colours of the pixel, in order, to the running accumulators |
| `Render.FinishPixel` | src/main.rs:146-158 | the accumulators are divided by 100 and square-rooted, and the pixel is their cast times 255.99 |
| `Render.RenderRow` | src/main.rs:124-162 | one row is the `width` pixels from left to right, with the accumulators reset only at the start of the row |
| `Render.RenderWorldPixels` | src/main.rs:101-165 | the output is the rows from `height - 1` down to 0, each from left to right |
| `Render.RasterOrder` | src/main.rs:123-161 | pixel `(i, j)` is at index `(height - 1 - j) * width + i` of the output |
| `Render.ImageSize` | src/main.rs:101-165 | exactly `width * height` pixels are returned |
| `Render.SamplesAddUpTo` | src/main.rs:140-142 | each sample adds between 0 and 1 to every accumulator |
| `Render.AccumulatorBounded` | src/main.rs:124-155 | the accumulators stay in [0, 1.01] across a row, so `255.99 * value` may exceed 255 and saturate |
| `Render.GammaBound` | src/main.rs:146-152 | one gamma step maps a sum of at most 101.01 into [0, 1.01] |
| `Render.CarryOver` | src/main.rs:124-152 | the first pixel of a row is the gamma average of its own samples; every later pixel is at least that bright, and strictly brighter whenever the previous pixel left a non-zero value |

## Left out

- Floating point: `f32` rounding, overflow to infinity and NaN are not modelled; all arithmetic is exact over `real`. Constants that only matter in floating point, such as `f32::MAX` as an upper bound, are kept as plain reals.
- `sqrt` and `tan`: there is no real square root or tangent to call, so both are parameters. `sqrt` is required to return the non-negative root; `tan` is unconstrained.
- Randomness: `thread_rng` draws are inputs. `random_in_unit_sphere` and `random_in_unit_disk` loop until they accept a candidate. Their models scan a finite stream of draws and return `None` when it holds no accepted candidate. The scatter and render functions take an accepted sample as an input.
- Trait objects and `Rc`: the `Material` and `Hitable` traits, `Rc<dyn ...>` and dynamic dispatch are not modelled. `Material` is a datatype with one constructor per implementation, and a `HitList` holds spheres.
- `&mut` out-parameters are not modelled as written. `Sphere::hit` returns an `Option` of the record instead of filling `record`. `scatter` returns its boolean together with the attenuation and scattered ray. `refract` returns an `Option`.
- The `&Vec3D` and `&Color` operator variants compute the same values as the by-value ones, so each pair shares one function. `Vec3D::new`, `Point3D::new`, `Ray::new`, the accessors and `Default` are the datatype constructors and fields.
- `src/grfx/image.rs` (window and PPM output), `main` and `create_world` in `src/main.rs`, and `src/grfx/mod.rs` are not part of this model. They hold I/O and scene set-up.
- `Colors.Add`, `Colors.Sub`, `Colors.ColorVar.AddAssign`, `Colors.ColorVar.SubAssign`: a `u8` channel overflow panics in a debug build and wraps in a release build. The model requires that no channel overflows.
- `Materials.ValidMaterial`: `Dialectric::scatter` divides by `ref_idx` and `schlick` by `1 + ref_idx`. The refractive indices 0 and -1 are therefore excluded, rather than modelling the resulting infinities.
- `Materials.MetalScatter`, `Materials.DialectricScatter`, `Render.RayColor`: these take `unit_vector` of the ray direction, which asserts a non-zero length, so they require a non-zero direction. `Render.SampleRay` and `Materials.ScatterDirectionNonZero` prove that every ray the renderer traces meets this.
- `Render.RayColor`: its `ensures` states only that the result is opaque. What it computes is stated by `RayColorOnHit` for a hit and by `MissSeesSky` for a miss.
- `Render.GlassIsClear` also requires the hit material to be valid. That follows from a valid world, but is restated to keep the proof small.
- `Render.RenderWorldPixels`: the sample colours and the pixels are ghost tables given as parameters. `Sampled` ties them to `color` of each camera ray, and `Shaded` to the accumulators. The pixel loop is split into the methods `RenderRow`, `SamplePixel` and `FinishPixel`.
- `Render.Aspect`: `width as f32 / height as f32` is infinite or NaN for a zero height. The model uses 0 there, since an image without rows never shoots a ray.
- `Shapes.MissIsMiss`: a ray that only touches a sphere (zero discriminant) is a miss in the source too. The lemma excludes that case because the touching point may lie in `(min, max)`.
- `Colors.Difuse`: `a / 255 * c` is computed as `c * (a / 255)`, which is the same real number.
- `Vector.Vec3DVar.MakeUnit`: requires a non-zero vector. The source's `make_unit` has no assertion and leaves NaN fields for a zero vector, where `unit_vector` panics.
