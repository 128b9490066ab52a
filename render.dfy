/** The integrator of `main.rs`: `color`, which follows a ray through the
    world for at most 50 bounces, and `render_world_pixels`, which averages
    100 camera rays per pixel and emits the pixels row by row from the top.
    All randomness is an input: each sample's draws come from a function of
    the pixel and sample index. */
module Render {
  import opened RealMath
  import opened Wrappers
  import opened Vector
  import opened Rays
  import opened Materials
  import opened Shapes
  import opened Cameras
  import Colors

  /** `color` stops scattering once `depth` reaches 50. */
  const MAX_DEPTH: int := 50
  /** The nearest ray parameter `color` accepts as a hit. */
  const T_MIN: real := 0.001
  /** `ns`: samples per pixel. */
  const SAMPLES: nat := 100

  /** Every material in the world can scatter without dividing by zero. */
  predicate ValidWorld(world: seq<Sphere>) {
    forall k :: 0 <= k < |world| ==> ValidMaterial(world[k].material)
  }

  /** Every draw is one the random generators can produce. */
  predicate ValidDraws(draws: seq<ScatterDraw>) {
    forall k :: 0 <= k < |draws| ==> ValidDraw(draws[k])
  }

  // ---------------------------------------------------------------------------
  // color

  /** The background of a missed ray: white blended towards (127, 180, 255)
      as the unit direction turns upwards.  The blend never overflows a
      channel, and blue stays saturated. */
  function Sky(ray: Ray, sqrt: real -> real): (c: Colors.Color)
    requires IsSqrt(sqrt) && ray.direction != Zero
    ensures c.alpha == 255 && c.b >= 254
  {
    var unit := UnitVector(ray.direction, sqrt);
    UnitComponentBound(unit);
    var t := 0.5 * (unit.y + 1.0);
    Colors.BlendNoOverflow(Colors.Rgb(255, 255, 255), Colors.Rgb(127, 180, 255), t);
    BlendKeepsFullChannel(t);
    Colors.Add(Colors.Mul(Colors.Rgb(255, 255, 255), 1.0 - t), Colors.Mul(Colors.Rgb(127, 180, 255), t))
  }

  /** Two truncated shares of a full channel lose at most one unit. */
  lemma BlendKeepsFullChannel(t: real)
    requires 0.0 <= t <= 1.0
    ensures Colors.ScaleChannel(255, 1.0 - t) + Colors.ScaleChannel(255, t) >= 254
  {
    var p, q := Colors.Scaled(255, 1.0 - t), Colors.Scaled(255, t);
    assert p + q == 255.0;
  }

  /** `color(ray, world, depth)`: on a hit in (0.001, f32::MAX), the
      attenuation of the scatter applied to the colour of the scattered ray,
      as long as `depth < 50` and the material scatters; black otherwise.  On
      a miss, the sky.  Bounce `n` (counted from 0) uses `draws[n]`. */
  function RayColor(ray: Ray, world: seq<Sphere>, depth: int, draws: seq<ScatterDraw>,
                    sqrt: real -> real): (c: Colors.Color)
    requires IsSqrt(sqrt) && ray.direction != Zero && ValidWorld(world)
    requires MAX_DEPTH - depth <= |draws| && ValidDraws(draws)
    ensures c.alpha == 255
    decreases MAX_DEPTH - depth
  {
    var hit := WorldHit(world, ray, T_MIN, F32_MAX, sqrt);
    if hit.None? then Sky(ray, sqrt)
    else
      WorldHitValid(world, ray, sqrt);
      var rec := hit.value;
      if depth < MAX_DEPTH then
        var sc := Scatter(ray, rec, draws[0], sqrt);
        if sc.scatters then
          ScatterDirectionNonZero(ray, rec, draws[0], sqrt);
          Colors.Difuse(sc.attenuation, RayColor(sc.scattered, world, depth + 1, draws[1..], sqrt))
        else
          Colors.BLACK
      else
        Colors.BLACK
  }

  /** A hit of a valid world has a unit normal and a valid material. */
  lemma WorldHitValid(world: seq<Sphere>, ray: Ray, sqrt: real -> real)
    requires IsSqrt(sqrt) && ValidWorld(world) && WorldHit(world, ray, T_MIN, F32_MAX, sqrt).Some?
    ensures SquaredLength(WorldHit(world, ray, T_MIN, F32_MAX, sqrt).value.normal) == 1.0
    ensures ValidMaterial(WorldHit(world, ray, T_MIN, F32_MAX, sqrt).value.material)
  {
    WorldHitFacts(world, ray, T_MIN, F32_MAX, sqrt);
    var h := WorldHit(world, ray, T_MIN, F32_MAX, sqrt).value;
    var k :| 0 <= k < |world| && h.material == world[k].material;
  }

  /** How many times `color` calls itself for this ray: never more than the
      depths left below 50, so a call at depth 0 nests at most 51 calls. */
  function Bounces(ray: Ray, world: seq<Sphere>, depth: int, draws: seq<ScatterDraw>,
                   sqrt: real -> real): (n: nat)
    requires IsSqrt(sqrt) && ray.direction != Zero && ValidWorld(world)
    requires MAX_DEPTH - depth <= |draws| && ValidDraws(draws)
    ensures depth < MAX_DEPTH ==> n <= MAX_DEPTH - depth
    ensures depth >= MAX_DEPTH ==> n == 0
    decreases MAX_DEPTH - depth
  {
    var hit := WorldHit(world, ray, T_MIN, F32_MAX, sqrt);
    if hit.None? then 0
    else
      WorldHitValid(world, ray, sqrt);
      var rec := hit.value;
      if depth < MAX_DEPTH then
        var sc := Scatter(ray, rec, draws[0], sqrt);
        if sc.scatters then
          ScatterDirectionNonZero(ray, rec, draws[0], sqrt);
          1 + Bounces(sc.scattered, world, depth + 1, draws[1..], sqrt)
        else
          0
      else
        0
  }

  /** What `color` returns on a hit.  Below the depth limit, when the hit
      material scatters, it is the attenuation `difuse`d with the colour of
      the scattered ray one level deeper; when the material absorbs the ray,
      black.  At the depth limit it is black.  `Bounces` counts exactly these
      recursive calls. */
  lemma RayColorOnHit(ray: Ray, world: seq<Sphere>, depth: int, draws: seq<ScatterDraw>, sqrt: real -> real)
    requires IsSqrt(sqrt) && ray.direction != Zero && ValidWorld(world)
    requires MAX_DEPTH - depth <= |draws| && ValidDraws(draws)
    requires WorldHit(world, ray, T_MIN, F32_MAX, sqrt).Some?
    ensures var rec := WorldHit(world, ray, T_MIN, F32_MAX, sqrt).value;
            && ValidMaterial(rec.material) && SquaredLength(rec.normal) == 1.0
            && (MAX_DEPTH <= depth ==>
                  RayColor(ray, world, depth, draws, sqrt) == Colors.BLACK
                  && Bounces(ray, world, depth, draws, sqrt) == 0)
            && (depth < MAX_DEPTH ==>
                  var sc := Scatter(ray, rec, draws[0], sqrt);
                  && (sc.scatters ==> sc.scattered.direction != Zero)
                  && RayColor(ray, world, depth, draws, sqrt)
                     == (if sc.scatters
                         then Colors.Difuse(sc.attenuation, RayColor(sc.scattered, world, depth + 1, draws[1..], sqrt))
                         else Colors.BLACK)
                  && Bounces(ray, world, depth, draws, sqrt)
                     == (if sc.scatters then 1 + Bounces(sc.scattered, world, depth + 1, draws[1..], sqrt) else 0))
  {
    WorldHitValid(world, ray, sqrt);
    if depth < MAX_DEPTH {
      var rec := WorldHit(world, ray, T_MIN, F32_MAX, sqrt).value;
      ScatterDirectionNonZero(ray, rec, draws[0], sqrt);
    }
  }

  /** A ray that misses everything sees the sky; in an empty world every ray does. */
  lemma MissSeesSky(ray: Ray, world: seq<Sphere>, depth: int, draws: seq<ScatterDraw>, sqrt: real -> real)
    requires IsSqrt(sqrt) && ray.direction != Zero && ValidWorld(world)
    requires MAX_DEPTH - depth <= |draws| && ValidDraws(draws)
    ensures (forall k :: 0 <= k < |world| ==> SphereHit(world[k], ray, T_MIN, F32_MAX, sqrt).None?) ==>
            RayColor(ray, world, depth, draws, sqrt) == Sky(ray, sqrt)
    ensures world == [] ==> RayColor(ray, world, depth, draws, sqrt) == Sky(ray, sqrt)
  {
  }

  /** A matte or metal surface can only darken: every channel of the colour
      is at most the channel of the albedo of the surface hit first. */
  lemma OpaqueSurfaceAbsorbs(ray: Ray, world: seq<Sphere>, depth: int, draws: seq<ScatterDraw>, sqrt: real -> real)
    requires IsSqrt(sqrt) && ray.direction != Zero && ValidWorld(world)
    requires MAX_DEPTH - depth <= |draws| && ValidDraws(draws)
    requires WorldHit(world, ray, T_MIN, F32_MAX, sqrt).Some?
    requires !WorldHit(world, ray, T_MIN, F32_MAX, sqrt).value.material.Dialectric?
    ensures var a := WorldHit(world, ray, T_MIN, F32_MAX, sqrt).value.material.albedo;
            var c := RayColor(ray, world, depth, draws, sqrt);
            c.r <= a.r && c.g <= a.g && c.b <= a.b
  {
  }

  /** Glass absorbs nothing: below the depth limit, the colour seen through
      a dielectric is exactly the colour of the scattered ray. */
  lemma GlassIsClear(ray: Ray, world: seq<Sphere>, depth: int, draws: seq<ScatterDraw>, sqrt: real -> real)
    requires IsSqrt(sqrt) && ray.direction != Zero && ValidWorld(world)
    requires MAX_DEPTH - depth <= |draws| && ValidDraws(draws)
    requires depth < MAX_DEPTH && WorldHit(world, ray, T_MIN, F32_MAX, sqrt).Some?
    requires WorldHit(world, ray, T_MIN, F32_MAX, sqrt).value.material.Dialectric?
    requires ValidMaterial(WorldHit(world, ray, T_MIN, F32_MAX, sqrt).value.material)
    ensures var rec := WorldHit(world, ray, T_MIN, F32_MAX, sqrt).value;
            var sc := Scatter(ray, rec, draws[0], sqrt);
            && sc.scatters && sc.scattered.direction != Zero
            && RayColor(ray, world, depth, draws, sqrt) == RayColor(sc.scattered, world, depth + 1, draws[1..], sqrt)
  {
    var rec := WorldHit(world, ray, T_MIN, F32_MAX, sqrt).value;
    WorldHitValid(world, ray, sqrt);
    var sc := Scatter(ray, rec, draws[0], sqrt);
    ScatterDirectionNonZero(ray, rec, draws[0], sqrt);
    Colors.WhiteDifuse(RayColor(sc.scattered, world, depth + 1, draws[1..], sqrt));
  }

  /** The unit vector of a vertical direction is straight up or straight down. */
  lemma VerticalUnit(k: real, sqrt: real -> real)
    requires IsSqrt(sqrt) && k != 0.0
    ensures UnitVector(Vec3D(0.0, k, 0.0), sqrt) == Vec3D(0.0, if k > 0.0 then 1.0 else -1.0, 0.0)
  {
    var v := Vec3D(0.0, k, 0.0);
    var m := if k > 0.0 then k else -k;
    assert SquaredLength(v) == m * m;
    SqrtUnique(sqrt, m * m, m);
    assert Length(v, sqrt) == m;
  }

  /** Looking straight up gives the sky colour (127, 180, 255); looking
      straight down gives white. */
  lemma SkyEnds(ray: Ray, k: real, sqrt: real -> real)
    requires IsSqrt(sqrt) && k != 0.0 && ray.direction == Vec3D(0.0, k, 0.0)
    ensures k > 0.0 ==> Sky(ray, sqrt) == Colors.Rgb(127, 180, 255)
    ensures k < 0.0 ==> Sky(ray, sqrt) == Colors.WHITE
  {
    VerticalUnit(k, sqrt);
  }

  // ---------------------------------------------------------------------------
  // render_world_pixels

  /** The camera of `render_world_pixels`. */
  const LOOK_FROM := Vec3D(6.0, 1.0, 2.0)
  const LOOK_AT := Vec3D(4.0, 1.0, 1.0)
  const VUP := Vec3D(0.0, 1.0, 0.0)
  const POV: real := 60.0
  const APERTURE: real := 0.01

  /** `dist_to_focus`: the distance from the eye to the target. */
  function FocusDist(sqrt: real -> real): real
    requires IsSqrt(sqrt)
  {
    Length(Sub(LOOK_FROM, LOOK_AT), sqrt)
  }

  /** `width as f32 / height as f32`; an image without rows never uses it. */
  function Aspect(width: nat, height: nat): real {
    if height == 0 then 0.0 else width as real / height as real
  }

  /** The fixed camera can be framed, and it focuses in front of the eye. */
  lemma FixedCameraFrames(sqrt: real -> real)
    requires IsSqrt(sqrt)
    ensures CanFrame(LOOK_FROM, LOOK_AT, VUP, sqrt) && 0.0 < FocusDist(sqrt)
  {
    var d := Sub(LOOK_FROM, LOOK_AT);
    assert d == Vec3D(2.0, 0.0, 1.0);
    var w := UnitVector(d, sqrt);
    var len := Length(d, sqrt);
    assert w.x * len == 2.0;
    assert w.x != 0.0;
    assert Cross(VUP, w).z == -w.x;
  }

  /** The random input of one sample: the two jitters of the pixel position,
      the lens sample `random_in_unit_disk` returned, and the draws of every
      bounce `color` may take. */
  datatype SampleDraw = SampleDraw(du: real, dv: real, disk: Vec3D, bounces: seq<ScatterDraw>)

  predicate ValidSample(d: SampleDraw) {
    && 0.0 <= d.du < 1.0 && 0.0 <= d.dv < 1.0
    && d.disk.z == 0.0 && Dot(d.disk, d.disk) >= 1.0
    && MAX_DEPTH <= |d.bounces| && ValidDraws(d.bounces)
  }

  /** Everything `render_world_pixels` depends on: the world, the image size,
      the draws of sample `k` of pixel `(i, j)`, and the `sqrt` and `tan` it calls. */
  datatype Job = Job(world: seq<Sphere>, width: nat, height: nat,
                     draws: (nat, nat, nat) -> SampleDraw, sqrt: real -> real, tan: real -> real)

  ghost predicate ValidJob(job: Job) {
    && IsSqrt(job.sqrt) && ValidWorld(job.world)
    && forall i: nat, j: nat, k: nat :: ValidSample(job.draws(i, j, k))
  }

  function JobCamera(job: Job): Camera
    requires ValidJob(job)
  {
    FixedCameraFrames(job.sqrt);
    NewCamera(LOOK_FROM, LOOK_AT, VUP, POV, Aspect(job.width, job.height), APERTURE,
              FocusDist(job.sqrt), job.sqrt, job.tan)
  }

  /** The camera ray of sample `k` of pixel `(i, j)`, through
      `((i + du) / width, (j + dv) / height)`; it never has a zero direction. */
  function SampleRay(job: Job, i: nat, j: nat, k: nat): (r: Ray)
    requires ValidJob(job) && i < job.width && j < job.height
    ensures r.direction != Zero
  {
    var d := job.draws(i, j, k);
    var u := (i as real + d.du) / job.width as real;
    var v := (j as real + d.dv) / job.height as real;
    FixedCameraFrames(job.sqrt);
    RayDepth(LOOK_FROM, LOOK_AT, VUP, POV, Aspect(job.width, job.height), APERTURE,
             FocusDist(job.sqrt), job.sqrt, job.tan, u, v, d.disk);
    GetRay(JobCamera(job), u, v, d.disk)
  }

  /** The colour of sample `k` of pixel `(i, j)`: `color` of the camera ray at depth 0. */
  function SampleColor(job: Job, i: nat, j: nat, k: nat): (c: Colors.Color)
    requires ValidJob(job) && i < job.width && j < job.height
    ensures c.alpha == 255
  {
    RayColor(SampleRay(job, i, j, k), job.world, 0, job.draws(i, j, k).bounces, job.sqrt)
  }

  /** `samples(i, j, k)` is the colour of sample `k` of pixel `(i, j)`, for
      every pixel of the image. */
  ghost predicate Sampled(job: Job, samples: (nat, nat, nat) -> Colors.Color) {
    && ValidJob(job)
    && forall i: nat, j: nat, k: nat {:trigger SampleColor(job, i, j, k)} ::
         i < job.width && j < job.height ==> samples(i, j, k) == SampleColor(job, i, j, k)
  }

  /** The sample colours of the whole image, as a function of `(i, j, k)`
      (black outside the image, where no sample is taken). */
  ghost function JobSamples(job: Job): (samples: (nat, nat, nat) -> Colors.Color)
    requires ValidJob(job)
    ensures Sampled(job, samples)
  {
    (i: nat, j: nat, k: nat) => if i < job.width && j < job.height then SampleColor(job, i, j, k) else Colors.BLACK
  }

  // The accumulation, gamma correction and raster order below are stated
  // for any sample colours `samples(i, j, k)`.

  /** The accumulators `red`, `green` and `blue`. */
  datatype Channels = Channels(red: real, green: real, blue: real)

  /** `red += col.r() as f32 / 255.0`, and likewise for green and blue. */
  function AddSample(acc: Channels, c: Colors.Color): Channels {
    Channels(acc.red + c.r as real / 255.0, acc.green + c.g as real / 255.0, acc.blue + c.b as real / 255.0)
  }

  /** The colours of the 100 samples of pixel `(i, j)`, in the order taken. */
  function PixelSamples(samples: (nat, nat, nat) -> Colors.Color, i: nat, j: nat): (cs: seq<Colors.Color>)
    ensures |cs| == SAMPLES
  {
    seq(SAMPLES, k requires 0 <= k => samples(i, j, k))
  }

  /** The accumulators after adding the colours `cs` in order, starting from `acc`. */
  function SumSamples(acc: Channels, cs: seq<Colors.Color>): Channels {
    if cs == [] then acc else AddSample(SumSamples(acc, cs[..|cs| - 1]), cs[|cs| - 1])
  }

  /** `red /= ns; red = red.sqrt()`, and likewise for green and blue. */
  function GammaCorrect(acc: Channels, sqrt: real -> real): Channels {
    Channels(sqrt(acc.red / SAMPLES as real), sqrt(acc.green / SAMPLES as real), sqrt(acc.blue / SAMPLES as real))
  }

  /** The accumulators after pixel `i` of row `j`.  They are reset only at the
      start of a row, so pixel `i + 1` starts from pixel `i`'s gamma-corrected
      value rather than from zero. */
  function AfterPixel(samples: (nat, nat, nat) -> Colors.Color, sqrt: real -> real, i: nat, j: nat): Channels {
    var start := if i == 0 then Channels(0.0, 0.0, 0.0) else AfterPixel(samples, sqrt, i - 1, j);
    GammaCorrect(SumSamples(start, PixelSamples(samples, i, j)), sqrt)
  }

  /** `Color::rgb((red * 255.99) as u8, ...)` */
  function PixelOf(acc: Channels): (c: Colors.Color)
    ensures c.alpha == 255
  {
    Colors.Rgb(Colors.AsU8(acc.red * 255.99), Colors.AsU8(acc.green * 255.99), Colors.AsU8(acc.blue * 255.99))
  }

  /** `pixel(i, j)` is the cast of the accumulators after pixel `i` of row
      `j`, for every pixel. */
  ghost predicate Shaded(samples: (nat, nat, nat) -> Colors.Color, sqrt: real -> real, pixel: (nat, nat) -> Colors.Color) {
    forall i: nat, j: nat {:trigger AfterPixel(samples, sqrt, i, j)} :: pixel(i, j) == PixelOf(AfterPixel(samples, sqrt, i, j))
  }

  /** The pixel colours of the image as a function of `(i, j)`. */
  function Pixels(samples: (nat, nat, nat) -> Colors.Color, sqrt: real -> real): (pixel: (nat, nat) -> Colors.Color)
    ensures Shaded(samples, sqrt, pixel)
  {
    (i: nat, j: nat) => PixelOf(AfterPixel(samples, sqrt, i, j))
  }

  /** The first `n` pixels of row `j`, left to right. */
  function Row(pixel: (nat, nat) -> Colors.Color, j: nat, n: nat): (row: seq<Colors.Color>)
    ensures |row| == n
  {
    seq(n, i requires 0 <= i => pixel(i, j))
  }

  /** Finishing pixel `n` of a row appends it to the row. */
  lemma RowStep(pixel: (nat, nat) -> Colors.Color, j: nat, n: nat)
    ensures Row(pixel, j, n + 1) == Row(pixel, j, n) + [pixel(n, j)]
  {
    assert Row(pixel, j, n + 1)[..n] == Row(pixel, j, n);
  }

  /** Where the `r`-th row emitted starts in the image: `r * w`, built up
      row by row. */
  function Offset(r: nat, w: nat): nat {
    if r == 0 then 0 else Offset(r - 1, w) + w
  }

  lemma {:induction false} OffsetIsProduct(r: nat, w: nat)
    ensures Offset(r, w) == r * w
  {
    if r > 0 {
      OffsetIsProduct(r - 1, w);
      assert r * w == (r - 1) * w + w;
    }
  }

  /** The pixels of the first `k` rows emitted: rows `height - 1` down to
      `height - k`, each `width` pixels long. */
  function Image(pixel: (nat, nat) -> Colors.Color, width: nat, height: nat, k: nat): (image: seq<Colors.Color>)
    requires k <= height
    ensures |image| == Offset(k, width)
  {
    if k == 0 then [] else Image(pixel, width, height, k - 1) + Row(pixel, height - k, width)
  }

  /** Adding one more sample colour to the running sums. */
  lemma SumStep(acc: Channels, cs: seq<Colors.Color>, s: nat)
    requires s < |cs|
    ensures SumSamples(acc, cs[..s + 1]) == AddSample(SumSamples(acc, cs[..s]), cs[s])
  {
    assert cs[..s + 1][..s] == cs[..s];
  }

  /** The sample loop of one pixel: adds the colours of the 100 samples of
      pixel `(i, j)`, in order, to the running accumulators. */
  method SamplePixel(job: Job, ghost samples: (nat, nat, nat) -> Colors.Color, cam: Camera, i: nat, j: nat,
                     red0: real, green0: real, blue0: real)
    returns (red: real, green: real, blue: real)
    requires Sampled(job, samples) && i < job.width && j < job.height
    requires cam == JobCamera(job)
    ensures Channels(red, green, blue) == SumSamples(Channels(red0, green0, blue0), PixelSamples(samples, i, j))
  {
    ghost var cs := PixelSamples(samples, i, j);
    red, green, blue := red0, green0, blue0;
    var s := 0;
    while s < SAMPLES
      invariant 0 <= s <= SAMPLES
      invariant Channels(red, green, blue) == SumSamples(Channels(red0, green0, blue0), cs[..s])
    {
      var d := job.draws(i, j, s);
      var u := (i as real + d.du) / job.width as real;
      var v := (j as real + d.dv) / job.height as real;
      var r := GetRay(cam, u, v, d.disk);
      assert r == SampleRay(job, i, j, s);
      var col := RayColor(r, job.world, 0, d.bounces, job.sqrt);
      assert col == cs[s] by {
        assert col == SampleColor(job, i, j, s);
      }
      SumStep(Channels(red0, green0, blue0), cs, s);
      red := red + col.r as real / 255.0;
      green := green + col.g as real / 255.0;
      blue := blue + col.b as real / 255.0;
      s := s + 1;
    }
    assert cs[..SAMPLES] == cs;
  }

  /** The end of one pixel: average the sums over the samples, take their
      square roots (gamma 2) and cast the channels to bytes. */
  method FinishPixel(red0: real, green0: real, blue0: real, sqrt: real -> real)
    returns (red: real, green: real, blue: real, col: Colors.Color)
    ensures Channels(red, green, blue) == GammaCorrect(Channels(red0, green0, blue0), sqrt)
    ensures col == PixelOf(Channels(red, green, blue))
  {
    red, green, blue := red0 / SAMPLES as real, green0 / SAMPLES as real, blue0 / SAMPLES as real;
    red, green, blue := sqrt(red), sqrt(green), sqrt(blue);
    col := Colors.Rgb(Colors.AsU8(red * 255.99), Colors.AsU8(green * 255.99), Colors.AsU8(blue * 255.99));
  }

  /** One row of the image: the accumulators start at zero, and each pixel
      adds its 100 samples, averages, gamma-corrects and is cast to bytes. */
  method RenderRow(job: Job, ghost samples: (nat, nat, nat) -> Colors.Color, ghost pixel: (nat, nat) -> Colors.Color,
                   cam: Camera, j: nat)
    returns (row: seq<Colors.Color>)
    requires Sampled(job, samples) && Shaded(samples, job.sqrt, pixel) && j < job.height
    requires cam == JobCamera(job)
    ensures row == Row(pixel, j, job.width)
  {
    var red, green, blue := 0.0, 0.0, 0.0;
    row := [];
    var i := 0;
    while i < job.width
      invariant 0 <= i <= job.width
      invariant row == Row(pixel, j, i)
      invariant Channels(red, green, blue) == PixelStart(samples, job.sqrt, i, j)
    {
      ghost var start := Channels(red, green, blue);
      red, green, blue := SamplePixel(job, samples, cam, i, j, red, green, blue);
      var col;
      red, green, blue, col := FinishPixel(red, green, blue, job.sqrt);
      PixelStep(samples, job.sqrt, i, j, start);
      RowStep(pixel, j, i);
      row := row + [col];
      i := i + 1;
    }
  }

  /** `render_world_pixels`: for each row from the top, and each pixel from
      the left, sum 100 samples of `color` into the row's accumulators, gamma
      correct them and push the pixel. */
  method RenderWorldPixels(world: HitList, width: nat, height: nat, draws: (nat, nat, nat) -> SampleDraw,
                           sqrt: real -> real, tan: real -> real,
                           ghost samples: (nat, nat, nat) -> Colors.Color, ghost pixel: (nat, nat) -> Colors.Color)
    returns (pixels: seq<Colors.Color>)
    requires Sampled(Job(world.items, width, height, draws, sqrt, tan), samples) && Shaded(samples, sqrt, pixel)
    ensures pixels == Image(pixel, width, height, height)
  {
    var job := Job(world.items, width, height, draws, sqrt, tan);
    FixedCameraFrames(sqrt);
    var cam := NewCamera(LOOK_FROM, LOOK_AT, VUP, POV, Aspect(width, height), APERTURE, FocusDist(sqrt), sqrt, tan);
    assert cam == JobCamera(job);
    pixels := [];
    var k := 0;
    while k < height
      invariant 0 <= k <= height
      invariant pixels == Image(pixel, width, height, k)
    {
      var j := height - 1 - k;
      var row := RenderRow(job, samples, pixel, cam, j);
      ImageStep(pixel, width, height, k);
      pixels := pixels + row;
      k := k + 1;
    }
  }


  // ---------------------------------------------------------------------------
  // Lemmas about the image

  /** The accumulators at the start of pixel `i` of row `j`. */
  function PixelStart(samples: (nat, nat, nat) -> Colors.Color, sqrt: real -> real, i: nat, j: nat): Channels {
    if i == 0 then Channels(0.0, 0.0, 0.0) else AfterPixel(samples, sqrt, i - 1, j)
  }

  /** Finishing pixel `i` from its starting accumulators gives the next
      accumulators and appends pixel `i` to the row. */
  lemma PixelStep(samples: (nat, nat, nat) -> Colors.Color, sqrt: real -> real, i: nat, j: nat, start: Channels)
    requires start == PixelStart(samples, sqrt, i, j)
    ensures GammaCorrect(SumSamples(start, PixelSamples(samples, i, j)), sqrt) == PixelStart(samples, sqrt, i + 1, j)
  {
  }

  /** Emitting one more row appends row `height - 1 - k` to the image. */
  lemma ImageStep(pixel: (nat, nat) -> Colors.Color, width: nat, height: nat, k: nat)
    requires k < height
    ensures Image(pixel, width, height, k + 1) == Image(pixel, width, height, k) + Row(pixel, height - 1 - k, width)
  {
  }

  /** The image is `width * height` pixels in raster order: row `j` (counted
      from the bottom) is emitted `(height - 1 - j)`-th, so pixel `(i, j)`
      sits at `Offset(height - 1 - j, width) + i`, i.e.
      `(height - 1 - j) * width + i`. */
  lemma {:induction false} RasterOrder(pixel: (nat, nat) -> Colors.Color, width: nat, height: nat, k: nat, i: nat, j: nat)
    requires k <= height && i < width && height - k <= j < height
    ensures Offset(height - 1 - j, width) + i < |Image(pixel, width, height, k)|
    ensures Image(pixel, width, height, k)[Offset(height - 1 - j, width) + i] == pixel(i, j)
    decreases k
  {
    var prev := Image(pixel, width, height, k - 1);
    var row := Row(pixel, height - k, width);
    var idx := Offset(height - 1 - j, width) + i;
    assert Image(pixel, width, height, k) == prev + row;
    if j != height - k {
      RasterOrder(pixel, width, height, k - 1, i, j);
      assert (prev + row)[idx] == prev[idx];
    } else {
      assert idx == |prev| + i;
      assert (prev + row)[idx] == row[i];
    }
  }

  /** The full image holds `width * height` pixels. */
  lemma ImageSize(pixel: (nat, nat) -> Colors.Color, width: nat, height: nat)
    ensures |Image(pixel, width, height, height)| == width * height
  {
    OffsetIsProduct(height, width);
  }

  /** Each sample adds between 0 and 1 to every accumulator. */
  lemma {:induction false} SamplesAddUpTo(acc: Channels, cs: seq<Colors.Color>)
    ensures var a := SumSamples(acc, cs);
            && acc.red <= a.red <= acc.red + |cs| as real
            && acc.green <= a.green <= acc.green + |cs| as real
            && acc.blue <= a.blue <= acc.blue + |cs| as real
    decreases |cs|
  {
    if cs != [] {
      SamplesAddUpTo(acc, cs[..|cs| - 1]);
    }
  }

  /** Summing from `acc` gives the pixel's own sum shifted by `acc`. */
  lemma {:induction false} SamplesShift(acc: Channels, cs: seq<Colors.Color>)
    ensures var a := SumSamples(acc, cs);
            var own := SumSamples(Channels(0.0, 0.0, 0.0), cs);
            a == Channels(acc.red + own.red, acc.green + own.green, acc.blue + own.blue)
    decreases |cs|
  {
    if cs != [] {
      SamplesShift(acc, cs[..|cs| - 1]);
    }
  }

  /** A monotonicity step of `sqrt`. */
  lemma SqrtMonotonic(sqrt: real -> real, x1: real, x2: real)
    requires IsSqrt(sqrt) && 0.0 <= x1 <= x2
    ensures sqrt(x1) <= sqrt(x2)
  {
    if x1 < x2 {
      SqrtStrictlyMonotonic(sqrt, x1, x2);
    }
  }

  /** The accumulators stay within [0, 1.01]: a pixel's gamma-corrected value
      is at most sqrt((1.01 + 100) / 100) <= 1.01 when it started at most at
      1.01.  A bright run can therefore push `red * 255.99` past 255, where
      the cast saturates. */
  lemma {:induction false} AccumulatorBounded(samples: (nat, nat, nat) -> Colors.Color, sqrt: real -> real, i: nat, j: nat)
    requires IsSqrt(sqrt)
    ensures var a := AfterPixel(samples, sqrt, i, j);
            && 0.0 <= a.red <= 1.01 && 0.0 <= a.green <= 1.01 && 0.0 <= a.blue <= 1.01
  {
    var start := if i == 0 then Channels(0.0, 0.0, 0.0) else AfterPixel(samples, sqrt, i - 1, j);
    if i > 0 {
      AccumulatorBounded(samples, sqrt, i - 1, j);
    }
    var cs := PixelSamples(samples, i, j);
    var sum := SumSamples(start, cs);
    SamplesAddUpTo(start, cs);
    GammaBound(sqrt, sum.red);
    GammaBound(sqrt, sum.green);
    GammaBound(sqrt, sum.blue);
  }

  /** One gamma step keeps a sum of at most 101.01 within [0, 1.01]. */
  lemma GammaBound(sqrt: real -> real, x: real)
    requires IsSqrt(sqrt) && 0.0 <= x <= 1.01 + SAMPLES as real
    ensures 0.0 <= sqrt(x / SAMPLES as real) <= 1.01
  {
    var y := x / SAMPLES as real;
    SqrtMonotonic(sqrt, y, 1.0201);
    SqrtUnique(sqrt, 1.0201, 1.01);
    SqrtOf(sqrt, y);
  }

  /** The gamma-corrected average of pixel `(i, j)`'s own samples: what the
      pixel would hold if the accumulators were reset for every pixel. */
  function OwnAverage(samples: (nat, nat, nat) -> Colors.Color, sqrt: real -> real, i: nat, j: nat): Channels {
    GammaCorrect(SumSamples(Channels(0.0, 0.0, 0.0), PixelSamples(samples, i, j)), sqrt)
  }

  /** The carry-over of the accumulators: the first pixel of a row is the
      gamma-corrected average of its own samples, but every later pixel is at
      least that bright, and strictly brighter in a channel whenever the
      previous pixel left a non-zero value in it. */
  lemma CarryOver(samples: (nat, nat, nat) -> Colors.Color, sqrt: real -> real, i: nat, j: nat)
    requires IsSqrt(sqrt)
    ensures i == 0 ==> AfterPixel(samples, sqrt, i, j) == OwnAverage(samples, sqrt, i, j)
    ensures var own, a := OwnAverage(samples, sqrt, i, j), AfterPixel(samples, sqrt, i, j);
            own.red <= a.red && own.green <= a.green && own.blue <= a.blue
    ensures 0 < i && 0.0 < AfterPixel(samples, sqrt, i - 1, j).red ==>
            OwnAverage(samples, sqrt, i, j).red < AfterPixel(samples, sqrt, i, j).red
  {
    var zero := Channels(0.0, 0.0, 0.0);
    var cs := PixelSamples(samples, i, j);
    var own := SumSamples(zero, cs);
    SamplesAddUpTo(zero, cs);
    if i > 0 {
      var start := AfterPixel(samples, sqrt, i - 1, j);
      AccumulatorBounded(samples, sqrt, i - 1, j);
      SamplesShift(start, cs);
      var sum := SumSamples(start, cs);
      ShiftedGamma(sqrt, own.red, start.red, sum.red);
      ShiftedGamma(sqrt, own.green, start.green, sum.green);
      ShiftedGamma(sqrt, own.blue, start.blue, sum.blue);
    }
  }

  /** Starting a sum from `s >= 0` instead of zero cannot darken its gamma
      value, and brightens it when `s > 0`. */
  lemma ShiftedGamma(sqrt: real -> real, own: real, s: real, total: real)
    requires IsSqrt(sqrt) && 0.0 <= own && 0.0 <= s && total == s + own
    ensures sqrt(own / SAMPLES as real) <= sqrt(total / SAMPLES as real)
    ensures 0.0 < s ==> sqrt(own / SAMPLES as real) < sqrt(total / SAMPLES as real)
  {
    SqrtMonotonic(sqrt, own / SAMPLES as real, total / SAMPLES as real);
    if 0.0 < s {
      SqrtStrictlyMonotonic(sqrt, own / SAMPLES as real, total / SAMPLES as real);
    }
  }
}
