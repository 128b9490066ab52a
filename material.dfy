/** Materials (`Lambertian`, `Metal`, `Dialectric`) and how each scatters a
    ray that hits it.  The randomness a scatter consumes is a parameter: the
    accepted sample of `random_in_unit_sphere` and the uniform number the
    dielectric compares with its reflection probability. */
module Materials {
  import opened RealMath
  import opened Wrappers
  import opened Vector
  import opened Rays
  import Colors

  /** The three implementations of the `Material` trait. */
  datatype Material =
    | Lambertian(albedo: Colors.Color)
    | Metal(albedo: Colors.Color, fuzz: Option<real>)
    | Dialectric(refIdx: real)

  /** The refractive indices at which `Dialectric::scatter` divides by zero
      (`1.0 / ref_idx` and `1.0 + ref_idx` in `schlick`) are excluded. */
  predicate ValidMaterial(m: Material) {
    m.Dialectric? ==> m.refIdx != 0.0 && m.refIdx != -1.0
  }

  /** What a hit reports: the ray parameter, the point, the surface normal and
      the material of the surface. */
  datatype HitRecord = HitRecord(t: real, point: Vec3D, normal: Vec3D, material: Material)

  /** `HitRecord::new()`: everything zero, and a white matte material. */
  function NewHitRecord(): (r: HitRecord)
    ensures r.t == 0.0 && r.point == Zero && r.normal == Zero
    ensures r.material == Lambertian(Colors.WHITE) && ValidMaterial(r.material)
  {
    HitRecord(0.0, Vec3D(0.0, 0.0, 0.0), Vec3D(0.0, 0.0, 0.0), Lambertian(Colors.Rgb(255, 255, 255)))
  }

  /** The random input of one call of `scatter`. */
  datatype ScatterDraw = ScatterDraw(inSphere: Vec3D, uniform: real)

  /** `inSphere` is a sample `random_in_unit_sphere` accepts and `uniform` is a
      value of `gen::<f32>()`, which lies in [0, 1). */
  predicate ValidDraw(d: ScatterDraw) {
    SquaredLength(d.inSphere) < 1.0 && 0.0 <= d.uniform < 1.0
  }

  /** The outcome of `scatter`: its boolean result, and what it writes to
      `attenuation` and `scattered`. */
  datatype Scattering = Scattering(scatters: bool, attenuation: Colors.Color, scattered: Ray)

  // ---------------------------------------------------------------------------
  // random_in_unit_sphere

  /** The candidate `2.0 * (r1, r2, r3) - (1, 1, 1)` built from three uniform numbers. */
  function SphereCandidate(r: Vec3D): (p: Vec3D)
    ensures 0.0 <= r.x < 1.0 ==> -1.0 <= p.x < 1.0
    ensures 0.0 <= r.y < 1.0 ==> -1.0 <= p.y < 1.0
    ensures 0.0 <= r.z < 1.0 ==> -1.0 <= p.z < 1.0
  {
    Sub(ScalarMul(2.0, r), Vec3D(1.0, 1.0, 1.0))
  }

  /** `random_in_unit_sphere`: rejection sampling over the given stream of
      uniform triples.  The result is the first candidate strictly inside the
      unit sphere; `None` when the stream holds no such candidate (the source
      would keep drawing). */
  method RandomInUnitSphere(draws: seq<Vec3D>) returns (p: Option<Vec3D>)
    ensures p.Some? ==> SquaredLength(p.value) < 1.0
    ensures p.Some? ==> exists k :: 0 <= k < |draws| && p.value == SphereCandidate(draws[k]) &&
                                    forall j :: 0 <= j < k ==> SquaredLength(SphereCandidate(draws[j])) >= 1.0
    ensures p.None? <==> forall k :: 0 <= k < |draws| ==> SquaredLength(SphereCandidate(draws[k])) >= 1.0
  {
    var i := 0;
    while i < |draws|
      invariant 0 <= i <= |draws|
      invariant forall j :: 0 <= j < i ==> SquaredLength(SphereCandidate(draws[j])) >= 1.0
    {
      var v := SphereCandidate(draws[i]);
      if SquaredLength(v) < 1.0 {
        return Some(v);
      }
      i := i + 1;
    }
    return None;
  }

  // ---------------------------------------------------------------------------
  // Helpers of the scatter functions

  /** `reflect(v, n) = v - (2 (v . n)) n` */
  function Reflect(v: Vec3D, n: Vec3D): Vec3D {
    Sub(v, ScalarMul(2.0 * Dot(v, n), n))
  }

  /** `schlick`: Schlick's approximation of the reflection probability. */
  function Schlick(cosine: real, refIdx: real): real
    requires refIdx != -1.0
  {
    var r0 := (1.0 - refIdx) / (1.0 + refIdx);
    var r0 := r0 * r0;
    r0 + (1.0 - r0) * Pow5(1.0 - cosine)
  }

  /** `refract`: the refracted direction, or `None` (the `false` result) when
      the discriminant is not positive, i.e. on total internal reflection. */
  function Refract(v: Vec3D, n: Vec3D, niOverNt: real, sqrt: real -> real): Option<Vec3D>
    requires IsSqrt(sqrt) && v != Zero
  {
    var uv := UnitVector(v, sqrt);
    var dt := Dot(uv, n);
    var discriminant := RefractDiscriminant(niOverNt, dt);
    if discriminant > 0.0 then
      Some(Sub(ScalarMul(niOverNt, Sub(uv, ScalarMul(dt, n))), Mul(n, sqrt(discriminant))))
    else
      None
  }

  /** `1.0 - ni_over_nt * ni_over_nt * (1.0 - dt * dt)`: the squared cosine
      of the refracted angle, negative under total internal reflection. */
  function RefractDiscriminant(niOverNt: real, dt: real): real {
    1.0 - niOverNt * niOverNt * (1.0 - dt * dt)
  }

  /** The metal's fuzz: the given value capped at one, one when none is given. */
  function FuzzOf(fuzz: Option<real>): (f: real)
    ensures f <= 1.0
    ensures fuzz.Some? && fuzz.value <= 1.0 ==> f == fuzz.value
    ensures fuzz.Some? && fuzz.value > 1.0 ==> f == 1.0
    ensures fuzz.None? ==> f == 1.0
  {
    match fuzz
    case Some(value) => if value < 1.0 then value else 1.0
    case None => 1.0
  }

  /** Which side of the surface the ray comes from: the normal facing the ray,
      the ratio of refractive indices and the cosine passed to `schlick`. */
  datatype Interface = Interface(outwardNormal: Vec3D, niOverNt: real, cosine: real)

  function Facing(refIdx: real, direction: Vec3D, normal: Vec3D, sqrt: real -> real): (f: Interface)
    requires IsSqrt(sqrt) && refIdx != 0.0 && direction != Zero
    ensures Dot(direction, normal) > 0.0 ==> f.outwardNormal == Neg(normal) && f.niOverNt == refIdx
    ensures Dot(direction, normal) <= 0.0 ==> f.outwardNormal == normal && f.niOverNt * refIdx == 1.0
    ensures Dot(direction, normal) > 0.0 ==> f.cosine == refIdx * Dot(direction, normal) / Length(direction, sqrt)
    ensures Dot(direction, normal) <= 0.0 ==> f.cosine == -Dot(direction, normal) / Length(direction, sqrt)
  {
    var len := Length(direction, sqrt);
    if Dot(direction, normal) > 0.0 then
      Interface(Neg(normal), refIdx, refIdx * Dot(direction, normal) / len)
    else
      Interface(normal, 1.0 / refIdx, -Dot(direction, normal) / len)
  }

  // ---------------------------------------------------------------------------
  // scatter

  /** `Lambertian::scatter`: towards `point + normal + p`, always scattering. */
  function LambertianScatter(albedo: Colors.Color, rec: HitRecord, p: Vec3D): (s: Scattering)
    ensures s.scatters && s.attenuation == albedo
    ensures s.scattered.origin == rec.point
    ensures s.scattered.direction == Add(rec.normal, p)
  {
    var target := Add(Add(rec.point, rec.normal), p);
    Scattering(true, albedo, Ray(rec.point, Sub(target, rec.point)))
  }

  /** `Metal::scatter`: the mirror direction of the unit incoming direction,
      perturbed by `p` scaled by the fuzz; it scatters only away from the surface. */
  function MetalScatter(albedo: Colors.Color, fuzz: Option<real>, ray: Ray, rec: HitRecord, p: Vec3D,
                        sqrt: real -> real): (s: Scattering)
    requires IsSqrt(sqrt) && ray.direction != Zero
    ensures s.attenuation == albedo && s.scattered.origin == rec.point
    ensures s.scatters <==> Dot(s.scattered.direction, rec.normal) > 0.0
    ensures s.scatters ==> s.scattered.direction != Zero
    ensures s.scattered.direction == Add(Reflect(UnitVector(ray.direction, sqrt), rec.normal), Mul(p, FuzzOf(fuzz)))
  {
    var reflected := Reflect(UnitVector(ray.direction, sqrt), rec.normal);
    var scattered := Ray(rec.point, Add(reflected, Mul(p, FuzzOf(fuzz))));
    DotZero(rec.normal);
    Scattering(Dot(scattered.direction, rec.normal) > 0.0, albedo, scattered)
  }

  /** `Dialectric::scatter`: reflect with probability `schlick(cosine)` when
      refraction is possible, otherwise always reflect; the attenuation is white. */
  function DialectricScatter(refIdx: real, ray: Ray, rec: HitRecord, uniform: real,
                             sqrt: real -> real): (s: Scattering)
    requires IsSqrt(sqrt) && refIdx != 0.0 && refIdx != -1.0 && ray.direction != Zero
    ensures s.scatters && s.attenuation == Colors.WHITE && s.scattered.origin == rec.point
    ensures uniform < 1.0 && Refract(ray.direction, Facing(refIdx, ray.direction, rec.normal, sqrt).outwardNormal,
                                     Facing(refIdx, ray.direction, rec.normal, sqrt).niOverNt, sqrt).None?
            ==> s.scattered.direction == Reflect(ray.direction, rec.normal)
    ensures var f := Facing(refIdx, ray.direction, rec.normal, sqrt);
            var rf := Refract(ray.direction, f.outwardNormal, f.niOverNt, sqrt);
            rf.Some? ==> s.scattered.direction == (if uniform < Schlick(f.cosine, refIdx)
                                                   then Reflect(ray.direction, rec.normal)
                                                   else rf.value)
  {
    var reflected := Reflect(ray.direction, rec.normal);
    var f := Facing(refIdx, ray.direction, rec.normal, sqrt);
    var refracted := Refract(ray.direction, f.outwardNormal, f.niOverNt, sqrt);
    var reflectProb := if refracted.Some? then Schlick(f.cosine, refIdx) else 1.0;
    var direction :=
      if uniform < reflectProb then reflected
      else if refracted.Some? then refracted.value
      else Zero;
    Scattering(true, Colors.WHITE, Ray(rec.point, direction))
  }

  /** `rec.material.scatter(ray, rec, ...)`, dispatched on the hit material:
      the scattered ray leaves from the hit point; matte and glass surfaces
      always scatter; glass attenuates by white and the others by their
      albedo; a metal scatters exactly when the new direction faces the normal. */
  function Scatter(ray: Ray, rec: HitRecord, draw: ScatterDraw, sqrt: real -> real): (s: Scattering)
    requires IsSqrt(sqrt) && ValidMaterial(rec.material)
    requires !rec.material.Lambertian? ==> ray.direction != Zero
    ensures s.scattered.origin == rec.point
    ensures rec.material.Dialectric? ==> s.scatters && s.attenuation == Colors.WHITE
    ensures !rec.material.Dialectric? ==> s.attenuation == rec.material.albedo
    ensures rec.material.Lambertian? ==> s.scatters
    ensures rec.material.Metal? ==> (s.scatters <==> Dot(s.scattered.direction, rec.normal) > 0.0)
  {
    match rec.material
    case Lambertian(albedo) => LambertianScatter(albedo, rec, draw.inSphere)
    case Metal(albedo, fuzz) => MetalScatter(albedo, fuzz, ray, rec, draw.inSphere, sqrt)
    case Dialectric(refIdx) => DialectricScatter(refIdx, ray, rec, draw.uniform, sqrt)
  }

  // ---------------------------------------------------------------------------
  // Lemmas

  /** For a unit normal, reflection flips the normal component ... */
  lemma ReflectFlipsNormal(v: Vec3D, n: Vec3D)
    requires SquaredLength(n) == 1.0
    ensures Dot(Reflect(v, n), n) == -Dot(v, n)
  {
    DotSubLeft(v, Mul(n, 2.0 * Dot(v, n)), n);
    DotMulLeft(n, 2.0 * Dot(v, n), n);
    SquaredLengthIsDot(n);
  }

  /** ... keeps the length ... */
  lemma ReflectKeepsLength(v: Vec3D, n: Vec3D)
    requires SquaredLength(n) == 1.0
    ensures SquaredLength(Reflect(v, n)) == SquaredLength(v)
  {
    var k := 2.0 * Dot(v, n);
    SquaredLengthSubMul(v, n, k);
    assert k * k * 1.0 == 2.0 * k * Dot(v, n);
  }

  /** ... and reflecting twice gives back the original direction. */
  lemma ReflectInvolution(v: Vec3D, n: Vec3D)
    requires SquaredLength(n) == 1.0
    ensures Reflect(Reflect(v, n), n) == v
  {
    ReflectFlipsNormal(v, n);
  }

  /** The refracted direction has unit length and leaves on the other side of
      the normal it was computed against. */
  lemma RefractUnit(v: Vec3D, n: Vec3D, niOverNt: real, sqrt: real -> real)
    requires IsSqrt(sqrt) && v != Zero && SquaredLength(n) == 1.0
    requires Refract(v, n, niOverNt, sqrt).Some?
    ensures SquaredLength(Refract(v, n, niOverNt, sqrt).value) == 1.0
    ensures Dot(Refract(v, n, niOverNt, sqrt).value, n) < 0.0
  {
    var uv := UnitVector(v, sqrt);
    var dt := Dot(uv, n);
    var disc := RefractDiscriminant(niOverNt, dt);
    var s := sqrt(disc);
    SqrtOf(sqrt, disc);
    SqrtPositive(sqrt, disc);
    var tangent := Sub(uv, ScalarMul(dt, n));
    ScalarMulCommutes(dt, n);
    SquaredLengthSubMul(uv, n, dt);
    DotSymmetric(uv, n);
    assert SquaredLength(tangent) == 1.0 - dt * dt;
    DotSubLeft(uv, Mul(n, dt), n);
    DotMulLeft(n, dt, n);
    SquaredLengthIsDot(n);
    assert Dot(tangent, n) == 0.0;
    var a := ScalarMul(niOverNt, tangent);
    ScalarMulCommutes(niOverNt, tangent);
    var r := Sub(a, Mul(n, s));
    assert r == Refract(v, n, niOverNt, sqrt).value;
    SquaredLengthMul(tangent, niOverNt);
    DotMulLeft(tangent, niOverNt, n);
    assert Dot(a, n) == 0.0;
    SquaredLengthSubMul(a, n, s);
    assert SquaredLength(r) == niOverNt * niOverNt * (1.0 - dt * dt) + s * s;
    DotSubLeft(a, Mul(n, s), n);
    DotMulLeft(n, s, n);
    assert Dot(r, n) == -s;
  }

  /** `refract` succeeds exactly when `1 - ni_over_nt^2 (1 - dt^2)` is
      positive, `dt` being the cosine between the unit incoming direction and
      the normal; otherwise it reports `false` and writes nothing. */
  lemma RefractSucceedsIff(v: Vec3D, n: Vec3D, niOverNt: real, sqrt: real -> real)
    requires IsSqrt(sqrt) && v != Zero
    ensures Refract(v, n, niOverNt, sqrt).Some?
            <==> 1.0 - niOverNt * niOverNt * (1.0 - Dot(UnitVector(v, sqrt), n) * Dot(UnitVector(v, sqrt), n)) > 0.0
  {
  }

  /** Going into the optically denser side (`|ni_over_nt| < 1`), refraction
      always succeeds. */
  lemma RefractIntoDenserSucceeds(v: Vec3D, n: Vec3D, niOverNt: real, sqrt: real -> real)
    requires IsSqrt(sqrt) && v != Zero && SquaredLength(n) == 1.0
    requires -1.0 < niOverNt < 1.0
    ensures Refract(v, n, niOverNt, sqrt).Some?
  {
    var uv := UnitVector(v, sqrt);
    var dt := Dot(uv, n);
    DotSquaredBound(uv, n);
    SquarePositive(dt);
    BelowOneSquare(niOverNt);
    var q := 1.0 - dt * dt;
    assert 0.0 <= q <= 1.0;
    MulByFraction(niOverNt * niOverNt, q);
  }

  /** `x^5` stays in [0, 1] on [0, 1]. */
  lemma Pow5Fraction(x: real)
    requires 0.0 <= x <= 1.0
    ensures 0.0 <= Pow5(x) <= 1.0
  {
    MulByFraction(x, x);
    MulByFraction(x * x, x);
    MulByFraction(x * x * x, x);
    MulByFraction(x * x * x * x, x);
  }

  /** For a positive refractive index and a cosine in [0, 1], Schlick's
      approximation is a probability, at least the normal-incidence reflectance
      `r0^2`. */
  lemma SchlickIsProbability(cosine: real, refIdx: real)
    requires 0.0 <= cosine <= 1.0 && 0.0 < refIdx
    ensures var r0 := (1.0 - refIdx) / (1.0 + refIdx);
            r0 * r0 <= Schlick(cosine, refIdx) <= 1.0
    ensures 0.0 <= Schlick(cosine, refIdx)
  {
    var r0 := (1.0 - refIdx) / (1.0 + refIdx);
    assert -1.0 < r0 < 1.0 by {
      assert r0 * (1.0 + refIdx) == 1.0 - refIdx;
      if r0 >= 1.0 {
        MulLeftMonotonic(1.0 + refIdx, 1.0, r0);
      } else if r0 <= -1.0 {
        MulLeftMonotonic(1.0 + refIdx, r0, -1.0);
      }
    }
    BelowOneSquare(r0);
    var q := r0 * r0;
    var p := Pow5(1.0 - cosine);
    Pow5Fraction(1.0 - cosine);
    var a := 1.0 - q;
    var ap := a * p;
    MulByFraction(a, p);
    assert 0.0 <= ap <= a;
    assert Schlick(cosine, refIdx) == q + ap;
    assert q <= Schlick(cosine, refIdx);
    assert Schlick(cosine, refIdx) <= 1.0;
    assert 0.0 <= q;
  }

  /** At normal incidence Schlick's value is `r0^2`; at grazing incidence it is one. */
  lemma SchlickEnds(refIdx: real)
    requires refIdx != -1.0
    ensures var r0 := (1.0 - refIdx) / (1.0 + refIdx);
            Schlick(1.0, refIdx) == r0 * r0
    ensures Schlick(0.0, refIdx) == 1.0
  {
  }

  /** A Lambertian surface with a unit normal scatters strictly into the
      hemisphere of the normal, so its scattered direction is never zero. */
  lemma LambertianScattersOutward(albedo: Colors.Color, rec: HitRecord, p: Vec3D)
    requires SquaredLength(rec.normal) == 1.0 && SquaredLength(p) < 1.0
    ensures Dot(LambertianScatter(albedo, rec, p).scattered.direction, rec.normal) > 0.0
    ensures LambertianScatter(albedo, rec, p).scattered.direction != Zero
  {
    var n := rec.normal;
    var d, lp, ln := Dot(p, n), SquaredLength(p), SquaredLength(n);
    DotSquaredBound(p, n);
    assert d * d <= lp * ln;
    assert ln == 1.0;
    assert lp * ln == lp;
    SquareBelowOne(d);
    DotAddLeft(n, p, n);
    SquaredLengthIsDot(n);
    DotZero(n);
  }

  /** A metal without fuzz is a mirror: the scattered direction is the unit
      reflection of the incoming direction, and it scatters exactly when the
      ray arrives against the normal. */
  lemma MetalMirror(albedo: Colors.Color, ray: Ray, rec: HitRecord, p: Vec3D, sqrt: real -> real)
    requires IsSqrt(sqrt) && ray.direction != Zero && SquaredLength(rec.normal) == 1.0
    ensures var s := MetalScatter(albedo, Some(0.0), ray, rec, p, sqrt);
            && s.scattered.direction == Reflect(UnitVector(ray.direction, sqrt), rec.normal)
            && SquaredLength(s.scattered.direction) == 1.0
            && (s.scatters <==> Dot(ray.direction, rec.normal) < 0.0)
  {
    var u := UnitVector(ray.direction, sqrt);
    var len := Length(ray.direction, sqrt);
    assert Mul(p, 0.0) == Zero;
    ReflectFlipsNormal(u, rec.normal);
    ReflectKeepsLength(u, rec.normal);
    DotMulLeft(u, len, rec.normal);
    PositiveFactorSign(len, Dot(u, rec.normal));
  }

  /** A dielectric's scattered direction is never zero: with a unit normal it
      is the reflection (as long as the incoming direction) or a unit
      refraction; the zero default of `refracted` is never chosen because the
      uniform draw is below the reflection probability one. */
  lemma DialectricDirectionNonZero(refIdx: real, ray: Ray, rec: HitRecord, uniform: real, sqrt: real -> real)
    requires IsSqrt(sqrt) && refIdx != 0.0 && refIdx != -1.0 && ray.direction != Zero
    requires SquaredLength(rec.normal) == 1.0 && uniform < 1.0
    ensures DialectricScatter(refIdx, ray, rec, uniform, sqrt).scattered.direction != Zero
  {
    var d := ray.direction;
    var f := Facing(refIdx, d, rec.normal, sqrt);
    assert SquaredLength(f.outwardNormal) == 1.0 by {
      SquaredLengthMul(rec.normal, -1.0);
      assert Neg(rec.normal) == Mul(rec.normal, -1.0);
    }
    ReflectKeepsLength(d, rec.normal);
    var refracted := Refract(d, f.outwardNormal, f.niOverNt, sqrt);
    if refracted.Some? {
      RefractUnit(d, f.outwardNormal, f.niOverNt, sqrt);
    }
  }

  /** Whatever the material, a scatter from a unit normal with a valid draw
      that reports `true` sends the ray in a non-zero direction, so the ray
      can be traced further. */
  lemma ScatterDirectionNonZero(ray: Ray, rec: HitRecord, draw: ScatterDraw, sqrt: real -> real)
    requires IsSqrt(sqrt) && ValidMaterial(rec.material) && ray.direction != Zero
    requires SquaredLength(rec.normal) == 1.0 && ValidDraw(draw)
    ensures Scatter(ray, rec, draw, sqrt).scatters ==> Scatter(ray, rec, draw, sqrt).scattered.direction != Zero
  {
    match rec.material
    case Lambertian(albedo) => LambertianScattersOutward(albedo, rec, draw.inSphere);
    case Metal(_, _) =>
    case Dialectric(refIdx) => DialectricDirectionNonZero(refIdx, ray, rec, draw.uniform, sqrt);
  }
}
