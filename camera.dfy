/** The thin-lens camera: its orthonormal frame, the viewport on the plane of
    focus, and the rays it shoots through that viewport. */
module Cameras {
  import opened RealMath
  import opened Wrappers
  import opened Vector
  import opened Rays

  datatype Camera = Camera(lowerLeft: Vec3D, horizontal: Vec3D, vertical: Vec3D, origin: Vec3D,
                           lensRadius: real, u: Vec3D, v: Vec3D, w: Vec3D)

  /** What `Camera::new` divides by: the viewing direction and the cross
      product of `vup` with it must both be non-zero. */
  predicate CanFrame(lookFrom: Vec3D, lookAt: Vec3D, vup: Vec3D, sqrt: real -> real)
    requires IsSqrt(sqrt)
  {
    var d := Sub(lookFrom, lookAt);
    d != Zero && Cross(vup, UnitVector(d, sqrt)) != Zero
  }

  /** `Camera::new`: `w` points from the target back to the eye, `u` to the
      right and `v` up; the viewport of half-extent `tan(pov/2)` (times the
      aspect ratio horizontally) is placed on the plane at distance
      `focus_dist`.  The result is an orthonormal frame. */
  function NewCamera(lookFrom: Vec3D, lookAt: Vec3D, vup: Vec3D, pov: real, aspect: real,
                     aperture: real, focusDist: real, sqrt: real -> real, tan: real -> real): (cam: Camera)
    requires IsSqrt(sqrt) && CanFrame(lookFrom, lookAt, vup, sqrt)
    ensures cam.origin == lookFrom && 2.0 * cam.lensRadius == aperture
    ensures SquaredLength(cam.u) == 1.0 && SquaredLength(cam.v) == 1.0 && SquaredLength(cam.w) == 1.0
    ensures Dot(cam.u, cam.v) == 0.0 && Dot(cam.u, cam.w) == 0.0 && Dot(cam.v, cam.w) == 0.0
    ensures Mul(cam.w, Length(Sub(lookFrom, lookAt), sqrt)) == Sub(lookFrom, lookAt)
  {
    var lensRadius := aperture / 2.0;
    var halfHeight := HalfHeight(pov, tan);
    var halfWidth := HalfWidth(aspect, pov, tan);
    var f := CameraFrame(lookFrom, lookAt, vup, sqrt);
    var u, v, w := f.u, f.v, f.w;
    Camera(Sub(Sub(Sub(lookFrom, Mul(ScalarMul(halfWidth, u), focusDist)),
                   Mul(ScalarMul(halfHeight, v), focusDist)),
               Mul(w, focusDist)),
           ScalarMul(Span(halfWidth, focusDist), u),
           ScalarMul(Span(halfHeight, focusDist), v),
           lookFrom, lensRadius, u, v, w)
  }

  /** `tan(theta / 2)` for the field of view `pov` in degrees. */
  function HalfHeight(pov: real, tan: real -> real): real {
    var theta := pov * PI / 180.0;
    tan(theta / 2.0)
  }

  /** `aspect * half_height` */
  function HalfWidth(aspect: real, pov: real, tan: real -> real): real {
    aspect * HalfHeight(pov, tan)
  }

  /** `2.0 * half * focus_dist`: the full extent of the viewport on the plane
      of focus. */
  function Span(half: real, focusDist: real): real {
    2.0 * half * focusDist
  }

  /** Half the span along a unit of the frame is the half-extent placed at
      the focus distance. */
  lemma HalfSpan(half: real, focusDist: real, e: Vec3D)
    ensures ScalarMul(0.5, ScalarMul(Span(half, focusDist), e)) == Mul(ScalarMul(half, e), focusDist)
  {
    var k := half * focusDist;
    assert Span(half, focusDist) == 2.0 * k;
    assert 0.5 * (2.0 * k * e.x) == k * e.x;
    assert 0.5 * (2.0 * k * e.y) == k * e.y;
    assert 0.5 * (2.0 * k * e.z) == k * e.z;
    assert half * e.x * focusDist == k * e.x;
    assert half * e.y * focusDist == k * e.y;
    assert half * e.z * focusDist == k * e.z;
  }

  /** The camera's frame `(u, v, w)`. */
  datatype Frame = Frame(u: Vec3D, v: Vec3D, w: Vec3D)

  /** `w = unit(look_from - lookat)`, `u = unit(vup x w)`, `v = w x u`. */
  function CameraFrame(lookFrom: Vec3D, lookAt: Vec3D, vup: Vec3D, sqrt: real -> real): (f: Frame)
    requires IsSqrt(sqrt) && CanFrame(lookFrom, lookAt, vup, sqrt)
    ensures SquaredLength(f.u) == 1.0 && SquaredLength(f.v) == 1.0 && SquaredLength(f.w) == 1.0
    ensures Dot(f.u, f.v) == 0.0 && Dot(f.u, f.w) == 0.0 && Dot(f.v, f.w) == 0.0
    ensures Mul(f.w, Length(Sub(lookFrom, lookAt), sqrt)) == Sub(lookFrom, lookAt)
  {
    var d := Sub(lookFrom, lookAt);
    var w := UnitVector(d, sqrt);
    var c := Cross(vup, w);
    var u := UnitVector(c, sqrt);
    OrthonormalFrame(vup, w, sqrt);
    var f := Frame(u, Cross(w, u), w);
    assert SquaredLength(f.u) == 1.0 && SquaredLength(f.v) == 1.0 && SquaredLength(f.w) == 1.0;
    assert Dot(f.u, f.v) == 0.0 && Dot(f.u, f.w) == 0.0 && Dot(f.v, f.w) == 0.0;
    f
  }

  /** `u = unit(vup x w)` and `v = w x u` complete the unit vector `w` to an
      orthonormal frame. */
  lemma OrthonormalFrame(vup: Vec3D, w: Vec3D, sqrt: real -> real)
    requires IsSqrt(sqrt) && SquaredLength(w) == 1.0 && Cross(vup, w) != Zero
    ensures var u := UnitVector(Cross(vup, w), sqrt);
            var v := Cross(w, u);
            && SquaredLength(u) == 1.0 && SquaredLength(v) == 1.0
            && Dot(u, v) == 0.0 && Dot(u, w) == 0.0 && Dot(v, w) == 0.0
  {
    var c := Cross(vup, w);
    var u := UnitVector(c, sqrt);
    var len := Length(c, sqrt);
    DotMulLeft(u, len, w);
    ProductZero(len, Dot(u, w));
    var v := Cross(w, u);
    CrossSquaredLength(w, u);
    DotSymmetric(w, u);
    DotSymmetric(u, v);
    DotSymmetric(v, w);
  }

  /** `Camera::ray`: from a point of the lens, offset by the lens sample
      scaled by the lens radius, towards the viewport point at (s, t). */
  function GetRay(cam: Camera, s: real, t: real, diskSample: Vec3D): (r: Ray)
    ensures Add(r.origin, r.direction) == ViewportPoint(cam, s, t)
    ensures cam.lensRadius == 0.0 ==> r.origin == cam.origin
  {
    var rd := ScalarMul(cam.lensRadius, diskSample);
    var offset := Add(Mul(cam.u, rd.x), Mul(cam.v, rd.y));
    Ray(Add(cam.origin, offset),
        Sub(Sub(Add(Add(cam.lowerLeft, ScalarMul(s, cam.horizontal)), ScalarMul(t, cam.vertical)),
                cam.origin),
            offset))
  }

  /** The point of the viewport at fractions (s, t) of its width and height. */
  function ViewportPoint(cam: Camera, s: real, t: real): Vec3D {
    Add(Add(cam.lowerLeft, ScalarMul(s, cam.horizontal)), ScalarMul(t, cam.vertical))
  }

  /** The viewport runs from the lower left corner at (0, 0) to the opposite
      corner `lower_left + horizontal + vertical` at (1, 1). */
  lemma ViewportCorners(cam: Camera)
    ensures ViewportPoint(cam, 0.0, 0.0) == cam.lowerLeft
    ensures ViewportPoint(cam, 1.0, 1.0) == Add(Add(cam.lowerLeft, cam.horizontal), cam.vertical)
  {
  }

  /** Proof step for the lemmas below: the viewport fields of `Camera::new`
      unfolded into the half-extents and the frame. */
  lemma ViewportShape(lookFrom: Vec3D, lookAt: Vec3D, vup: Vec3D, pov: real, aspect: real,
                      aperture: real, focusDist: real, sqrt: real -> real, tan: real -> real)
    requires IsSqrt(sqrt) && CanFrame(lookFrom, lookAt, vup, sqrt)
    ensures var cam := NewCamera(lookFrom, lookAt, vup, pov, aspect, aperture, focusDist, sqrt, tan);
            var halfHeight := HalfHeight(pov, tan);
            var halfWidth := HalfWidth(aspect, pov, tan);
            && cam.lowerLeft == Sub(Sub(Sub(cam.origin, Mul(ScalarMul(halfWidth, cam.u), focusDist)),
                                        Mul(ScalarMul(halfHeight, cam.v), focusDist)),
                                    Mul(cam.w, focusDist))
            && cam.horizontal == ScalarMul(Span(halfWidth, focusDist), cam.u)
            && cam.vertical == ScalarMul(Span(halfHeight, focusDist), cam.v)
  {
  }

  /** The viewport's horizontal and vertical spans are perpendicular to each
      other and to the viewing axis `w`, and have lengths `2 half_width
      focus_dist` and `2 half_height focus_dist` (up to sign). */
  lemma ViewportSpans(lookFrom: Vec3D, lookAt: Vec3D, vup: Vec3D, pov: real, aspect: real,
                      aperture: real, focusDist: real, sqrt: real -> real, tan: real -> real)
    requires IsSqrt(sqrt) && CanFrame(lookFrom, lookAt, vup, sqrt)
    ensures var cam := NewCamera(lookFrom, lookAt, vup, pov, aspect, aperture, focusDist, sqrt, tan);
            var kh := Span(HalfWidth(aspect, pov, tan), focusDist);
            var kv := Span(HalfHeight(pov, tan), focusDist);
            && Dot(cam.horizontal, cam.vertical) == 0.0
            && Dot(cam.horizontal, cam.w) == 0.0 && Dot(cam.vertical, cam.w) == 0.0
            && SquaredLength(cam.horizontal) == kh * kh
            && SquaredLength(cam.vertical) == kv * kv
  {
    var cam := NewCamera(lookFrom, lookAt, vup, pov, aspect, aperture, focusDist, sqrt, tan);
    var kh := Span(HalfWidth(aspect, pov, tan), focusDist);
    var kv := Span(HalfHeight(pov, tan), focusDist);
    ViewportShape(lookFrom, lookAt, vup, pov, aspect, aperture, focusDist, sqrt, tan);
    var u, v, w := cam.u, cam.v, cam.w;
    ScalarMulCommutes(kh, u);
    ScalarMulCommutes(kv, v);
    var h, vv := Mul(u, kh), Mul(v, kv);
    assert cam.horizontal == h && cam.vertical == vv;
    // h . vv
    DotMulLeft(u, kh, vv);
    DotSymmetric(u, vv);
    DotMulLeft(v, kv, u);
    DotSymmetric(v, u);
    assert Dot(u, vv) == 0.0;
    // the spans against w
    DotMulLeft(u, kh, w);
    DotMulLeft(v, kv, w);
    // their lengths
    SquaredLengthMul(u, kh);
    SquaredLengthMul(v, kv);
  }

  /** The horizontal extent of the viewport is `aspect` times its vertical
      extent, so the viewport has the image's aspect ratio. */
  lemma AspectRatio(aspect: real, pov: real, tan: real -> real, focusDist: real)
    ensures Span(HalfWidth(aspect, pov, tan), focusDist) == aspect * Span(HalfHeight(pov, tan), focusDist)
  {
    var hh := HalfHeight(pov, tan);
    assert HalfWidth(aspect, pov, tan) == aspect * hh;
    assert 2.0 * (aspect * hh) * focusDist == aspect * (2.0 * hh * focusDist);
  }

  /** The centre of the viewport lies straight ahead of the eye at the focus
      distance. */
  lemma ViewportCentred(lookFrom: Vec3D, lookAt: Vec3D, vup: Vec3D, pov: real, aspect: real,
                        aperture: real, focusDist: real, sqrt: real -> real, tan: real -> real)
    requires IsSqrt(sqrt) && CanFrame(lookFrom, lookAt, vup, sqrt)
    ensures var cam := NewCamera(lookFrom, lookAt, vup, pov, aspect, aperture, focusDist, sqrt, tan);
            ViewportPoint(cam, 0.5, 0.5) == Sub(lookFrom, Mul(cam.w, focusDist))
  {
    var cam := NewCamera(lookFrom, lookAt, vup, pov, aspect, aperture, focusDist, sqrt, tan);
    var halfHeight := HalfHeight(pov, tan);
    var halfWidth := HalfWidth(aspect, pov, tan);
    ViewportShape(lookFrom, lookAt, vup, pov, aspect, aperture, focusDist, sqrt, tan);
    HalfSpan(halfWidth, focusDist, cam.u);
    HalfSpan(halfHeight, focusDist, cam.v);
  }

  /** Every ray of a camera built by `Camera::new` has the component
      `-focus_dist` along `w`, so it points into the scene and is never zero
      when the focus distance is positive. */
  lemma RayDepth(lookFrom: Vec3D, lookAt: Vec3D, vup: Vec3D, pov: real, aspect: real,
                 aperture: real, focusDist: real, sqrt: real -> real, tan: real -> real,
                 s: real, t: real, diskSample: Vec3D)
    requires IsSqrt(sqrt) && CanFrame(lookFrom, lookAt, vup, sqrt)
    ensures var cam := NewCamera(lookFrom, lookAt, vup, pov, aspect, aperture, focusDist, sqrt, tan);
            Dot(GetRay(cam, s, t, diskSample).direction, cam.w) == -focusDist
    ensures 0.0 < focusDist ==>
            GetRay(NewCamera(lookFrom, lookAt, vup, pov, aspect, aperture, focusDist, sqrt, tan),
                   s, t, diskSample).direction != Zero
  {
    var cam := NewCamera(lookFrom, lookAt, vup, pov, aspect, aperture, focusDist, sqrt, tan);
    var halfHeight := HalfHeight(pov, tan);
    var halfWidth := HalfWidth(aspect, pov, tan);
    SquaredLengthIsDot(cam.w);
    ViewportShape(lookFrom, lookAt, vup, pov, aspect, aperture, focusDist, sqrt, tan);
    DirectionAlongW(cam, s, t, diskSample, focusDist, halfWidth, halfHeight,
                    Span(halfWidth, focusDist), Span(halfHeight, focusDist));
    DotZero(cam.w);
  }

  /** The component along `w` of a ray direction, from the shape of the
      camera alone. */
  lemma DirectionAlongW(cam: Camera, s: real, t: real, diskSample: Vec3D, focusDist: real,
                        a: real, b: real, kh: real, kv: real)
    requires Dot(cam.u, cam.w) == 0.0 && Dot(cam.v, cam.w) == 0.0 && Dot(cam.w, cam.w) == 1.0
    requires cam.lowerLeft == Sub(Sub(Sub(cam.origin, Mul(ScalarMul(a, cam.u), focusDist)),
                                      Mul(ScalarMul(b, cam.v), focusDist)),
                                  Mul(cam.w, focusDist))
    requires cam.horizontal == ScalarMul(kh, cam.u) && cam.vertical == ScalarMul(kv, cam.v)
    ensures Dot(GetRay(cam, s, t, diskSample).direction, cam.w) == -focusDist
  {
    var u, v, w, o := cam.u, cam.v, cam.w, cam.origin;
    // the lens offset is orthogonal to w
    var rd := ScalarMul(cam.lensRadius, diskSample);
    var ou, ov := Mul(u, rd.x), Mul(v, rd.y);
    var offset := Add(ou, ov);
    DotMulLeft(u, rd.x, w);
    DotMulLeft(v, rd.y, w);
    DotAddLeft(ou, ov, w);
    assert Dot(offset, w) == 0.0;
    // so are the horizontal and vertical spans
    var sh, tv := ScalarMul(s, cam.horizontal), ScalarMul(t, cam.vertical);
    DotMulLeft(u, kh, w);
    DotMulLeft(Mul(u, kh), s, w);
    DotMulLeft(v, kv, w);
    DotMulLeft(Mul(v, kv), t, w);
    assert Dot(sh, w) == 0.0 && Dot(tv, w) == 0.0;
    // the lower left corner lies focus_dist behind the origin along w
    var ca, cb, cc := Mul(ScalarMul(a, u), focusDist), Mul(ScalarMul(b, v), focusDist), Mul(w, focusDist);
    DotMulLeft(u, a, w);
    DotMulLeft(Mul(u, a), focusDist, w);
    DotMulLeft(v, b, w);
    DotMulLeft(Mul(v, b), focusDist, w);
    DotMulLeft(w, focusDist, w);
    assert Dot(ca, w) == 0.0 && Dot(cb, w) == 0.0 && Dot(cc, w) == focusDist;
    DotSubLeft(o, ca, w);
    DotSubLeft(Sub(o, ca), cb, w);
    DotSubLeft(Sub(Sub(o, ca), cb), cc, w);
    assert Dot(cam.lowerLeft, w) == Dot(o, w) - focusDist;
    // adding it up
    var p1 := Add(cam.lowerLeft, sh);
    var p2 := Add(p1, tv);
    DotAddLeft(cam.lowerLeft, sh, w);
    DotAddLeft(p1, tv, w);
    DotSubLeft(p2, o, w);
    DotSubLeft(Sub(p2, o), offset, w);
  }

  // ---------------------------------------------------------------------------
  // random_in_unit_disk

  /** The candidate `2.0 * (r1, r2, 0) - (1, 1, 0)` built from two uniform numbers. */
  function DiskCandidate(r1: real, r2: real): (p: Vec3D)
    ensures p.z == 0.0
    ensures 0.0 <= r1 < 1.0 && 0.0 <= r2 < 1.0 ==> -1.0 <= p.x < 1.0 && -1.0 <= p.y < 1.0
  {
    Sub(ScalarMul(2.0, Vec3D(r1, r2, 0.0)), Vec3D(1.0, 1.0, 0.0))
  }

  /** `random_in_unit_disk` as written: it returns the first candidate with
      `p . p >= 1`, i.e. the first one OUTSIDE the open unit disk, so the lens
      offsets come from the corners of the square [-1, 1)^2.  `None` when the
      stream of uniform pairs holds no such candidate (the source would keep
      drawing). */
  method RandomInUnitDisk(draws: seq<(real, real)>) returns (p: Option<Vec3D>)
    ensures p.Some? ==> Dot(p.value, p.value) >= 1.0 && p.value.z == 0.0
    ensures p.Some? ==> exists k :: 0 <= k < |draws| && p.value == DiskCandidate(draws[k].0, draws[k].1) &&
                                    forall j :: 0 <= j < k ==> Dot(DiskCandidate(draws[j].0, draws[j].1),
                                                                   DiskCandidate(draws[j].0, draws[j].1)) < 1.0
    ensures p.None? <==> forall k :: 0 <= k < |draws| ==>
                           Dot(DiskCandidate(draws[k].0, draws[k].1), DiskCandidate(draws[k].0, draws[k].1)) < 1.0
  {
    var i := 0;
    while i < |draws|
      invariant 0 <= i <= |draws|
      invariant forall j :: 0 <= j < i ==> Dot(DiskCandidate(draws[j].0, draws[j].1),
                                               DiskCandidate(draws[j].0, draws[j].1)) < 1.0
    {
      var c := DiskCandidate(draws[i].0, draws[i].1);
      if Dot(c, c) >= 1.0 {
        return Some(c);
      }
      i := i + 1;
    }
    return None;
  }
}
