/** Spheres, the ray-sphere intersection, and `HitList`, the list of objects
    of a scene that reports the nearest hit of a ray. */
module Shapes {
  import opened RealMath
  import opened Wrappers
  import opened Vector
  import opened Rays
  import opened Materials

  datatype Sphere = Sphere(center: Vec3D, radius: real, material: Material)

  /** The coefficients of `|origin + t direction - center|^2 - radius^2`
      as the polynomial `a t^2 + b t + c`. */
  datatype Quadratic = Quadratic(a: real, b: real, c: real)

  function Coefficients(s: Sphere, ray: Ray): Quadratic {
    var oc := Sub(ray.origin, s.center);
    Quadratic(Dot(ray.direction, ray.direction),
              2.0 * Dot(ray.direction, oc),
              Dot(oc, oc) - s.radius * s.radius)
  }

  function Discriminant(q: Quadratic): real {
    q.b * q.b - 4.0 * q.a * q.c
  }

  /** `Quadratic` evaluated at `t`. */
  function Eval(q: Quadratic, t: real): real {
    q.a * t * t + q.b * t + q.c
  }

  /** The smaller root `(-b - sqrt(disc)) / (2a)`. */
  function NearRoot(q: Quadratic, sqrt: real -> real): real
    requires IsSqrt(sqrt) && q.a != 0.0 && Discriminant(q) > 0.0
  {
    (-q.b - sqrt(Discriminant(q))) / (2.0 * q.a)
  }

  /** The larger root `(-b + sqrt(disc)) / (2a)`. */
  function FarRoot(q: Quadratic, sqrt: real -> real): real
    requires IsSqrt(sqrt) && q.a != 0.0 && Discriminant(q) > 0.0
  {
    (-q.b + sqrt(Discriminant(q))) / (2.0 * q.a)
  }

  /** The record of a hit at `t`: the point on the ray, the normal scaled by
      the radius, and the sphere's material. */
  function SurfaceRecord(s: Sphere, ray: Ray, t: real): (r: HitRecord)
    requires s.radius != 0.0
    ensures r.t == t && r.point == PointAt(ray, t) && r.material == s.material
    ensures Mul(r.normal, s.radius) == Sub(r.point, s.center)
  {
    var point := PointAt(ray, t);
    HitRecord(t, point, Div(Sub(point, s.center), s.radius), s.material)
  }

  /** `Sphere::hit`: the nearer root if it lies strictly inside (min, max),
      else the farther one if it does; no hit when the discriminant is not
      positive (a ray that only touches the sphere is a miss).  The source
      fills the `&mut` record and returns `true`; here the record is returned. */
  function SphereHit(s: Sphere, ray: Ray, min: real, max: real, sqrt: real -> real): (h: Option<HitRecord>)
    requires IsSqrt(sqrt)
    ensures h.Some? ==> min < h.value.t < max
    ensures h.Some? ==> h.value.point == PointAt(ray, h.value.t) && h.value.material == s.material
    ensures h.Some? ==> Discriminant(Coefficients(s, ray)) > 0.0
    ensures h.Some? ==> Mul(h.value.normal, s.radius) == Sub(h.value.point, s.center)
  {
    var q := Coefficients(s, ray);
    if Discriminant(q) > 0.0 then
      DiscriminantPositive(s, ray);
      var t1 := NearRoot(q, sqrt);
      var t2 := FarRoot(q, sqrt);
      if t1 < max && t1 > min then Some(SurfaceRecord(s, ray, t1))
      else if t2 < max && t2 > min then Some(SurfaceRecord(s, ray, t2))
      else None
    else
      None
  }

  // ---------------------------------------------------------------------------
  // The algebra of the intersection

  /** A positive discriminant needs a non-zero direction and a non-zero
      radius, by the Cauchy-Schwarz inequality. */
  lemma DiscriminantPositive(s: Sphere, ray: Ray)
    requires Discriminant(Coefficients(s, ray)) > 0.0
    ensures Coefficients(s, ray).a > 0.0 && s.radius != 0.0
  {
    var d := ray.direction;
    var oc := Sub(ray.origin, s.center);
    DotSquaredBound(d, oc);
    SquaredLengthIsDot(d);
    SquaredLengthIsDot(oc);
    SquarePositive(s.radius);
    CauchySchwarzDiscriminant(Dot(d, d), Dot(d, oc), Dot(oc, oc), s.radius * s.radius);
    ProductZero(s.radius, s.radius);
  }

  /** The same argument over plain reals: with `e^2 <= a cc`, the value
      `(2e)^2 - 4a(cc - rr)` is at most `4 a rr`. */
  lemma CauchySchwarzDiscriminant(a: real, e: real, cc: real, rr: real)
    requires 0.0 <= a && 0.0 <= rr && e * e <= a * cc
    requires (2.0 * e) * (2.0 * e) - 4.0 * a * (cc - rr) > 0.0
    ensures a > 0.0 && rr > 0.0
  {
    assert (2.0 * e) * (2.0 * e) - 4.0 * a * (cc - rr) == 4.0 * (e * e - a * cc) + 4.0 * (a * rr);
    assert a * rr > 0.0;
    ProductZero(a, rr);
  }

  /** `|origin + t direction - center|^2 - radius^2` is the quadratic at `t`. */
  lemma RayQuadratic(s: Sphere, ray: Ray, t: real)
    ensures SquaredLength(Sub(PointAt(ray, t), s.center)) - s.radius * s.radius
            == Eval(Coefficients(s, ray), t)
  {
    var d := ray.direction;
    var oc := Sub(ray.origin, s.center);
    var dt := Mul(d, t);
    assert Sub(PointAt(ray, t), s.center) == Add(oc, dt);
    SquaredLengthAdd(oc, dt);
    DotSymmetric(oc, dt);
    DotMulLeft(d, t, oc);
    SquaredLengthMul(d, t);
    SquaredLengthIsDot(d);
    SquaredLengthIsDot(oc);
  }

  /** The quadratic factors over its two roots. */
  lemma Factor(q: Quadratic, sqrt: real -> real, t: real)
    requires IsSqrt(sqrt) && q.a != 0.0 && Discriminant(q) > 0.0
    ensures Eval(q, t) == q.a * ((t - NearRoot(q, sqrt)) * (t - FarRoot(q, sqrt)))
  {
    var a, b, c := q.a, q.b, q.c;
    var sd := sqrt(Discriminant(q));
    SqrtOf(sqrt, Discriminant(q));
    var t1, t2 := NearRoot(q, sqrt), FarRoot(q, sqrt);
    assert 2.0 * a * t1 == -b - sd;
    assert 2.0 * a * t2 == -b + sd;
    var u := 2.0 * a * t + b;
    assert (2.0 * a * t - 2.0 * a * t1) * (2.0 * a * t - 2.0 * a * t2) == (u + sd) * (u - sd);
    assert (u + sd) * (u - sd) == u * u - sd * sd;
    assert u * u - sd * sd == 4.0 * a * Eval(q, t);
    assert (2.0 * a * t - 2.0 * a * t1) * (2.0 * a * t - 2.0 * a * t2)
           == 4.0 * a * (a * ((t - t1) * (t - t2)));
    var e, f := Eval(q, t), a * ((t - t1) * (t - t2));
    assert 4.0 * a * (e - f) == 0.0;
    ProductZero(4.0 * a, e - f);
  }

  /** The two roots are the only zeros, and the nearer one comes first. */
  lemma Roots(q: Quadratic, sqrt: real -> real, t: real)
    requires IsSqrt(sqrt) && q.a > 0.0 && Discriminant(q) > 0.0
    ensures NearRoot(q, sqrt) < FarRoot(q, sqrt)
    ensures Eval(q, t) == 0.0 <==> t == NearRoot(q, sqrt) || t == FarRoot(q, sqrt)
  {
    var sd := sqrt(Discriminant(q));
    SqrtPositive(sqrt, Discriminant(q));
    var t1, t2 := NearRoot(q, sqrt), FarRoot(q, sqrt);
    assert t2 - t1 == sd / q.a;
    Factor(q, sqrt, t);
    ProductZero(q.a, (t - t1) * (t - t2));
    ProductZero(t - t1, t - t2);
  }

  /** A reported hit lies on the sphere and its normal has unit length. */
  lemma HitOnSurface(s: Sphere, ray: Ray, min: real, max: real, sqrt: real -> real)
    requires IsSqrt(sqrt) && SphereHit(s, ray, min, max, sqrt).Some?
    ensures var h := SphereHit(s, ray, min, max, sqrt).value;
            && SquaredLength(Sub(h.point, s.center)) == s.radius * s.radius
            && SquaredLength(h.normal) == 1.0
  {
    var q := Coefficients(s, ray);
    DiscriminantPositive(s, ray);
    var h := SphereHit(s, ray, min, max, sqrt).value;
    Roots(q, sqrt, h.t);
    RayQuadratic(s, ray, h.t);
    var v := Sub(h.point, s.center);
    var r := s.radius;
    assert h.normal == Div(v, r);
    SquaredLengthMul(h.normal, r);
    assert r * r * (SquaredLength(h.normal) - 1.0) == 0.0;
    ProductZero(r * r, SquaredLength(h.normal) - 1.0);
    ProductZero(r, r);
  }

  /** The hit is the first point of the sphere on the ray after `min`. */
  lemma HitIsFirst(s: Sphere, ray: Ray, min: real, max: real, sqrt: real -> real, t: real)
    requires IsSqrt(sqrt) && SphereHit(s, ray, min, max, sqrt).Some?
    requires min < t < SphereHit(s, ray, min, max, sqrt).value.t
    ensures SquaredLength(Sub(PointAt(ray, t), s.center)) != s.radius * s.radius
  {
    var q := Coefficients(s, ray);
    DiscriminantPositive(s, ray);
    Roots(q, sqrt, t);
    RayQuadratic(s, ray, t);
  }

  /** A miss means no point of the sphere lies on the ray inside (min, max),
      unless the ray only touches the sphere (zero discriminant). */
  lemma MissIsMiss(s: Sphere, ray: Ray, min: real, max: real, sqrt: real -> real, t: real)
    requires IsSqrt(sqrt) && SphereHit(s, ray, min, max, sqrt).None?
    requires Discriminant(Coefficients(s, ray)) != 0.0 && min < t < max
    ensures SquaredLength(Sub(PointAt(ray, t), s.center)) != s.radius * s.radius
  {
    var q := Coefficients(s, ray);
    RayQuadratic(s, ray, t);
    if Discriminant(q) > 0.0 {
      DiscriminantPositive(s, ray);
      Roots(q, sqrt, t);
    } else {
      var u := 2.0 * q.a * t + q.b;
      assert u * u - Discriminant(q) == 4.0 * q.a * Eval(q, t);
      SquarePositive(u);
    }
  }

  /** Narrowing the range to just above the hit keeps the hit ... */
  lemma SphereHitNarrow(s: Sphere, ray: Ray, min: real, max: real, max2: real, sqrt: real -> real)
    requires IsSqrt(sqrt) && SphereHit(s, ray, min, max, sqrt).Some?
    requires SphereHit(s, ray, min, max, sqrt).value.t < max2 <= max
    ensures SphereHit(s, ray, min, max2, sqrt) == SphereHit(s, ray, min, max, sqrt)
  {
  }

  /** ... and widening the range keeps any hit found in the narrower one. */
  lemma SphereHitWiden(s: Sphere, ray: Ray, min: real, max: real, max2: real, sqrt: real -> real)
    requires IsSqrt(sqrt) && SphereHit(s, ray, min, max2, sqrt).Some? && max2 <= max
    ensures SphereHit(s, ray, min, max, sqrt) == SphereHit(s, ray, min, max2, sqrt)
  {
    DiscriminantPositive(s, ray);
    Roots(Coefficients(s, ray), sqrt, 0.0);
  }

  // ---------------------------------------------------------------------------
  // HitList

  /** The state of `HitList::hit` after the first `n` items: each item is asked
      for a hit closer than the closest found so far. */
  function ClosestUpTo(items: seq<Sphere>, ray: Ray, min: real, max: real, sqrt: real -> real, n: nat): Option<HitRecord>
    requires IsSqrt(sqrt) && n <= |items|
    decreases n
  {
    if n == 0 then None
    else
      var prev := ClosestUpTo(items, ray, min, max, sqrt, n - 1);
      var bound := if prev.Some? then prev.value.t else max;
      match SphereHit(items[n - 1], ray, min, bound, sqrt)
      case Some(h) => Some(h)
      case None => prev
  }

  /** The hit `HitList::hit` reports for the whole list: one item's own hit,
      no farther than any item's hit, and absent exactly when every item misses. */
  function WorldHit(items: seq<Sphere>, ray: Ray, min: real, max: real, sqrt: real -> real): (r: Option<HitRecord>)
    requires IsSqrt(sqrt)
    ensures r.Some? ==> exists k :: 0 <= k < |items| && SphereHit(items[k], ray, min, max, sqrt) == r
    ensures forall k :: 0 <= k < |items| && SphereHit(items[k], ray, min, max, sqrt).Some? ==>
              r.Some? && r.value.t <= SphereHit(items[k], ray, min, max, sqrt).value.t
    ensures r.None? <==> forall k :: 0 <= k < |items| ==> SphereHit(items[k], ray, min, max, sqrt).None?
  {
    ClosestIsNearest(items, ray, min, max, sqrt, |items|);
    ClosestUpTo(items, ray, min, max, sqrt, |items|)
  }

  /** What the scan finds is the nearest hit of all the items: it is one
      item's own hit in (min, max), no item's hit is nearer, and there is no
      hit at all exactly when no item is hit. */
  lemma {:induction false} ClosestIsNearest(items: seq<Sphere>, ray: Ray, min: real, max: real, sqrt: real -> real, n: nat)
    requires IsSqrt(sqrt) && n <= |items|
    ensures var r := ClosestUpTo(items, ray, min, max, sqrt, n);
            r.Some? ==> exists k :: 0 <= k < n && SphereHit(items[k], ray, min, max, sqrt) == r
    ensures var r := ClosestUpTo(items, ray, min, max, sqrt, n);
            forall k :: 0 <= k < n && SphereHit(items[k], ray, min, max, sqrt).Some? ==>
              r.Some? && r.value.t <= SphereHit(items[k], ray, min, max, sqrt).value.t
    ensures ClosestUpTo(items, ray, min, max, sqrt, n).None? <==>
            forall k :: 0 <= k < n ==> SphereHit(items[k], ray, min, max, sqrt).None?
    decreases n
  {
    if n > 0 {
      ClosestIsNearest(items, ray, min, max, sqrt, n - 1);
      var prev := ClosestUpTo(items, ray, min, max, sqrt, n - 1);
      var bound := if prev.Some? then prev.value.t else max;
      var last := items[n - 1];
      var hb := SphereHit(last, ray, min, bound, sqrt);
      var r := ClosestUpTo(items, ray, min, max, sqrt, n);
      if prev.Some? {
        var k :| 0 <= k < n - 1 && SphereHit(items[k], ray, min, max, sqrt) == prev;
        assert bound < max;
      }
      if hb.Some? {
        SphereHitWiden(last, ray, min, max, bound, sqrt);
        assert SphereHit(items[n - 1], ray, min, max, sqrt) == r;
      } else {
        var hm := SphereHit(last, ray, min, max, sqrt);
        if hm.Some? && hm.value.t < bound {
          SphereHitNarrow(last, ray, min, max, bound, sqrt);
        }
      }
    }
  }

  /** The list of objects, updated in place by `add`. */
  class HitList {
    var items: seq<Sphere>

    /** `HitList::new()`: an empty list. */
    constructor ()
      ensures items == []
    {
      items := [];
    }

    /** `add`: the item goes to the end. */
    method Add(item: Sphere)
      modifies this
      ensures items == old(items) + [item]
    {
      items := items + [item];
    }

    /** `get`: the item at `index`, or `None` past the end. */
    function Get(index: nat): (r: Option<Sphere>)
      reads this
      ensures r.Some? <==> index < |items|
      ensures r.Some? ==> r.value == items[index]
    {
      if index < |items| then Some(items[index]) else None
    }

    /** `HitList::hit`: asks every item in turn for a hit closer than the
        closest so far.  The out-record is overwritten only when something is
        hit, and then holds the nearest hit of all the items. */
    method Hit(ray: Ray, min: real, max: real, record: HitRecord, sqrt: real -> real)
      returns (hitAnything: bool, rec: HitRecord)
      requires IsSqrt(sqrt)
      ensures hitAnything <==> WorldHit(items, ray, min, max, sqrt).Some?
      ensures hitAnything ==> rec == WorldHit(items, ray, min, max, sqrt).value
      ensures !hitAnything ==> rec == record
    {
      var tempRecord := NewHitRecord();
      var closestSoFar := max;
      hitAnything := false;
      rec := record;
      var i := 0;
      while i < |items|
        invariant 0 <= i <= |items|
        invariant hitAnything <==> ClosestUpTo(items, ray, min, max, sqrt, i).Some?
        invariant hitAnything ==> rec == tempRecord == ClosestUpTo(items, ray, min, max, sqrt, i).value
        invariant hitAnything ==> closestSoFar == rec.t
        invariant !hitAnything ==> rec == record && closestSoFar == max
      {
        var h := SphereHit(items[i], ray, min, closestSoFar, sqrt);
        if h.Some? {
          tempRecord := h.value;
          hitAnything := true;
          closestSoFar := tempRecord.t;
          rec := HitRecord(tempRecord.t, tempRecord.point, tempRecord.normal, tempRecord.material);
        }
        i := i + 1;
      }
    }
  }

  /** The reported hit lies in (min, max), on the surface of the item hit,
      with a unit normal and the material of one of the items. */
  lemma WorldHitFacts(items: seq<Sphere>, ray: Ray, min: real, max: real, sqrt: real -> real)
    requires IsSqrt(sqrt) && WorldHit(items, ray, min, max, sqrt).Some?
    ensures var h := WorldHit(items, ray, min, max, sqrt).value;
            && min < h.t < max
            && SquaredLength(h.normal) == 1.0
            && exists k :: 0 <= k < |items| && h.material == items[k].material
  {
    var h := WorldHit(items, ray, min, max, sqrt);
    var k :| 0 <= k < |items| && SphereHit(items[k], ray, min, max, sqrt) == h;
    HitOnSurface(items[k], ray, min, max, sqrt);
  }
}
