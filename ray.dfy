/** `Ray`: an origin `A` and a direction `B`. `Ray::new` is the datatype's
    constructor and `origin()` / `direction()` are its two fields. */
module Rays {
  import opened Vector

  datatype Ray = Ray(origin: Vec3D, direction: Vec3D)

  /** `point_at(t)`: the point reached after travelling `t` times the direction. */
  function PointAt(r: Ray, t: real): (p: Vec3D)
    ensures Sub(p, r.origin) == Mul(r.direction, t)
  {
    Add(r.origin, Mul(r.direction, t))
  }

  lemma PointAtZero(r: Ray)
    ensures PointAt(r, 0.0) == r.origin
  {
  }

  /** Travelling `s + t` is travelling `s`, then `t` more. */
  lemma PointAtShift(r: Ray, s: real, t: real)
    ensures PointAt(r, s + t) == Add(PointAt(r, s), Mul(r.direction, t))
  {
  }
}
