/** Three-component vectors and points (`Vec3D`, `Point3D`) over exact reals. */
module Vector {
  import opened RealMath

  datatype Vec3D = Vec3D(x: real, y: real, z: real)

  datatype Point3D = Point3D(x: real, y: real, z: real)

  const Zero := Vec3D(0.0, 0.0, 0.0)

  // ---------------------------------------------------------------------------
  // Vec3D operators

  /** `a + b` */
  function Add(a: Vec3D, b: Vec3D): Vec3D {
    Vec3D(a.x + b.x, a.y + b.y, a.z + b.z)
  }

  /** `a - b` */
  function Sub(a: Vec3D, b: Vec3D): Vec3D {
    Vec3D(a.x - b.x, a.y - b.y, a.z - b.z)
  }

  /** `-v`: every component negated, so that `v + (-v)` is the zero vector. */
  function Neg(v: Vec3D): (r: Vec3D)
    ensures Add(v, r) == Zero
  {
    Vec3D(-v.x, -v.y, -v.z)
  }

  /** `v * s` (both the by-value and the by-reference operator). */
  function Mul(v: Vec3D, s: real): Vec3D {
    Vec3D(v.x * s, v.y * s, v.z * s)
  }

  /** `s * v`, which the source forwards to `v * s`: for a non-zero `s`,
      dividing by `s` gives back `v`, and the squared length grows by `s * s`. */
  function ScalarMul(s: real, v: Vec3D): Vec3D {
    Mul(v, s)
  }

  /** `v / s`; the source asserts `s != 0.0` and panics otherwise. */
  function Div(v: Vec3D, s: real): (r: Vec3D)
    requires s != 0.0
    ensures Mul(r, s) == v
  {
    Vec3D(v.x / s, v.y / s, v.z / s)
  }

  function Dot(a: Vec3D, b: Vec3D): real {
    a.x * b.x + a.y * b.y + a.z * b.z
  }

  /** The cross product; it is orthogonal to both operands. */
  function Cross(a: Vec3D, b: Vec3D): (c: Vec3D)
    ensures Dot(c, a) == 0.0 && Dot(c, b) == 0.0
  {
    Vec3D(a.y * b.z - b.y * a.z,
          -(a.x * b.z - b.x * a.z),
          a.x * b.y - b.x * a.y)
  }

  /** `x^2 + y^2 + z^2`: never negative, zero only for the zero vector. */
  function SquaredLength(v: Vec3D): (r: real)
    ensures 0.0 <= r
    ensures r == 0.0 <==> v == Zero
  {
    SquarePositive(v.x);
    SquarePositive(v.y);
    SquarePositive(v.z);
    assert v == Zero <==> v.x == 0.0 && v.y == 0.0 && v.z == 0.0;
    v.x * v.x + v.y * v.y + v.z * v.z
  }

  /** `squared_length().sqrt()` */
  function Length(v: Vec3D, sqrt: real -> real): (r: real)
    requires IsSqrt(sqrt)
    ensures 0.0 <= r && r * r == SquaredLength(v)
    ensures r == 0.0 <==> v == Zero
  {
    var sl := SquaredLength(v);
    SqrtOf(sqrt, sl);
    SqrtZeroIff(sqrt, sl);
    sqrt(sl)
  }

  /** `v / v.length()`: the source's division asserts a non-zero length.
      The result has length one and points the same way as `v`. */
  function UnitVector(v: Vec3D, sqrt: real -> real): (u: Vec3D)
    requires IsSqrt(sqrt) && v != Zero
    ensures SquaredLength(u) == 1.0
    ensures Mul(u, Length(v, sqrt)) == v
  {
    var len := Length(v, sqrt);
    var u := Div(v, len);
    SquaredLengthMul(u, len);
    assert (SquaredLength(u) - 1.0) * SquaredLength(v) == 0.0;
    ProductZero(SquaredLength(u) - 1.0, SquaredLength(v));
    u
  }

  /** `Vec3D::from_points(origin, dest)`: the displacement leading from `origin` to `dest`. */
  function FromPoints(origin: Point3D, dest: Point3D): (v: Vec3D)
    ensures PointAddVec(origin, v) == dest
  {
    PointSub(dest, origin)
  }

  // ---------------------------------------------------------------------------
  // Point3D operators

  /** `p - q` on points gives the vector that carries `q` to `p`. */
  function PointSub(p: Point3D, q: Point3D): (v: Vec3D)
    ensures Point3D(q.x + v.x, q.y + v.y, q.z + v.z) == p
  {
    Vec3D(p.x - q.x, p.y - q.y, p.z - q.z)
  }

  /** `-p` on points. */
  function PointNeg(p: Point3D): (r: Point3D)
    ensures PointSub(r, Point3D(0.0, 0.0, 0.0)) == Neg(PointSub(p, Point3D(0.0, 0.0, 0.0)))
  {
    Point3D(-p.x, -p.y, -p.z)
  }

  /** `v + p`: a point displaced by a vector. */
  function VecAddPoint(v: Vec3D, p: Point3D): (r: Point3D)
    ensures PointSub(r, p) == v
  {
    Point3D(v.x + p.x, v.y + p.y, v.z + p.z)
  }

  /** `p + v`: the same point as `v + p`. */
  function PointAddVec(p: Point3D, v: Vec3D): (r: Point3D)
    ensures r == VecAddPoint(v, p)
  {
    Point3D(p.x + v.x, p.y + v.y, p.z + v.z)
  }

  // ---------------------------------------------------------------------------
  // What the compound assignments `*=` and `/=` leave behind, as written:
  // the second statement of each scales `y` again and `z` is never touched.

  /** Against `v * s`: `x` is the same, `y` is scaled a second time and `z`
      is the old one. */
  function MulAssigned(v: Vec3D, s: real): (r: Vec3D)
    ensures r.x == Mul(v, s).x && r.y == Mul(Mul(v, s), s).y && r.z == v.z
  {
    Vec3D(v.x * s, v.y * s * s, v.z)
  }

  /** Against `v / s`: `x` is the same, `y` is divided a second time and `z`
      is the old one. */
  function DivAssigned(v: Vec3D, s: real): (r: Vec3D)
    requires s != 0.0
    ensures r.x == Div(v, s).x && r.y == Div(Div(v, s), s).y && r.z == v.z
  {
    Vec3D(v.x / s, v.y / s / s, v.z)
  }

  /** A variable of type `Vec3D` updated in place by the compound operators and `make_unit`. */
  class Vec3DVar {
    var x: real
    var y: real
    var z: real

    function Value(): Vec3D
      reads this
    {
      Vec3D(x, y, z)
    }

    constructor (v: Vec3D)
      ensures Value() == v
    {
      x, y, z := v.x, v.y, v.z;
    }

    /** `self += other` */
    method AddAssign(other: Vec3D)
      modifies this
      ensures Value() == Add(old(Value()), other)
    {
      x := x + other.x;
      y := y + other.y;
      z := z + other.z;
    }

    /** `self -= other` */
    method SubAssign(other: Vec3D)
      modifies this
      ensures Value() == Sub(old(Value()), other)
    {
      x := x - other.x;
      y := y - other.y;
      z := z - other.z;
    }

    /** `self *= s`, as written: x once, y twice, z not at all. */
    method MulAssign(s: real)
      modifies this
      ensures Value() == MulAssigned(old(Value()), s)
    {
      x := x * s;
      y := y * s;
      y := y * s;
    }

    /** `self /= s`, as written; the source asserts `s != 0.0`. */
    method DivAssign(s: real)
      requires s != 0.0
      modifies this
      ensures Value() == DivAssigned(old(Value()), s)
    {
      x := x / s;
      y := y / s;
      y := y / s;
    }

    /** `make_unit`: divides each field by the length computed beforehand. */
    method MakeUnit(sqrt: real -> real)
      requires IsSqrt(sqrt) && Value() != Zero
      modifies this
      ensures Value() == UnitVector(old(Value()), sqrt)
      ensures SquaredLength(Value()) == 1.0
    {
      var den := Length(Value(), sqrt);
      x := x / den;
      y := y / den;
      z := z / den;
    }
  }

  // ---------------------------------------------------------------------------
  // Lemmas

  /** Scaling by `s` scales the squared length by `s*s`. */
  lemma SquaredLengthMul(v: Vec3D, s: real)
    ensures SquaredLength(Mul(v, s)) == s * s * SquaredLength(v)
  {
  }

  lemma DotSymmetric(a: Vec3D, b: Vec3D)
    ensures Dot(a, b) == Dot(b, a)
  {
  }

  lemma DotExample()
    ensures Dot(Vec3D(1.0, 2.0, 3.0), Vec3D(1.0, 2.0, 3.0)) == 14.0
  {
  }

  lemma SquaredLengthIsDot(v: Vec3D)
    ensures SquaredLength(v) == Dot(v, v)
  {
  }

  lemma CrossAntisymmetric(a: Vec3D, b: Vec3D)
    ensures Cross(b, a) == Neg(Cross(a, b))
  {
  }

  lemma CrossSelfIsZero(a: Vec3D)
    ensures Cross(a, a) == Zero
  {
  }

  lemma CrossExample()
    ensures Cross(Vec3D(1.0, 2.0, 3.0), Vec3D(3.0, 4.0, 5.0)) == Vec3D(-2.0, 4.0, -2.0)
  {
  }

  /** Lagrange's identity: |a x b|^2 == |a|^2 |b|^2 - (a . b)^2. */
  lemma CrossSquaredLength(a: Vec3D, b: Vec3D)
    ensures SquaredLength(Cross(a, b)) == SquaredLength(a) * SquaredLength(b) - Dot(a, b) * Dot(a, b)
  {
    var c := Cross(a, b);
    assert c.x * c.x == a.y * a.y * b.z * b.z - 2.0 * a.y * b.z * b.y * a.z + b.y * b.y * a.z * a.z;
    assert c.y * c.y == a.x * a.x * b.z * b.z - 2.0 * a.x * b.z * b.x * a.z + b.x * b.x * a.z * a.z;
    assert c.z * c.z == a.x * a.x * b.y * b.y - 2.0 * a.x * b.y * b.x * a.y + b.x * b.x * a.y * a.y;
  }

  /** Cauchy-Schwarz, from Lagrange's identity. */
  lemma DotSquaredBound(a: Vec3D, b: Vec3D)
    ensures Dot(a, b) * Dot(a, b) <= SquaredLength(a) * SquaredLength(b)
  {
    CrossSquaredLength(a, b);
  }

  lemma MulExample()
    ensures Mul(Vec3D(1.0, 2.0, 3.0), 2.0) == Vec3D(2.0, 4.0, 6.0)
  {
  }

  lemma DivExample()
    ensures Div(Vec3D(2.0, 4.0, 6.0), 2.0) == Vec3D(1.0, 2.0, 3.0)
  {
  }

  /** `(v * s) / s == v` for every non-zero `s`. */
  lemma MulDivRoundTrip(v: Vec3D, s: real)
    requires s != 0.0
    ensures Div(Mul(v, s), s) == v
  {
  }

  /** Proof step: `s * v` unfolds to `v * s`. */
  lemma ScalarMulCommutes(s: real, v: Vec3D)
    ensures ScalarMul(s, v) == Mul(v, s)
  {
  }

  /** `s * v` scales `v`: for a non-zero `s` dividing by `s` gives back `v`,
      and the squared length grows by `s * s`. */
  lemma ScalarMulScales(s: real, v: Vec3D)
    ensures s != 0.0 ==> Div(ScalarMul(s, v), s) == v
    ensures SquaredLength(ScalarMul(s, v)) == s * s * SquaredLength(v)
  {
    SquaredLengthMul(v, s);
  }

  /** `q + (p - q) == p`: the difference of two points leads from the second
      to the first. */
  lemma PointSubRoundTrip(p: Point3D, q: Point3D)
    ensures PointAddVec(q, PointSub(p, q)) == p
  {
  }

  /** `(a + b) - b == a` */
  lemma AddSubRoundTrip(a: Vec3D, b: Vec3D)
    ensures Sub(Add(a, b), b) == a
  {
  }

  /** `*=` agrees with `*` only when the doubly scaled `y` and the unscaled `z`
      happen not to matter. */
  lemma MulAssignAgreesWithMulIff(v: Vec3D, s: real)
    ensures MulAssigned(v, s) == Mul(v, s)
            <==> (v.y == 0.0 || s == 0.0 || s == 1.0) && (v.z == 0.0 || s == 1.0)
  {
    if MulAssigned(v, s) == Mul(v, s) {
      assert (v.y * s) * (s - 1.0) == 0.0;
      ProductZero(v.y * s, s - 1.0);
      ProductZero(v.y, s);
      assert v.z * (s - 1.0) == 0.0;
      ProductZero(v.z, s - 1.0);
    }
  }

  /** Concretely, `(1,2,3) *= 2` yields `(2,8,3)` rather than `(2,4,6)`. */
  lemma MulAssignExample()
    ensures MulAssigned(Vec3D(1.0, 2.0, 3.0), 2.0) == Vec3D(2.0, 8.0, 3.0)
    ensures MulAssigned(Vec3D(1.0, 2.0, 3.0), 2.0) != Mul(Vec3D(1.0, 2.0, 3.0), 2.0)
  {
  }

  /** `/=` agrees with `/` only when the doubly divided `y` and the undivided `z`
      happen not to matter. */
  lemma DivAssignAgreesWithDivIff(v: Vec3D, s: real)
    requires s != 0.0
    ensures DivAssigned(v, s) == Div(v, s)
            <==> (v.y == 0.0 || s == 1.0) && (v.z == 0.0 || s == 1.0)
  {
    if DivAssigned(v, s) == Div(v, s) {
      assert v.y / s / s * s * s == v.y;
      assert v.y / s * s == v.y;
      assert v.y * (1.0 - s) == 0.0;
      ProductZero(v.y, 1.0 - s);
      assert v.z / s * s == v.z;
      assert v.z * (1.0 - s) == 0.0;
      ProductZero(v.z, 1.0 - s);
    }
  }

  // Bilinearity of the dot product, used by the material and camera proofs.

  lemma DotAddLeft(a: Vec3D, b: Vec3D, c: Vec3D)
    ensures Dot(Add(a, b), c) == Dot(a, c) + Dot(b, c)
  {
  }

  lemma DotSubLeft(a: Vec3D, b: Vec3D, c: Vec3D)
    ensures Dot(Sub(a, b), c) == Dot(a, c) - Dot(b, c)
  {
  }

  lemma DotMulLeft(a: Vec3D, k: real, c: Vec3D)
    ensures Dot(Mul(a, k), c) == k * Dot(a, c)
  {
  }

  /** |a - k b|^2 == |a|^2 - 2k (a . b) + k^2 |b|^2 */
  lemma SquaredLengthSubMul(a: Vec3D, b: Vec3D, k: real)
    ensures SquaredLength(Sub(a, Mul(b, k)))
            == SquaredLength(a) - 2.0 * k * Dot(a, b) + k * k * SquaredLength(b)
  {
  }

  /** |a + b|^2 == |a|^2 + 2 (a . b) + |b|^2 */
  lemma SquaredLengthAdd(a: Vec3D, b: Vec3D)
    ensures SquaredLength(Add(a, b)) == SquaredLength(a) + 2.0 * Dot(a, b) + SquaredLength(b)
  {
  }

  /** The dot product with the zero vector is zero, so a non-zero dot product
      rules out a zero operand. */
  lemma DotZero(a: Vec3D)
    ensures Dot(Zero, a) == 0.0 && Dot(a, Zero) == 0.0
  {
  }

  /** A component of a unit vector lies in [-1, 1]. */
  lemma UnitComponentBound(u: Vec3D)
    requires SquaredLength(u) == 1.0
    ensures -1.0 <= u.y <= 1.0
  {
    SquarePositive(u.x);
    SquarePositive(u.z);
    SquareAtMostOne(u.y);
  }

  /** Scaling a unit vector by the original length recovers the original. */
  lemma UnitVectorOfUnit(v: Vec3D, sqrt: real -> real)
    requires IsSqrt(sqrt) && SquaredLength(v) == 1.0
    ensures UnitVector(v, sqrt) == v
  {
    SqrtOneZero(sqrt);
  }
}
