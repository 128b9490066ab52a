/** Real-number stand-ins for the f32 functions the renderer calls.
    `f32` values are modelled as exact reals; `f32::sqrt` is a parameter of the
    operations that use it, constrained by the law `IsSqrt`. */
module RealMath {

  /** std::f32::consts::PI, as a real. */
  const PI: real := 3.14159265358979323846

  /** f32::MAX, the upper bound the integrator passes to the scene query. */
  const F32_MAX: real := 340282346638528859811704183484516925440.0

  /** The law every square-root parameter obeys: on non-negative inputs it
      returns the non-negative root. */
  ghost predicate IsSqrt(sqrt: real -> real) {
    forall x {:trigger Root(sqrt, x)} :: 0.0 <= x ==> 0.0 <= Root(sqrt, x) && Root(sqrt, x) * Root(sqrt, x) == x
  }

  ghost function Root(sqrt: real -> real, x: real): real {
    sqrt(x)
  }

  /** `x.powi(5)` */
  function Pow5(x: real): real {
    x * x * x * x * x
  }

  /** A product of reals is zero exactly when a factor is. */
  lemma ProductZero(a: real, b: real)
    ensures a * b == 0.0 <==> a == 0.0 || b == 0.0
  {
    if a != 0.0 && a * b == 0.0 {
      assert b == (a * b) / a;
    }
  }

  /** A product of non-negative reals is non-negative. */
  lemma MulNonNeg(x: real, y: real)
    requires 0.0 <= x && 0.0 <= y
    ensures 0.0 <= x * y
  {
  }

  /** Multiplying by a non-negative factor keeps an inequality. */
  lemma MulLeftMonotonic(a: real, b: real, c: real)
    requires 0.0 <= a && b <= c
    ensures a * b <= a * c
  {
    assert a * c - a * b == a * (c - b);
    assert 0.0 <= a * (c - b);
  }

  /** Scaling a non-negative number by a fraction in [0, 1] keeps it in [0, a]. */
  lemma MulByFraction(a: real, f: real)
    requires 0.0 <= a && 0.0 <= f <= 1.0
    ensures 0.0 <= a * f <= a && a * f == f * a
  {
    MulLeftMonotonic(a, f, 1.0);
    MulLeftMonotonic(a, 0.0, f);
    assert a * 1.0 == a;
  }

  /** A square is never negative, and positive unless its root is zero. */
  lemma SquarePositive(a: real)
    ensures 0.0 <= a * a
    ensures a * a == 0.0 ==> a == 0.0
  {
    if a < 0.0 {
      assert a * a == (-a) * (-a);
    }
    ProductZero(a, a);
  }

  /** A number whose square is below one lies strictly between -1 and 1. */
  lemma SquareBelowOne(d: real)
    requires d * d < 1.0
    ensures -1.0 < d < 1.0
  {
    if d >= 1.0 {
      MulLeftMonotonic(d, 1.0, d);
    } else if d <= -1.0 {
      MulLeftMonotonic(-d, 1.0, -d);
    }
  }

  /** A number whose square is at most one lies in [-1, 1]. */
  lemma SquareAtMostOne(d: real)
    requires d * d <= 1.0
    ensures -1.0 <= d <= 1.0
  {
    if d > 1.0 {
      MulLeftMonotonic(d, 1.0, d);
    } else if d < -1.0 {
      MulLeftMonotonic(-d, 1.0, -d);
    }
  }

  /** Conversely, a number strictly between -1 and 1 has a square below one. */
  lemma BelowOneSquare(d: real)
    requires -1.0 < d < 1.0
    ensures 0.0 <= d * d < 1.0
  {
    SquarePositive(d);
    if d >= 0.0 {
      MulLeftMonotonic(d, d, 1.0);
    } else {
      MulLeftMonotonic(-d, -d, 1.0);
      assert (-d) * (-d) == d * d;
    }
  }

  /** Multiplying by a positive factor keeps the sign. */
  lemma PositiveFactorSign(k: real, x: real)
    requires 0.0 < k
    ensures k * x < 0.0 <==> x < 0.0
    ensures k * x > 0.0 <==> x > 0.0
  {
    if x < 0.0 {
      MulLeftMonotonic(k, x, 0.0);
      ProductZero(k, x);
    } else {
      MulLeftMonotonic(k, 0.0, x);
      ProductZero(k, x);
    }
  }

  lemma SqrtOf(sqrt: real -> real, x: real)
    requires IsSqrt(sqrt) && 0.0 <= x
    ensures 0.0 <= sqrt(x) && sqrt(x) * sqrt(x) == x
  {
    assert Root(sqrt, x) == sqrt(x);
  }

  /** The root of a positive number is positive. */
  lemma SqrtPositive(sqrt: real -> real, x: real)
    requires IsSqrt(sqrt) && 0.0 < x
    ensures 0.0 < sqrt(x)
  {
    SqrtOf(sqrt, x);
  }

  /** The root is zero exactly for zero. */
  lemma SqrtZeroIff(sqrt: real -> real, x: real)
    requires IsSqrt(sqrt) && 0.0 <= x
    ensures sqrt(x) == 0.0 <==> x == 0.0
  {
    SqrtOf(sqrt, x);
    ProductZero(sqrt(x), sqrt(x));
  }

  /** Any non-negative y with y*y == x is the root of x. */
  lemma SqrtUnique(sqrt: real -> real, x: real, y: real)
    requires IsSqrt(sqrt) && 0.0 <= y && y * y == x
    ensures sqrt(x) == y
  {
    var s := sqrt(x);
    SqrtOf(sqrt, x);
    assert (s - y) * (s + y) == 0.0;
    ProductZero(s - y, s + y);
  }

  /** Gamma correction by square root is strictly monotonic on [0, oo). */
  lemma SqrtStrictlyMonotonic(sqrt: real -> real, x1: real, x2: real)
    requires IsSqrt(sqrt) && 0.0 <= x1 < x2
    ensures sqrt(x1) < sqrt(x2)
  {
    var s1, s2 := sqrt(x1), sqrt(x2);
    SqrtOf(sqrt, x1);
    SqrtOf(sqrt, x2);
  }

  /** sqrt(1) == 1 and sqrt(0) == 0. */
  lemma SqrtOneZero(sqrt: real -> real)
    requires IsSqrt(sqrt)
    ensures sqrt(1.0) == 1.0 && sqrt(0.0) == 0.0
  {
    SqrtUnique(sqrt, 1.0, 1.0);
    SqrtUnique(sqrt, 0.0, 0.0);
  }
}
