/**
 * Homogeneous 4-component vectors (lib/vec.hpp). A point carries w = 1 and a
 * free vector w = 0; arithmetic acts on all four components and does not
 * enforce that convention.
 */
module Vectors {
  import opened RtMath

  datatype Vec = Vec(x: real, y: real, z: real, w: real)

  predicate IsPoint(v: Vec) { v.w == 1.0 }

  predicate IsVector(v: Vec) { v.w == 0.0 }

  /** make_point(x, y, z): the point with those coordinates. */
  function Point(x: real, y: real, z: real): (p: Vec)
    ensures IsPoint(p)
    ensures p.x == x && p.y == y && p.z == z
  {
    Vec(x, y, z, 1.0)
  }

  /** make_point(a): the point with all three coordinates a. */
  function UniformPoint(a: real): (p: Vec)
    ensures p == Point(a, a, a)
  {
    Vec(a, a, a, 1.0)
  }

  /** make_vector(x, y, z): the free vector with those coordinates. */
  function Vector(x: real, y: real, z: real): (v: Vec)
    ensures IsVector(v)
    ensures v.x == x && v.y == y && v.z == z
  {
    Vec(x, y, z, 0.0)
  }

  /** make_vector(a): the free vector with all three coordinates a. */
  function UniformVector(a: real): (v: Vec)
    ensures v == Vector(a, a, a)
  {
    Vec(a, a, a, 0.0)
  }

  /** dot, and the vec * vec operator: the four-term sum, w included. */
  function Dot(a: Vec, b: Vec): real
  {
    a.x * b.x + a.y * b.y + a.z * b.z + a.w * b.w
  }

  /** cross: the three-dimensional cross product, always a free vector. */
  function Cross(a: Vec, b: Vec): (r: Vec)
    ensures IsVector(r)
    ensures r.x * a.x + r.y * a.y + r.z * a.z == 0.0
    ensures r.x * b.x + r.y * b.y + r.z * b.z == 0.0
  {
    Vector(a.y * b.z - a.z * b.y,
           a.z * b.x - a.x * b.z,
           a.x * b.y - a.y * b.x)
  }

  /** operator==: float_eq with the default epsilon on each of x, y, z, w. */
  predicate ApproxEq(a: Vec, b: Vec)
  {
    NearlyEq(a.x, b.x) && NearlyEq(a.y, b.y) && NearlyEq(a.z, b.z) && NearlyEq(a.w, b.w)
  }

  /** Unary operator+. */
  function Pos(a: Vec): Vec { a }

  /** Unary operator-. */
  function Neg(a: Vec): Vec
  {
    Vec(-a.x, -a.y, -a.z, -a.w)
  }

  /** Binary operator+. */
  function Add(a: Vec, b: Vec): Vec
  {
    Vec(a.x + b.x, a.y + b.y, a.z + b.z, a.w + b.w)
  }

  /** Binary operator-. */
  function Sub(a: Vec, b: Vec): Vec
  {
    Vec(a.x - b.x, a.y - b.y, a.z - b.z, a.w - b.w)
  }

  /** operator* with a scalar. */
  function Scale(a: Vec, s: real): Vec
  {
    Vec(a.x * s, a.y * s, a.z * s, a.w * s)
  }

  /** operator/ with a scalar. */
  function Div(a: Vec, s: real): Vec
    requires s != 0.0
  {
    Vec(a.x / s, a.y / s, a.z / s, a.w / s)
  }

  /** magnitude: the square root of the sum of the squares of all four components. */
  function Magnitude(v: Vec, sqrt: real -> real): real
  {
    sqrt(Dot(v, v))
  }

  /**
   * normalize: the vec divided by its magnitude. A zero magnitude, where
   * the floats give NaN, gives the zero vec here.
   */
  function Normalize(v: Vec, sqrt: real -> real): Vec
  {
    var m := Magnitude(v, sqrt);
    Vec(Quotient(v.x, m), Quotient(v.y, m), Quotient(v.z, m), Quotient(v.w, m))
  }

  /** is_unit_vector: the magnitude is float_eq to 1. */
  predicate IsUnitVector(v: Vec, sqrt: real -> real)
  {
    NearlyEq(Magnitude(v, sqrt), 1.0)
  }

  /** dot is symmetric, so v1 * v2 == v2 * v1. */
  lemma DotCommutes(a: Vec, b: Vec)
    ensures Dot(a, b) == Dot(b, a)
  {
  }

  /** The w terms take part in dot: a point dotted with itself counts w * w = 1. */
  lemma DotIncludesW(a: Vec)
    requires IsPoint(a)
    ensures Dot(a, a) == a.x * a.x + a.y * a.y + a.z * a.z + 1.0
  {
  }

  /** cross is anticommutative. */
  lemma CrossAnticommutes(a: Vec, b: Vec)
    ensures Cross(b, a) == Neg(Cross(a, b))
  {
  }

  /** cross ignores w: crossing two points gives the same vector as crossing their free parts. */
  lemma CrossIgnoresW(a: Vec, b: Vec, wa: real, wb: real)
    ensures Cross(Vec(a.x, a.y, a.z, wa), Vec(b.x, b.y, b.z, wb)) == Cross(a, b)
  {
  }

  /** Point/vector bookkeeping of the componentwise operators. */
  lemma HomogeneousArithmetic(p: Vec, q: Vec, v: Vec, u: Vec, s: real)
    requires IsPoint(p) && IsPoint(q) && IsVector(v) && IsVector(u)
    ensures IsVector(Sub(p, q))
    ensures IsPoint(Add(p, v)) && IsPoint(Sub(p, v))
    ensures IsVector(Add(v, u)) && IsVector(Neg(v)) && IsVector(Scale(v, s))
    ensures !IsPoint(Add(p, q))
  {
  }

  /** Subtraction undoes addition, and is addition of the negation. */
  lemma SubIsAddNeg(a: Vec, b: Vec)
    ensures Sub(a, b) == Add(a, Neg(b))
    ensures Add(Sub(a, b), b) == a
    ensures Neg(Neg(a)) == a && Pos(a) == a
  {
  }

  /** Division by s is multiplication by 1/s, so v / 2 == v * 0.5. */
  lemma DivIsScaleByInverse(a: Vec, s: real)
    requires s != 0.0
    ensures Div(a, s) == Scale(a, 1.0 / s)
    ensures Scale(Div(a, s), s) == a
  {
  }

  /** The dot product of a vec with itself (w included) is never negative, and zero only for the zero vec. */
  lemma {:induction false} SelfDotNonNegative(v: Vec)
    ensures Dot(v, v) >= 0.0
    ensures Dot(v, v) == 0.0 <==> v == Vec(0.0, 0.0, 0.0, 0.0)
  {
    SquareNonNegative(v.x);
    SquareNonNegative(v.y);
    SquareNonNegative(v.z);
    SquareNonNegative(v.w);
    if Dot(v, v) == 0.0 {
      SquareZero(v.x);
      SquareZero(v.y);
      SquareZero(v.z);
      SquareZero(v.w);
    }
  }

  /** The magnitude is the non-negative root of v * v, and zero exactly for the zero vec. */
  lemma {:induction false} MagnitudeMeaning(v: Vec, sqrt: real -> real)
    requires IsSqrt(sqrt)
    ensures Magnitude(v, sqrt) >= 0.0
    ensures Magnitude(v, sqrt) * Magnitude(v, sqrt) == Dot(v, v)
    ensures Magnitude(v, sqrt) == 0.0 <==> v == Vec(0.0, 0.0, 0.0, 0.0)
  {
    var d := Dot(v, v);
    SelfDotNonNegative(v);
    var m := sqrt(d);
    assert m >= 0.0 && m * m == d;
    if v == Vec(0.0, 0.0, 0.0, 0.0) {
      SquareZero(m);
    }
  }

  /** The dot product is linear in its left argument under scaling. */
  lemma DotScaleLeft(a: Vec, b: Vec, k: real)
    ensures Dot(Scale(a, k), b) == k * Dot(a, b)
  {
  }

  /** The dot product is linear in its right argument under scaling. */
  lemma DotScaleRight(a: Vec, b: Vec, k: real)
    ensures Dot(a, Scale(b, k)) == k * Dot(a, b)
  {
  }

  /**
   * normalize of a nonzero vec has magnitude exactly 1 and points the same
   * way: scaling it back by the old magnitude gives the vec again.
   */
  lemma {:induction false} NormalizeIsUnit(v: Vec, sqrt: real -> real)
    requires IsSqrt(sqrt) && v != Vec(0.0, 0.0, 0.0, 0.0)
    ensures Dot(Normalize(v, sqrt), Normalize(v, sqrt)) == 1.0
    ensures Magnitude(Normalize(v, sqrt), sqrt) == 1.0 && IsUnitVector(Normalize(v, sqrt), sqrt)
    ensures Scale(Normalize(v, sqrt), Magnitude(v, sqrt)) == v
  {
    var m := Magnitude(v, sqrt);
    MagnitudeMeaning(v, sqrt);
    DivIsScaleByInverse(v, m);
    assert Normalize(v, sqrt) == Scale(v, 1.0 / m);
    var k := 1.0 / m;
    DotScaleLeft(v, Scale(v, k), k);
    DotScaleRight(v, v, k);
    InverseSquare(m, Dot(v, v));
    SqrtOfSquare(sqrt, 1.0);
  }

  /** The tolerant equality is reflexive and symmetric. */
  lemma ApproxEqReflexiveSymmetric(a: Vec, b: Vec)
    ensures ApproxEq(a, a)
    ensures ApproxEq(a, b) <==> ApproxEq(b, a)
  {
  }

  /** The regression value of dot: (1,2,3,0) . (2,3,4,0) == 20. */
  lemma DotRegression()
    ensures Dot(Vector(1.0, 2.0, 3.0), Vector(2.0, 3.0, 4.0)) == 20.0
  {
  }

  /** The regression values of cross, in both orders. */
  lemma CrossRegression()
    ensures Cross(Vector(1.0, 2.0, 3.0), Vector(2.0, 3.0, 4.0)) == Vector(-1.0, 2.0, -1.0)
    ensures Cross(Vector(2.0, 3.0, 4.0), Vector(1.0, 2.0, 3.0)) == Vector(1.0, -2.0, 1.0)
  {
  }

  /** The regression value of binary +. */
  lemma AddRegression()
    ensures Add(Vector(1.0, 2.0, 3.0), Vector(2.0, 3.0, 4.0)) == Vector(3.0, 5.0, 7.0)
  {
  }

  /** The regression value of binary -. */
  lemma SubRegression()
    ensures Sub(Vector(1.0, 2.0, 3.0), Vector(2.0, 3.0, 4.0)) == Vector(-1.0, -1.0, -1.0)
  {
  }

  /** The regression value of unary -; unary + returns its operand. */
  lemma NegRegression()
    ensures Neg(Vector(-1.0, 0.0, 3.0)) == Vector(1.0, 0.0, -3.0)
  {
  }

  /** The regression values of the scalar operators. */
  lemma ScalarRegression()
    ensures Scale(Vector(1.0, 2.0, 3.0), 0.5) == Div(Vector(1.0, 2.0, 3.0), 2.0)
    ensures Div(Vector(1.0, 2.0, 3.0), 0.5) == Scale(Vector(1.0, 2.0, 3.0), 2.0)
  {
  }

  /** The regression values of magnitude: 1 for the unit axes, and sqrt(14) for (1, 2, 3) and its negation. */
  lemma {:induction false} MagnitudeRegression(sqrt: real -> real)
    requires IsSqrt(sqrt)
    ensures Magnitude(Vector(1.0, 0.0, 0.0), sqrt) == 1.0
    ensures Magnitude(Vector(0.0, 1.0, 0.0), sqrt) == 1.0
    ensures Magnitude(Vector(0.0, 0.0, 1.0), sqrt) == 1.0
    ensures Magnitude(Vector(1.0, 2.0, 3.0), sqrt) == sqrt(14.0)
    ensures Magnitude(Vector(-1.0, -2.0, -3.0), sqrt) == sqrt(14.0)
  {
    SqrtOfSquare(sqrt, 1.0);
  }

  /** The regression values of normalize: (5, 0, 0) and (0, 0, -5) become unit axes, (1, 2, 3) is divided by sqrt(14). */
  lemma {:induction false} NormalizeRegression(sqrt: real -> real)
    requires IsSqrt(sqrt)
    ensures Normalize(Vector(5.0, 0.0, 0.0), sqrt) == Vector(1.0, 0.0, 0.0)
    ensures Normalize(Vector(0.0, 0.0, -5.0), sqrt) == Vector(0.0, 0.0, -1.0)
    ensures Normalize(Vector(1.0, 2.0, 3.0), sqrt)
         == Vector(1.0 / sqrt(14.0), 2.0 / sqrt(14.0), 3.0 / sqrt(14.0))
  {
    SqrtOfSquare(sqrt, 5.0);
    assert sqrt(14.0) > 0.0;
  }

  /** The regression values of is_unit_vector: (-1, 0, 0) is one, (2, 0, 0) is not, (1/sqrt 2, 1/sqrt 2, 0) is. */
  lemma {:induction false} IsUnitVectorRegression(sqrt: real -> real)
    requires IsSqrt(sqrt)
    ensures IsUnitVector(Vector(-1.0, 0.0, 0.0), sqrt)
    ensures !IsUnitVector(Vector(2.0, 0.0, 0.0), sqrt)
    ensures IsUnitVector(Vector(1.0 / sqrt(2.0), 1.0 / sqrt(2.0), 0.0), sqrt)
  {
    SqrtOfSquare(sqrt, 1.0);
    SqrtOfSquare(sqrt, 2.0);
    var r := sqrt(2.0);
    assert r * r == 2.0;
    assert (1.0 / r) * (1.0 / r) == 1.0 / 2.0;
    assert Dot(Vector(1.0 / r, 1.0 / r, 0.0), Vector(1.0 / r, 1.0 / r, 0.0)) == 1.0;
  }

  /** The regression values of operator==. */
  lemma ApproxEqRegression()
    ensures ApproxEq(Vector(1.0, 2.0, 3.0), Vector(1.0, 2.0, 3.0))
    ensures !ApproxEq(Vector(1.0, 2.0, 3.0), Vector(3.0, 4.0, 5.0))
  {
  }

  /**
   * A vec object whose compound assignment operators (+=, -=, *=, /=)
   * update its four fields in place.
   */
  class VecCell {
    var x: real
    var y: real
    var z: real
    var w: real

    function Value(): Vec
      reads this
    {
      Vec(x, y, z, w)
    }

    constructor (v: Vec)
      ensures Value() == v
    {
      x, y, z, w := v.x, v.y, v.z, v.w;
    }

    /** operator+=: the receiver becomes receiver + other. */
    method AddAssign(other: Vec)
      modifies this
      ensures Value() == Add(old(Value()), other)
    {
      x := x + other.x;
      y := y + other.y;
      z := z + other.z;
      w := w + other.w;
    }

    /** operator-=: the receiver becomes receiver - other. */
    method SubAssign(other: Vec)
      modifies this
      ensures Value() == Sub(old(Value()), other)
    {
      x := x - other.x;
      y := y - other.y;
      z := z - other.z;
      w := w - other.w;
    }

    /** operator*= with a scalar: the receiver becomes receiver * s. */
    method MulAssign(s: real)
      modifies this
      ensures Value() == Scale(old(Value()), s)
    {
      x := x * s;
      y := y * s;
      z := z * s;
      w := w * s;
    }

    /** operator/= with a scalar: the receiver becomes receiver / s. */
    method DivAssign(s: real)
      requires s != 0.0
      modifies this
      ensures Value() == Div(old(Value()), s)
    {
      x := x / s;
      y := y / s;
      z := z / s;
      w := w / s;
    }
  }
}
