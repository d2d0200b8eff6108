/**
 * Rays (lib/ray.hpp): an origin and a direction. dot and cross read only the
 * direction; transformation applies a 4 x 4 matrix to both parts.
 */
module Rays {
  import opened RtMath
  import V = Vectors
  import opened Matrices

  datatype Ray = Ray(origin: V.Vec, direction: V.Vec)

  /** dot with another ray: the dot product of the two directions. */
  function DotRay(r: Ray, other: Ray): real
  {
    V.Dot(r.direction, other.direction)
  }

  /** dot with a vec: the dot product of the direction with it. */
  function DotVec(r: Ray, v: V.Vec): real
  {
    V.Dot(r.direction, v)
  }

  /** cross with another ray: the cross product of the two directions. */
  function CrossRay(r: Ray, other: Ray): V.Vec
  {
    V.Cross(r.direction, other.direction)
  }

  /** cross with a vec: the cross product of the direction with it. */
  function CrossVec(r: Ray, v: V.Vec): V.Vec
  {
    V.Cross(r.direction, v)
  }

  /** point_along: origin + direction * distance. */
  function PointAlong(r: Ray, distance: real): V.Vec
  {
    V.Add(r.origin, V.Scale(r.direction, distance))
  }

  /** transform: the matrix applied to the origin and to the direction separately. */
  function Transform(r: Ray, m: Mat): Ray
    requires |m| == 4
  {
    Ray(MatVec(m, r.origin), MatVec(m, r.direction))
  }

  /** operator==: vec equality (float_eq on all four components) of both parts. */
  predicate ApproxEq(r: Ray, other: Ray)
  {
    V.ApproxEq(r.origin, other.origin) && V.ApproxEq(r.direction, other.direction)
  }

  /** Unary operator+. */
  function Pos(r: Ray): Ray { r }

  /** Unary operator-: the same origin, the opposite direction. */
  function Neg(r: Ray): Ray
  {
    Ray(r.origin, V.Neg(r.direction))
  }

  /** A ray object whose operator*= replaces it by its transform. */
  class RayCell {
    var origin: V.Vec
    var direction: V.Vec

    function Value(): Ray
      reads this
    {
      Ray(origin, direction)
    }

    constructor (r: Ray)
      ensures Value() == r
    {
      origin, direction := r.origin, r.direction;
    }

    /** operator*=: the receiver becomes receiver * m. */
    method MulAssign(m: Mat)
      requires |m| == 4
      modifies this
      ensures Value() == Transform(old(Value()), m)
    {
      var t := Transform(Value(), m);
      origin, direction := t.origin, t.direction;
    }
  }

  /** dot and cross never read the origin. */
  lemma {:induction false} DirectionOnly(r: Ray, other: Ray, o1: V.Vec, o2: V.Vec, v: V.Vec)
    ensures DotRay(Ray(o1, r.direction), Ray(o2, other.direction)) == DotRay(r, other)
    ensures CrossRay(Ray(o1, r.direction), Ray(o2, other.direction)) == CrossRay(r, other)
    ensures DotVec(Ray(o1, r.direction), v) == DotVec(r, v)
    ensures CrossVec(Ray(o1, r.direction), v) == CrossVec(r, v)
  {
  }

  /** Unary - keeps the origin and reverses the direction, so it is an involution; unary + is the identity. */
  lemma {:induction false} NegInvolution(r: Ray)
    ensures Neg(r).origin == r.origin && Neg(Neg(r)) == r && Pos(r) == r
    ensures forall t :: PointAlong(Neg(r), t) == PointAlong(r, -t)
  {
  }

  /** point_along(0) is the origin; a point moved along a free vector stays a point. */
  lemma {:induction false} PointAlongStart(r: Ray, distance: real)
    ensures PointAlong(r, 0.0) == r.origin
    ensures V.IsPoint(r.origin) && V.IsVector(r.direction) ==> V.IsPoint(PointAlong(r, distance))
    ensures V.Sub(PointAlong(r, distance), r.origin) == V.Scale(r.direction, distance)
  {
  }

  /** Moving s and then t along the direction is moving s + t, negative distances included. */
  lemma {:induction false} PointAlongAdditive(r: Ray, s: real, t: real)
    ensures PointAlong(r, s + t) == V.Add(PointAlong(r, s), V.Scale(r.direction, t))
  {
  }

  /** Transforming by b and then by a is transforming by the product a * b. */
  lemma {:induction false} TransformComposes(r: Ray, a: Mat, b: Mat)
    requires |a| == 4 && |b| == 4
    ensures Transform(Transform(r, b), a) == Transform(r, Product(a, b))
  {
    MatVecProduct(a, b, r.origin);
    MatVecProduct(a, b, r.direction);
  }

  /** A translation moves a point origin by its offset and leaves a free direction unchanged. */
  lemma {:induction false} TranslationMovesOriginOnly(r: Ray, x: real, y: real, z: real)
    requires V.IsPoint(r.origin) && V.IsVector(r.direction)
    ensures Transform(r, Translation(x, y, z)) == Ray(V.Add(r.origin, V.Vector(x, y, z)), r.direction)
  {
    TranslationAction(x, y, z, r.origin);
    TranslationAction(x, y, z, r.direction);
  }

  /** A scale multiplies the components of both origin and direction by its factors. */
  lemma {:induction false} ScaledScalesBoth(r: Ray, x: real, y: real, z: real)
    ensures Transform(r, Scaled(x, y, z)).direction
         == V.Vec(x * r.direction.x, y * r.direction.y, z * r.direction.z, r.direction.w)
    ensures Transform(r, Scaled(x, y, z)).origin
         == V.Vec(x * r.origin.x, y * r.origin.y, z * r.origin.z, r.origin.w)
  {
    ScaledAction(x, y, z, r.origin);
    ScaledAction(x, y, z, r.direction);
  }

  /** The regression values of dot between rays and with a vec: 20. */
  lemma DotRegression()
    ensures DotRay(Ray(V.UniformPoint(0.0), V.Vector(1.0, 2.0, 3.0)), Ray(V.UniformPoint(0.0), V.Vector(2.0, 3.0, 4.0))) == 20.0
    ensures DotVec(Ray(V.UniformPoint(0.0), V.Vector(1.0, 2.0, 3.0)), V.Vector(2.0, 3.0, 4.0)) == 20.0
  {
  }

  /** The regression value of point_along(0.0) on the ray from (2, 3, 4) along x. */
  lemma PointAlongZeroRegression()
    ensures PointAlong(Ray(V.Point(2.0, 3.0, 4.0), V.Vector(1.0, 0.0, 0.0)), 0.0) == V.Point(2.0, 3.0, 4.0)
  {
  }

  /** The regression value of point_along(1.0) on the ray from (2, 3, 4) along x. */
  lemma PointAlongOneRegression()
    ensures PointAlong(Ray(V.Point(2.0, 3.0, 4.0), V.Vector(1.0, 0.0, 0.0)), 1.0) == V.Point(3.0, 3.0, 4.0)
  {
  }

  /** The regression value of point_along(-1.0) on the ray from (2, 3, 4) along x. */
  lemma PointAlongBackRegression()
    ensures PointAlong(Ray(V.Point(2.0, 3.0, 4.0), V.Vector(1.0, 0.0, 0.0)), -1.0) == V.Point(1.0, 3.0, 4.0)
  {
    var p := PointAlong(Ray(V.Point(2.0, 3.0, 4.0), V.Vector(1.0, 0.0, 0.0)), -1.0);
    assert p.x == 1.0 && p.y == 3.0 && p.z == 4.0 && p.w == 1.0;
  }

  /** The regression value of point_along(2.5) on the ray from (2, 3, 4) along x. */
  lemma PointAlongFractionRegression()
    ensures PointAlong(Ray(V.Point(2.0, 3.0, 4.0), V.Vector(1.0, 0.0, 0.0)), 2.5) == V.Point(4.5, 3.0, 4.0)
  {
    var p := PointAlong(Ray(V.Point(2.0, 3.0, 4.0), V.Vector(1.0, 0.0, 0.0)), 2.5);
    assert p.x == 4.5 && p.y == 3.0 && p.z == 4.0 && p.w == 1.0;
  }

  /** The regression value of transform by make_translation(3, 4, 5). */
  lemma TranslateRegression()
    ensures Transform(Ray(V.Point(1.0, 2.0, 3.0), V.Vector(0.0, 1.0, 0.0)), Translation(3.0, 4.0, 5.0))
         == Ray(V.Point(4.0, 6.0, 8.0), V.Vector(0.0, 1.0, 0.0))
  {
    TranslationMovesOriginOnly(Ray(V.Point(1.0, 2.0, 3.0), V.Vector(0.0, 1.0, 0.0)), 3.0, 4.0, 5.0);
  }

  /** The regression value of transform by make_scaled(2, 3, 4). */
  lemma ScaleRegression()
    ensures Transform(Ray(V.Point(1.0, 2.0, 3.0), V.Vector(0.0, 1.0, 0.0)), Scaled(2.0, 3.0, 4.0))
         == Ray(V.Point(2.0, 6.0, 12.0), V.Vector(0.0, 3.0, 0.0))
  {
    ScaledScalesBoth(Ray(V.Point(1.0, 2.0, 3.0), V.Vector(0.0, 1.0, 0.0)), 2.0, 3.0, 4.0);
  }
}
