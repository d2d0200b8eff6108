/**
 * Scene objects and the sphere intersection test (lib/world.hpp). An object
 * is a unit sphere placed by its model transform; a ray is brought into the
 * sphere's own space by the inverse of that transform and the hits are the
 * roots of the quadratic |origin + t * direction - (0, 0, 0, 1)|^2 = 1,
 * where the dot products include w.
 */
module Spheres {
  import opened RtMath
  import V = Vectors
  import opened Matrices
  import opened Rays
  import opened Intersections
  import Transforms

  /** object with its only kind, sphere: an id and the translation and scale of its model transform. */
  datatype Object = Sphere(id: nat, translation: V.Vec, scale: V.Vec)

  /** A sphere as constructed, before add places it: the default transform. */
  function NewSphere(id: nat): Object
  {
    Sphere(id, V.Point(0.0, 0.0, 0.0), V.Vector(1.0, 1.0, 1.0))
  }

  /** The model matrix: the transform's cache, make_translation(translation) * make_scaled(scale). */
  function Model(o: Object): (m: Mat)
    ensures m == Product(TranslationBy(o.translation), ScaledBy(o.scale))
  {
    TranslationScaledProduct(o.translation, o.scale);
    TranslateScale(o.translation, o.scale)
  }

  /** object::operator==: objects are equal when their ids are. */
  predicate SameObject(o: Object, other: Object)
  {
    o.id == other.id
  }

  /** The ray in the sphere's space and the coefficients a, b, c of the quadratic in the distance. */
  datatype Quadratic = Quadratic(local: Ray, a: real, b: real, c: real)

  /** The vector from the sphere's centre (the point (0, 0, 0)) to p. */
  function FromCentre(p: V.Vec): V.Vec
  {
    V.Sub(p, V.Point(0.0, 0.0, 0.0))
  }

  /** r *= model.get_transform().inverse(): the ray carried into the sphere's own space. */
  function Local(o: Object, r: Ray): Ray
  {
    Transform(r, InverseOf(Model(o)))
  }

  /** The coefficients a, b, c computed from a ray in the sphere's space. */
  function QuadraticOf(local: Ray): Quadratic
  {
    var sphereToRay := FromCentre(local.origin);
    Quadratic(local,
              V.Dot(local.direction, local.direction),
              V.Dot(local.direction, sphereToRay) * 2.0,
              V.Dot(sphereToRay, sphereToRay) - 1.0)
  }

  /** The set-up shared by intersects and intersections. */
  function Setup(o: Object, r: Ray): Quadratic
  {
    QuadraticOf(Local(o, r))
  }

  /** The set-up's coefficients are those of the squared distance from the centre along its ray. */
  predicate Coefficients(q: Quadratic)
  {
    && q.a == V.Dot(q.local.direction, q.local.direction)
    && q.b == V.Dot(q.local.direction, FromCentre(q.local.origin)) * 2.0
    && q.c == V.Dot(FromCentre(q.local.origin), FromCentre(q.local.origin)) - 1.0
  }

  /** The discriminant b * b - 4 * a * c. */
  function Discriminant(q: Quadratic): real
  {
    q.b * q.b - 4.0 * q.a * q.c
  }

  /** sphere::intersects: the discriminant is not negative. */
  predicate Intersects(o: Object, r: Ray)
  {
    Discriminant(Setup(o, r)) >= 0.0
  }

  /**
   * The hits of a set-up: nothing for a negative discriminant, otherwise the
   * two roots, the smaller-numerator one first, each with the object's id and
   * the ray in the sphere's space.
   */
  function Roots(q: Quadratic, id: nat, sqrt: real -> real): (out: seq<Intersection>)
    ensures |out| == 0 || |out| == 2
    ensures forall h :: h in out ==> h.objectID == id && h.rayHit == q.local
  {
    var d := Discriminant(q);
    if d >= 0.0 then
      [Intersection(q.local, Quotient(-q.b - sqrt(d), 2.0 * q.a), id),
       Intersection(q.local, Quotient(-q.b + sqrt(d), 2.0 * q.a), id)]
    else []
  }

  /** sphere::intersections: the roots of the object's set-up for the ray. */
  function SphereIntersections(o: Object, r: Ray, sqrt: real -> real): (out: seq<Intersection>)
    ensures |out| == 0 || |out| == 2
    ensures forall h :: h in out ==> h.objectID == o.id && h.rayHit == Setup(o, r).local
  {
    Roots(Setup(o, r), o.id, sqrt)
  }

  /** intersects(r) holds exactly when intersections(r) is not empty. */
  lemma {:induction false} IntersectsIffHits(o: Object, r: Ray, sqrt: real -> real)
    ensures Intersects(o, r) <==> |SphereIntersections(o, r, sqrt)| == 2
    ensures !Intersects(o, r) <==> SphereIntersections(o, r, sqrt) == []
  {
  }

  // ---------------------------------------------------------------------
  // Pure real arithmetic

  /** The square of u + e * t, expanded. */
  lemma {:induction false} SquareAlong(u: real, e: real, t: real)
    ensures (u + e * t) * (u + e * t) == u * u + (e * u * 2.0) * t + (e * e) * (t * t)
  {
  }

  /** A root given by the quadratic formula solves the quadratic. */
  lemma {:induction false} FormulaRoot(a: real, b: real, c: real, s: real, t: real)
    requires a != 0.0 && s * s == b * b - 4.0 * a * c
    requires t * (2.0 * a) == -b - s || t * (2.0 * a) == -b + s
    ensures a * (t * t) + b * t + c == 0.0
  {
    var u := t * (2.0 * a);
    assert (u + b) * (u + b) == s * s;
    assert 4.0 * a * (a * (t * t) + b * t + c) == u * u + 2.0 * b * u + 4.0 * a * c;
  }

  /** With a negative discriminant the quadratic has no root. */
  lemma {:induction false} NoRoot(a: real, b: real, c: real, t: real)
    requires b * b - 4.0 * a * c < 0.0
    ensures a * (t * t) + b * t + c != 0.0
  {
    var u := t * (2.0 * a);
    var w := u + b;
    assert 4.0 * a * (a * (t * t) + b * t + c) == w * w - (b * b - 4.0 * a * c);
    assert w * w >= 0.0;
  }

  /** Dividing by a positive number keeps the order. */
  lemma {:induction false} QuotientMonotone(p: real, q: real, d: real)
    requires p <= q && d > 0.0
    ensures Quotient(p, d) <= Quotient(q, d)
  {
    assert q / d - p / d == (q - p) / d;
  }

  // ---------------------------------------------------------------------
  // Geometry of the hits

  /** The dot product of u + t * e with itself, as a quadratic in t. */
  lemma {:induction false} SelfDotAlong(u: V.Vec, e: V.Vec, t: real)
    ensures V.Dot(V.Add(u, V.Scale(e, t)), V.Add(u, V.Scale(e, t)))
         == V.Dot(e, e) * (t * t) + (V.Dot(e, u) * 2.0) * t + V.Dot(u, u)
  {
    SquareAlong(u.x, e.x, t);
    SquareAlong(u.y, e.y, t);
    SquareAlong(u.z, e.z, t);
    SquareAlong(u.w, e.w, t);
  }

  /** |p - centre|^2 at the point t along a ray, as the quadratic a t^2 + b t + (c + 1). */
  lemma {:induction false} DistanceAlong(q: Quadratic, t: real)
    requires Coefficients(q)
    ensures V.Dot(FromCentre(PointAlong(q.local, t)), FromCentre(PointAlong(q.local, t)))
         == q.a * (t * t) + q.b * t + q.c + 1.0
  {
    var u, e := FromCentre(q.local.origin), q.local.direction;
    assert FromCentre(PointAlong(q.local, t)) == V.Add(u, V.Scale(e, t));
    SelfDotAlong(u, e, t);
  }

  /** A distance given by the quadratic formula solves the quadratic. */
  lemma {:induction false} RootSolves(q: Quadratic, s: real, t: real)
    requires q.a != 0.0 && s * s == Discriminant(q)
    requires t == Quotient(-q.b - s, 2.0 * q.a) || t == Quotient(-q.b + s, 2.0 * q.a)
    ensures q.a * (t * t) + q.b * t + q.c == 0.0
  {
    FormulaRoot(q.a, q.b, q.c, s, t);
  }

  /** What a hit is: the ray in the sphere's space, at one of the two roots of a non-negative discriminant. */
  lemma {:induction false} HitShape(o: Object, r: Ray, sqrt: real -> real, h: Intersection)
    requires h in SphereIntersections(o, r, sqrt)
    ensures Intersects(o, r) && h.rayHit == Setup(o, r).local && h.objectID == o.id
    ensures var q := Setup(o, r);
            var s := sqrt(Discriminant(q));
            h.distance == Quotient(-q.b - s, 2.0 * q.a) || h.distance == Quotient(-q.b + s, 2.0 * q.a)
  {
  }

  /** The point at a root given by the quadratic formula is at squared distance 1 from the centre. */
  lemma {:induction false} FormulaOnSurface(q: Quadratic, sqrt: real -> real, t: real)
    requires Coefficients(q) && IsSqrt(sqrt) && q.a != 0.0 && Discriminant(q) >= 0.0
    requires var s := sqrt(Discriminant(q));
             t == Quotient(-q.b - s, 2.0 * q.a) || t == Quotient(-q.b + s, 2.0 * q.a)
    ensures var p := FromCentre(PointAlong(q.local, t)); V.Dot(p, p) == 1.0
  {
    var d := Discriminant(q);
    assert sqrt(d) * sqrt(d) == d;
    RootSolves(q, sqrt(d), t);
    DistanceAlong(q, t);
  }

  /**
   * Every hit lies on the unit sphere of the object's space: the point at
   * the hit's distance along the hit's ray is at squared distance 1 from the
   * centre (w included), provided the quadratic's leading coefficient is not
   * zero.
   */
  lemma {:induction false} HitsOnSurface(o: Object, r: Ray, sqrt: real -> real, h: Intersection)
    requires IsSqrt(sqrt) && Setup(o, r).a != 0.0
    requires h in SphereIntersections(o, r, sqrt)
    ensures V.Dot(FromCentre(PointAlong(h.rayHit, h.distance)), FromCentre(PointAlong(h.rayHit, h.distance))) == 1.0
  {
    HitShape(o, r, sqrt, h);
    FormulaOnSurface(Setup(o, r), sqrt, h.distance);
  }

  /** With a negative discriminant no distance solves the quadratic. */
  lemma {:induction false} NoRootAt(q: Quadratic, t: real)
    requires Discriminant(q) < 0.0
    ensures q.a * (t * t) + q.b * t + q.c != 0.0
  {
    NoRoot(q.a, q.b, q.c, t);
  }

  /** A ray that misses never meets the unit sphere of the object's space, at any distance. */
  lemma {:induction false} MissNeverOnSurface(o: Object, r: Ray, t: real)
    requires !Intersects(o, r)
    ensures V.Dot(FromCentre(PointAlong(Setup(o, r).local, t)), FromCentre(PointAlong(Setup(o, r).local, t))) != 1.0
  {
    var q := Setup(o, r);
    NoRootAt(q, t);
    DistanceAlong(q, t);
  }

  /** The inverse of the model matrix for nonzero scale factors, as a transform of the same shape. */
  lemma {:induction false} InverseModel(o: Object)
    requires o.scale.x != 0.0 && o.scale.y != 0.0 && o.scale.z != 0.0
    ensures InverseOf(Model(o)) == TranslateScale(
      V.Vec(-o.translation.x / o.scale.x, -o.translation.y / o.scale.y, -o.translation.z / o.scale.z, 0.0),
      V.Vec(1.0 / o.scale.x, 1.0 / o.scale.y, 1.0 / o.scale.z, 0.0))
  {
    TranslateScaleInverse(o.translation, o.scale);
  }

  /** A matrix of the model's shape with nonzero scale factors maps a nonzero vector to a nonzero one. */
  lemma {:induction false} TranslateScaleKeepsNonzero(t: V.Vec, k: V.Vec, d: V.Vec)
    requires k.x != 0.0 && k.y != 0.0 && k.z != 0.0
    requires d != V.Vec(0.0, 0.0, 0.0, 0.0)
    ensures MatVec(TranslateScale(t, k), d) != V.Vec(0.0, 0.0, 0.0, 0.0)
  {
    Transforms.TranslateScaleAction(t, k, d);
    if d.w == 0.0 {
      if d.x != 0.0 {
        ProductNonzero(k.x, d.x, 1.0);
      } else if d.y != 0.0 {
        ProductNonzero(k.y, d.y, 1.0);
      } else {
        ProductNonzero(k.z, d.z, 1.0);
      }
    }
  }

  /** A nonzero direction stays nonzero in the sphere's space. */
  lemma {:induction false} LocalDirectionNonzero(o: Object, r: Ray)
    requires r.direction != V.Vec(0.0, 0.0, 0.0, 0.0)
    ensures Setup(o, r).local.direction != V.Vec(0.0, 0.0, 0.0, 0.0)
  {
    var s := o.scale;
    if s.x != 0.0 && s.y != 0.0 && s.z != 0.0 {
      InverseModel(o);
      TranslateScaleKeepsNonzero(
        V.Vec(-o.translation.x / s.x, -o.translation.y / s.y, -o.translation.z / s.z, 0.0),
        V.Vec(1.0 / s.x, 1.0 / s.y, 1.0 / s.z, 0.0),
        r.direction);
    } else {
      TranslateScaleSingular(o.translation, o.scale);
      IdentityAction(r.direction);
    }
  }

  /**
   * The first hit is never farther than the second: the quadratic's leading
   * coefficient is a dot product of a vector with itself, so when it is not
   * zero it is positive and the smaller numerator gives the smaller distance.
   */
  lemma {:induction false} HitsOrdered(o: Object, r: Ray, sqrt: real -> real)
    requires IsSqrt(sqrt) && Intersects(o, r) && Setup(o, r).a != 0.0
    ensures SphereIntersections(o, r, sqrt)[0].distance <= SphereIntersections(o, r, sqrt)[1].distance
  {
    var q := Setup(o, r);
    var d := Discriminant(q);
    V.SelfDotNonNegative(q.local.direction);
    QuotientMonotone(-q.b - sqrt(d), -q.b + sqrt(d), 2.0 * q.a);
  }
}
