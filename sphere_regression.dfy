/**
 * The sphere cases of the intersection tests (test/world.cpp), worked out
 * exactly: a unit sphere hit head on, grazed, missed, hit from inside and
 * from behind, then moved aside and scaled up.
 */
module SphereRegressions {
  import opened RtMath
  import opened Vectors
  import opened Matrices
  import opened Rays
  import opened Intersections
  import opened Spheres
  import Transforms

  /** The ray of the tests: from (0, 0, z) along +z. */
  function AlongZ(y: real, z: real): Ray
  {
    Ray(Point(0.0, y, z), Vector(0.0, 0.0, 1.0))
  }

  /** The object carries the default transform: no translation, unit scale. */
  predicate IsDefault(o: Object)
  {
    o.translation == Point(0.0, 0.0, 0.0) && o.scale == Vector(1.0, 1.0, 1.0)
  }

  /** A sphere with the default transform leaves the ray as it is. */
  lemma {:induction false} DefaultSphereLocal(o: Object, r: Ray)
    requires IsDefault(o)
    ensures Local(o, r) == r
  {
    Transforms.DefaultIsIdentity();
    InverseIdentity(4);
    IdentityAction(r.origin);
    IdentityAction(r.direction);
  }

  /** The hits on a sphere with the default transform are the roots for the ray itself. */
  lemma {:induction false} DefaultSphereHits(o: Object, r: Ray, sqrt: real -> real)
    requires IsDefault(o)
    ensures Setup(o, r) == QuadraticOf(r)
    ensures SphereIntersections(o, r, sqrt) == Roots(QuadraticOf(r), o.id, sqrt)
  {
    DefaultSphereLocal(o, r);
  }

  /** The quadratic of a ray from (px, py, pz) along the z axis with speed dz. */
  lemma {:induction false} AxisQuadratic(px: real, py: real, pz: real, dz: real, q: Quadratic)
    requires q == QuadraticOf(Ray(Point(px, py, pz), Vector(0.0, 0.0, dz)))
    ensures q == Quadratic(Ray(Point(px, py, pz), Vector(0.0, 0.0, dz)),
                           dz * dz, dz * pz * 2.0, px * px + py * py + pz * pz - 1.0)
  {
  }

  /** A value that is the square of a nonzero number is positive. */
  lemma {:induction false} SquarePositive(a: real, d: real)
    requires d != 0.0 && a == d * d
    ensures a > 0.0
  {
    if d < 0.0 {
      assert a / (-d) == -d;
    } else {
      assert a / d == d;
    }
  }

  /** b^2 - 4ac over plain coefficients. */
  function Disc(a: real, b: real, c: real): real
  {
    b * b - 4.0 * a * c
  }

  /** The discriminant of a quadratic is Disc of its three coefficients. */
  lemma {:induction false} DiscriminantIs(q: Quadratic)
    ensures Discriminant(q) == Disc(q.a, q.b, q.c)
  {
  }

  /** When the discriminant is the square of s >= 0, the hits lie at (-b - s) / 2a and (-b + s) / 2a. */
  lemma {:induction false} RootsAt(q: Quadratic, id: nat, sqrt: real -> real, s: real)
    requires IsSqrt(sqrt)
    requires s >= 0.0 && Discriminant(q) == s * s && q.a != 0.0
    ensures Discriminant(q) >= 0.0
    ensures Roots(q, id, sqrt) == [Intersection(q.local, (-q.b - s) / (2.0 * q.a), id),
                                   Intersection(q.local, (-q.b + s) / (2.0 * q.a), id)]
  {
    SquareNonNegative(s);
    SqrtOfSquare(sqrt, s);
  }

  /**
   * The roots for a ray l along the z axis, from (px, py, pz) with speed dz != 0: when the
   * discriminant is s^2, they are t0 and t1 of the quadratic formula.
   */
  lemma {:induction false} AxisRoots(l: Ray, px: real, py: real, pz: real, dz: real, id: nat,
                                     sqrt: real -> real, s: real, t0: real, t1: real)
    requires IsSqrt(sqrt) && l == Ray(Point(px, py, pz), Vector(0.0, 0.0, dz)) && dz != 0.0
    requires s >= 0.0 && s * s == Disc(dz * dz, dz * pz * 2.0, px * px + py * py + pz * pz - 1.0)
    requires t0 == (-(dz * pz * 2.0) - s) / (2.0 * (dz * dz))
    requires t1 == (-(dz * pz * 2.0) + s) / (2.0 * (dz * dz))
    ensures Discriminant(QuadraticOf(l)) >= 0.0
    ensures Roots(QuadraticOf(l), id, sqrt) == [Intersection(l, t0, id), Intersection(l, t1, id)]
  {
    AxisQuadratic(px, py, pz, dz, QuadraticOf(l));
    SquarePositive(QuadraticOf(l).a, dz);
    DiscriminantIs(QuadraticOf(l));
    RootsAt(QuadraticOf(l), id, sqrt, s);
  }

  /** No roots for a ray l along the z axis, from (px, py, pz) with speed dz, when its discriminant is negative. */
  lemma {:induction false} AxisMiss(l: Ray, px: real, py: real, pz: real, dz: real, id: nat, sqrt: real -> real)
    requires l == Ray(Point(px, py, pz), Vector(0.0, 0.0, dz))
    requires Disc(dz * dz, dz * pz * 2.0, px * px + py * py + pz * pz - 1.0) < 0.0
    ensures Discriminant(QuadraticOf(l)) < 0.0
    ensures Roots(QuadraticOf(l), id, sqrt) == []
  {
    AxisQuadratic(px, py, pz, dz, QuadraticOf(l));
    DiscriminantIs(QuadraticOf(l));
  }

  /** For the ray from (0, y, z) along +z at unit speed the discriminant is 4 - 4y^2, whatever z is. */
  lemma {:induction false} AlongZDisc(y: real, z: real)
    ensures Disc(1.0 * 1.0, 1.0 * z * 2.0, 0.0 * 0.0 + y * y + z * z - 1.0) == 4.0 - 4.0 * (y * y)
  {
  }

  /** The roots for the ray r from (0, y, z) along +z with |y| <= 1: at -z -+ s/2 where s^2 = 4 - 4y^2. */
  lemma {:induction false} AlongZRoots(r: Ray, y: real, z: real, id: nat, sqrt: real -> real, s: real, t0: real, t1: real)
    requires IsSqrt(sqrt) && r == AlongZ(y, z)
    requires s >= 0.0 && s * s == 4.0 - 4.0 * (y * y)
    requires t0 == -z - s / 2.0 && t1 == -z + s / 2.0
    ensures Discriminant(QuadraticOf(r)) >= 0.0
    ensures Roots(QuadraticOf(r), id, sqrt) == [Intersection(r, t0, id), Intersection(r, t1, id)]
  {
    AlongZDisc(y, z);
    AxisRoots(r, 0.0, y, z, 1.0, id, sqrt, s, t0, t1);
  }

  /** No roots for the ray r from (0, y, z) along +z with |y| > 1. */
  lemma {:induction false} AlongZMiss(r: Ray, y: real, z: real, id: nat, sqrt: real -> real)
    requires r == AlongZ(y, z) && y * y > 1.0
    ensures Discriminant(QuadraticOf(r)) < 0.0
    ensures Roots(QuadraticOf(r), id, sqrt) == []
  {
    AlongZDisc(y, z);
    AxisMiss(r, 0.0, y, z, 1.0, id, sqrt);
  }

  /** A default sphere and the ray from (0, y, z) along +z with |y| <= 1: hits at -z -+ sqrt(1 - y^2). */
  lemma {:induction false} DefaultSphereRoots(o: Object, r: Ray, y: real, z: real, sqrt: real -> real, s: real, t0: real, t1: real)
    requires IsDefault(o) && IsSqrt(sqrt) && r == AlongZ(y, z)
    requires s >= 0.0 && s * s == 4.0 - 4.0 * (y * y)
    requires t0 == -z - s / 2.0 && t1 == -z + s / 2.0
    ensures Intersects(o, r)
    ensures SphereIntersections(o, r, sqrt) == [Intersection(r, t0, o.id), Intersection(r, t1, o.id)]
  {
    DefaultSphereHits(o, r, sqrt);
    AlongZRoots(r, y, z, o.id, sqrt, s, t0, t1);
  }

  /** A default sphere and the ray from (0, y, z) along +z with |y| > 1: no hits. */
  lemma {:induction false} DefaultSphereMiss(o: Object, r: Ray, y: real, z: real, sqrt: real -> real)
    requires IsDefault(o) && r == AlongZ(y, z) && y * y > 1.0
    ensures !Intersects(o, r)
    ensures SphereIntersections(o, r, sqrt) == []
  {
    DefaultSphereHits(o, r, sqrt);
    AlongZMiss(r, y, z, o.id, sqrt);
  }

  /** Direct hit: the ray from (0, 0, -5) meets the sphere at distances 4 and 6. */
  lemma {:induction false} DirectHitRegression(sqrt: real -> real, o: Object, r: Ray)
    requires IsSqrt(sqrt) && o == NewSphere(1) && r == AlongZ(0.0, -5.0)
    ensures Intersects(o, r)
    ensures SphereIntersections(o, r, sqrt) == [Intersection(r, 4.0, 1), Intersection(r, 6.0, 1)]
  {
    DefaultSphereRoots(o, r, 0.0, -5.0, sqrt, 2.0, 4.0, 6.0);
  }

  /** Tangent: the ray from (0, 1, -5) grazes the sphere, both hits at distance 5. */
  lemma {:induction false} TangentRegression(sqrt: real -> real, o: Object, r: Ray)
    requires IsSqrt(sqrt) && o == NewSphere(1) && r == AlongZ(1.0, -5.0)
    ensures Intersects(o, r)
    ensures SphereIntersections(o, r, sqrt) == [Intersection(r, 5.0, 1), Intersection(r, 5.0, 1)]
  {
    assert 0.0 * 0.0 == 4.0 - 4.0 * (1.0 * 1.0);
    DefaultSphereRoots(o, r, 1.0, -5.0, sqrt, 0.0, 5.0, 5.0);
  }

  /** Miss: the ray from (0, 2, -5) passes the sphere by. */
  lemma {:induction false} MissRegression(sqrt: real -> real, o: Object, r: Ray)
    requires o == NewSphere(1) && r == AlongZ(2.0, -5.0)
    ensures !Intersects(o, r)
    ensures SphereIntersections(o, r, sqrt) == []
  {
    DefaultSphereMiss(o, r, 2.0, -5.0, sqrt);
  }

  /** Inside: from the centre, one hit lies behind the origin (-1) and one ahead (1). */
  lemma {:induction false} InsideRegression(sqrt: real -> real, o: Object, r: Ray)
    requires IsSqrt(sqrt) && o == NewSphere(1) && r == AlongZ(0.0, 0.0)
    ensures Intersects(o, r)
    ensures SphereIntersections(o, r, sqrt) == [Intersection(r, -1.0, 1), Intersection(r, 1.0, 1)]
  {
    DefaultSphereRoots(o, r, 0.0, 0.0, sqrt, 2.0, -1.0, 1.0);
  }

  /** Ahead of: from (0, 0, 5) both hits lie behind the origin, at -6 and -4. */
  lemma {:induction false} AheadOfRegression(sqrt: real -> real, o: Object, r: Ray)
    requires IsSqrt(sqrt) && o == NewSphere(1) && r == AlongZ(0.0, 5.0)
    ensures Intersects(o, r)
    ensures SphereIntersections(o, r, sqrt) == [Intersection(r, -6.0, 1), Intersection(r, -4.0, 1)]
  {
    DefaultSphereRoots(o, r, 0.0, 5.0, sqrt, 2.0, -6.0, -4.0);
  }

  /** Once the sphere space ray is known to be l, the set-up and the hits are those of l. */
  lemma {:induction false} LocalHits(o: Object, r: Ray, sqrt: real -> real, l: Ray)
    requires Local(o, r) == l
    ensures Setup(o, r) == QuadraticOf(l)
    ensures Intersects(o, r) <==> Discriminant(QuadraticOf(l)) >= 0.0
    ensures SphereIntersections(o, r, sqrt) == Roots(QuadraticOf(l), o.id, sqrt)
  {
  }

  /** The sphere space of a placed sphere: the closed-form inverse of its model matrix applied to the ray. */
  lemma {:induction false} PlacedLocal(o: Object, r: Ray, t: Vec, k: Vec)
    requires o.translation == t && o.scale == k
    requires k.x != 0.0 && k.y != 0.0 && k.z != 0.0
    ensures Local(o, r) == Transform(r, TranslateScale(Vec(-t.x / k.x, -t.y / k.y, -t.z / k.z, 0.0),
                                                       Vec(1.0 / k.x, 1.0 / k.y, 1.0 / k.z, 0.0)))
  {
    InverseModel(o);
  }

  /**
   * The inverse transform of a sphere at t with uniform scale k maps the ray from (0, y, z)
   * along +z to the ray from (-t.x / k, (y - t.y) / k, (z - t.z) / k) along +z at speed 1 / k.
   */
  lemma {:induction false} UniformInverseAlongZ(t: Vec, k: real, y: real, z: real,
                                                px: real, py: real, pz: real, dz: real)
    requires k != 0.0
    requires px == -t.x / k && py == (y - t.y) / k && pz == (z - t.z) / k && dz == 1.0 / k
    ensures var m := TranslateScale(Vec(-t.x / k, -t.y / k, -t.z / k, 0.0), Vec(1.0 / k, 1.0 / k, 1.0 / k, 0.0));
            MatVec(m, Point(0.0, y, z)) == Point(px, py, pz) && MatVec(m, Vector(0.0, 0.0, 1.0)) == Vector(0.0, 0.0, dz)
  {
    var u, s := Vec(-t.x / k, -t.y / k, -t.z / k, 0.0), Vec(1.0 / k, 1.0 / k, 1.0 / k, 0.0);
    Transforms.TranslateScaleAction(u, s, Point(0.0, y, z));
    Transforms.TranslateScaleAction(u, s, Vector(0.0, 0.0, 1.0));
    assert (1.0 / k) * y + (-t.y / k) * 1.0 == (y - t.y) / k;
    assert (1.0 / k) * z + (-t.z / k) * 1.0 == (z - t.z) / k;
  }

  /** A sphere at t with uniform scale k sees the ray from (0, y, z) along +z as (px, py, pz) along +z at speed dz. */
  lemma {:induction false} UniformLocal(o: Object, r: Ray, y: real, z: real, k: real,
                                        px: real, py: real, pz: real, dz: real)
    requires o.scale == Vector(k, k, k) && k != 0.0 && r == AlongZ(y, z)
    requires px == -o.translation.x / k && py == (y - o.translation.y) / k
    requires pz == (z - o.translation.z) / k && dz == 1.0 / k
    ensures Local(o, r) == Ray(Point(px, py, pz), Vector(0.0, 0.0, dz))
  {
    PlacedLocal(o, r, o.translation, o.scale);
    UniformInverseAlongZ(o.translation, k, y, z, px, py, pz, dz);
  }

  /**
   * A sphere at t with uniform scale k and the ray from (0, y, z) along +z: when the sphere
   * space ray (px, py, pz) along +z at speed dz has discriminant s^2, the hits are t0 and t1.
   */
  lemma {:induction false} UniformRoots(o: Object, r: Ray, y: real, z: real, k: real,
                                        px: real, py: real, pz: real, dz: real,
                                        sqrt: real -> real, s: real, t0: real, t1: real)
    requires o.scale == Vector(k, k, k) && k != 0.0 && r == AlongZ(y, z)
    requires px == -o.translation.x / k && py == (y - o.translation.y) / k
    requires pz == (z - o.translation.z) / k && dz == 1.0 / k
    requires IsSqrt(sqrt) && dz != 0.0
    requires s >= 0.0 && s * s == Disc(dz * dz, dz * pz * 2.0, px * px + py * py + pz * pz - 1.0)
    requires t0 == (-(dz * pz * 2.0) - s) / (2.0 * (dz * dz))
    requires t1 == (-(dz * pz * 2.0) + s) / (2.0 * (dz * dz))
    ensures Intersects(o, r)
    ensures SphereIntersections(o, r, sqrt) == [Intersection(Local(o, r), t0, o.id), Intersection(Local(o, r), t1, o.id)]
  {
    var l := Ray(Point(px, py, pz), Vector(0.0, 0.0, dz));
    UniformLocal(o, r, y, z, k, px, py, pz, dz);
    LocalHits(o, r, sqrt, l);
    AxisRoots(l, px, py, pz, dz, o.id, sqrt, s, t0, t1);
  }

  /**
   * A sphere at t with uniform scale k and the ray from (0, y, z) along +z: when the sphere
   * space ray (px, py, pz) along +z at speed dz has a negative discriminant, there are no hits.
   */
  lemma {:induction false} UniformMiss(o: Object, r: Ray, y: real, z: real, k: real,
                                       px: real, py: real, pz: real, dz: real, sqrt: real -> real)
    requires o.scale == Vector(k, k, k) && k != 0.0 && r == AlongZ(y, z)
    requires px == -o.translation.x / k && py == (y - o.translation.y) / k
    requires pz == (z - o.translation.z) / k && dz == 1.0 / k
    requires Disc(dz * dz, dz * pz * 2.0, px * px + py * py + pz * pz - 1.0) < 0.0
    ensures !Intersects(o, r)
    ensures SphereIntersections(o, r, sqrt) == []
  {
    var l := Ray(Point(px, py, pz), Vector(0.0, 0.0, dz));
    UniformLocal(o, r, y, z, k, px, py, pz, dz);
    LocalHits(o, r, sqrt, l);
    AxisMiss(l, px, py, pz, dz, o.id, sqrt);
  }

  /** Transformed: moved to (5, 0, 0), the sphere is missed by the ray from (0, 0, -5). */
  lemma {:induction false} TranslatedMissRegression(sqrt: real -> real, o: Object, r: Ray)
    requires o == Sphere(1, Point(5.0, 0.0, 0.0), Vector(1.0, 1.0, 1.0)) && r == AlongZ(0.0, -5.0)
    ensures !Intersects(o, r)
    ensures SphereIntersections(o, r, sqrt) == []
  {
    UniformMiss(o, r, 0.0, -5.0, 1.0, -5.0, 0.0, -5.0, 1.0, sqrt);
  }

  /** Scaled: at scale 2 the sphere is met at distances 3 and 7. */
  lemma {:induction false} ScaledHitRegression(sqrt: real -> real, o: Object, r: Ray)
    requires IsSqrt(sqrt)
    requires o == Sphere(1, Point(0.0, 0.0, 0.0), Vector(2.0, 2.0, 2.0)) && r == AlongZ(0.0, -5.0)
    ensures Intersects(o, r)
    ensures var hits := SphereIntersections(o, r, sqrt);
            |hits| == 2 && hits[0].distance == 3.0 && hits[1].distance == 7.0
  {
    UniformRoots(o, r, 0.0, -5.0, 2.0, 0.0, 0.0, -2.5, 0.5, sqrt, 1.0, 3.0, 7.0);
  }
}
