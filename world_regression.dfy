/**
 * The world regression (test/world.cpp, add_sphere): a unit sphere at the
 * origin, then a sphere of scale 2 at (0, 0, 2), seen along +z from the
 * origin. Objects and rays are parameters equated to the test's values.
 */
module WorldRegressions {
  import opened RtMath
  import opened Vectors
  import opened Rays
  import opened Intersections
  import opened Spheres
  import opened SphereRegressions
  import opened Worlds

  /** The hits of no objects: none. */
  lemma {:induction false} GatherNone(r: Ray, sqrt: real -> real)
    ensures Gather([], r, sqrt) == []
  {
    assert HitLists([], HitsOf(r, sqrt)) == [];
  }

  /** The hits of a single object are its own. */
  lemma {:induction false} GatherOne(o: Object, r: Ray, sqrt: real -> real)
    ensures Gather([o], r, sqrt) == SphereIntersections(o, r, sqrt)
  {
    GatherNone(r, sqrt);
    GatherSnoc([], o, r, sqrt);
  }

  /** The hits of two objects are the first's, then the second's. */
  lemma {:induction false} GatherTwo(a: Object, b: Object, r: Ray, sqrt: real -> real)
    ensures Gather([a, b], r, sqrt) == SphereIntersections(a, r, sqrt) + SphereIntersections(b, r, sqrt)
  {
    GatherOne(a, r, sqrt);
    assert [a, b] == [a] + [b];
    GatherSnoc([a], b, r, sqrt);
  }

  /** A hit behind the ray followed by one in front: the one in front is visible. */
  lemma {:induction false} VisibleBehindThenFront(s: seq<Intersection>, h0: Intersection, h1: Intersection)
    requires s == [h0, h1] && h0.distance < 0.0 <= h1.distance
    ensures Visible(s) == Some(h1)
  {
    assert Best(s, 1) == h0;
    assert Best(s, 2) == h1;
  }

  /**
   * A hit behind the ray, one in front, one no farther than that but not
   * behind, then one farther still: the third is visible.
   */
  lemma {:induction false} VisibleOfFour(s: seq<Intersection>, h0: Intersection, h1: Intersection,
                                         h2: Intersection, h3: Intersection)
    requires s == [h0, h1, h2, h3]
    requires h0.distance < 0.0 <= h1.distance
    requires 0.0 <= h2.distance <= h1.distance && h2.distance < h3.distance
    ensures Visible(s) == Some(h2)
  {
    assert Best(s, 1) == h0;
    assert Best(s, 2) == h1;
    assert Best(s, 3) == h2;
    assert Best(s, 4) == h2;
  }

  /**
   * A world holding one default sphere, seen along +z from (0, y, z) with
   * |y| <= 1 and the sphere's centre ahead: its two hits, the far one visible.
   */
  lemma {:induction false} OneDefaultSphere(objects: seq<Object>, o0: Object, r: Ray, y: real, z: real,
                                            sqrt: real -> real, s: real, t0: real, t1: real)
    requires objects == [o0] && IsDefault(o0) && IsSqrt(sqrt) && r == AlongZ(y, z)
    requires s >= 0.0 && s * s == 4.0 - 4.0 * (y * y)
    requires t0 == -z - s / 2.0 && t1 == -z + s / 2.0 && t0 < 0.0 <= t1
    ensures Gather(objects, r, sqrt) == [Intersection(r, t0, o0.id), Intersection(r, t1, o0.id)]
    ensures Visible(Gather(objects, r, sqrt)) == Some(Intersection(r, t1, o0.id))
  {
    GatherOne(o0, r, sqrt);
    DefaultSphereRoots(o0, r, y, z, sqrt, s, t0, t1);
    VisibleBehindThenFront(Gather(objects, r, sqrt), Intersection(r, t0, o0.id), Intersection(r, t1, o0.id));
  }

  /**
   * A world of two objects, the first with a hit behind the ray and one in
   * front, the second with a near hit no farther than that and not behind,
   * then a farther one: all four in order, and the second object's near hit
   * visible.
   */
  lemma {:induction false} WorldOfTwo(objects: seq<Object>, o0: Object, o1: Object, r: Ray, sqrt: real -> real,
                                      h0: Intersection, h1: Intersection, h2: Intersection, h3: Intersection)
    requires objects == [o0, o1]
    requires SphereIntersections(o0, r, sqrt) == [h0, h1] && SphereIntersections(o1, r, sqrt) == [h2, h3]
    requires h0.distance < 0.0 <= h1.distance
    requires 0.0 <= h2.distance <= h1.distance && h2.distance < h3.distance
    ensures Gather(objects, r, sqrt) == [h0, h1, h2, h3]
    ensures Visible(Gather(objects, r, sqrt)) == Some(h2)
  {
    GatherTwo(o0, o1, r, sqrt);
    VisibleOfFour(Gather(objects, r, sqrt), h0, h1, h2, h3);
  }

  /**
   * The one-sphere world with a second sphere of uniform scale k added: the
   * first sphere's hits, then the second's, and the second's near hit is
   * visible when it is not behind the ray and no farther than the first's
   * far hit.
   */
  lemma {:induction false} TwoSpheres(objects: seq<Object>, o0: Object, o1: Object, r: Ray, y: real, z: real,
                                      sqrt: real -> real, s: real, t0: real, t1: real,
                                      k: real, px: real, py: real, pz: real, dz: real,
                                      s1: real, u0: real, u1: real)
    requires objects == [o0, o1] && IsDefault(o0) && IsSqrt(sqrt) && r == AlongZ(y, z)
    requires s >= 0.0 && s * s == 4.0 - 4.0 * (y * y)
    requires t0 == -z - s / 2.0 && t1 == -z + s / 2.0 && t0 < 0.0 <= t1
    requires o1.scale == Vector(k, k, k) && k != 0.0
    requires px == -o1.translation.x / k && py == (y - o1.translation.y) / k
    requires pz == (z - o1.translation.z) / k && dz == 1.0 / k && dz != 0.0
    requires s1 >= 0.0 && s1 * s1 == Disc(dz * dz, dz * pz * 2.0, px * px + py * py + pz * pz - 1.0)
    requires u0 == (-(dz * pz * 2.0) - s1) / (2.0 * (dz * dz))
    requires u1 == (-(dz * pz * 2.0) + s1) / (2.0 * (dz * dz))
    requires 0.0 <= u0 <= t1 && u0 < u1
    ensures Gather(objects, r, sqrt) ==
      [Intersection(r, t0, o0.id), Intersection(r, t1, o0.id),
       Intersection(Local(o1, r), u0, o1.id), Intersection(Local(o1, r), u1, o1.id)]
    ensures Visible(Gather(objects, r, sqrt)) == Some(Intersection(Local(o1, r), u0, o1.id))
  {
    DefaultSphereRoots(o0, r, y, z, sqrt, s, t0, t1);
    UniformRoots(o1, r, y, z, k, px, py, pz, dz, sqrt, s1, u0, u1);
    WorldOfTwo(objects, o0, o1, r, sqrt, Intersection(r, t0, o0.id), Intersection(r, t1, o0.id),
               Intersection(Local(o1, r), u0, o1.id), Intersection(Local(o1, r), u1, o1.id));
  }

  /** The first sphere alone: hits at -1 and 1 along the ray, and the one at 1 is visible. */
  lemma {:induction false} FirstSphereRegression(sqrt: real -> real, objects: seq<Object>, o0: Object, r: Ray)
    requires IsSqrt(sqrt) && objects == [o0] && r == AlongZ(0.0, 0.0)
    requires o0 == Sphere(0, Point(0.0, 0.0, 0.0), UniformVector(1.0))
    ensures Gather(objects, r, sqrt) == [Intersection(r, -1.0, 0), Intersection(r, 1.0, 0)]
    ensures Visible(Gather(objects, r, sqrt)) == Some(Intersection(r, 1.0, 0))
  {
    OneDefaultSphere(objects, o0, r, 0.0, 0.0, sqrt, 2.0, -1.0, 1.0);
  }

  /**
   * Both spheres: the first's hits at -1 and 1, then the second's at 0 and 4
   * (along the ray in its own space), and the one at 0 is visible.
   */
  lemma {:induction false} SecondSphereRegression(sqrt: real -> real, objects: seq<Object>, o0: Object, o1: Object, r: Ray)
    requires IsSqrt(sqrt) && objects == [o0, o1] && r == AlongZ(0.0, 0.0)
    requires o0 == Sphere(0, Point(0.0, 0.0, 0.0), UniformVector(1.0))
    requires o1 == Sphere(1, Point(0.0, 0.0, 2.0), UniformVector(2.0))
    ensures var hits := Gather(objects, r, sqrt);
            |hits| == 4 && hits[0].distance == -1.0 && hits[1].distance == 1.0 &&
            hits[2].distance == 0.0 && hits[3].distance == 4.0
    ensures var hit := Visible(Gather(objects, r, sqrt));
            hit.Some? && hit.value.distance == 0.0 && hit.value.objectID == 1
  {
    TwoSpheres(objects, o0, o1, r, 0.0, 0.0, sqrt, 2.0, -1.0, 1.0, 2.0, 0.0, 0.0, -1.0, 0.5, 1.0, 0.0, 4.0);
  }
}
