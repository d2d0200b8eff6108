/**
 * Ray hits and the visible-hit selection of the scene (lib/world.hpp):
 * discard_occluded scans the hits in order, keeping a running best, and
 * answers it only when its distance is not negative.
 */
module Intersections {
  import opened Rays
  import V = Vectors

  datatype Option<T> = None | Some(value: T)

  datatype Intersection = Intersection(rayHit: Ray, distance: real, objectID: nat)

  /** The defaulted operator==: ray equality, and exact equality of distance and id. */
  predicate Eq(a: Intersection, b: Intersection)
  {
    ApproxEq(a.rayHit, b.rayHit) && a.distance == b.distance && a.objectID == b.objectID
  }

  /**
   * The replacement test of the scan: a candidate replaces the best when the
   * best is behind the ray and the candidate is not, or when the candidate is
   * no farther than the best, whatever its sign.
   */
  predicate Replaces(best: Intersection, candidate: Intersection)
  {
    (best.distance < 0.0 && candidate.distance >= 0.0) || candidate.distance <= best.distance
  }

  /** The running best after the scan has visited s[..i], starting from s[0]. */
  function Best(s: seq<Intersection>, i: nat): Intersection
    requires 0 < |s| && i <= |s|
  {
    if i == 0 then s[0]
    else
      var best := Best(s, i - 1);
      if Replaces(best, s[i - 1]) then s[i - 1] else best
  }

  /** The answer of discard_occluded: none for no hits, else the final best when it is not negative. */
  function Visible(s: seq<Intersection>): Option<Intersection>
  {
    if |s| == 0 then None
    else if Best(s, |s|).distance >= 0.0 then Some(Best(s, |s|))
    else None
  }

  /** discard_occluded. */
  method DiscardOccluded(intersections: seq<Intersection>) returns (r: Option<Intersection>)
    ensures r == Visible(intersections)
  {
    if |intersections| == 0 {
      return None;
    }
    var best := intersections[0];
    for i := 0 to |intersections|
      invariant best == Best(intersections, i)
    {
      var candidate := intersections[i];
      if (best.distance < 0.0 && candidate.distance >= 0.0) || candidate.distance <= best.distance {
        best := candidate;
      }
    }
    if best.distance >= 0.0 {
      return Some(best);
    }
    return None;
  }

  /**
   * The running best is one of the visited hits, and every hit visited after
   * it that is farther away did not replace it: when the best is not
   * negative, all later visited hits are strictly farther.
   */
  lemma {:induction false} BestIsVisited(s: seq<Intersection>, i: nat) returns (k: nat)
    requires 0 < |s| && i <= |s|
    ensures k < |s| && (i > 0 ==> k < i) && Best(s, i) == s[k]
    ensures Best(s, i).distance >= 0.0 ==> forall j :: k < j < i ==> s[j].distance > s[k].distance
  {
    if i == 0 {
      k := 0;
    } else {
      k := BestIsVisited(s, i - 1);
      if Replaces(Best(s, i - 1), s[i - 1]) {
        k := i - 1;
      }
    }
  }

  /** No hits, or only hits behind the ray, give none. */
  lemma {:induction false} VisibleNone(s: seq<Intersection>)
    requires forall j :: 0 <= j < |s| ==> s[j].distance < 0.0
    ensures Visible(s) == None
  {
    if |s| > 0 {
      var k := BestIsVisited(s, |s|);
    }
  }

  /**
   * A visible hit is one of the hits, is not behind the ray, and every hit
   * after it in the list is strictly farther.
   */
  lemma {:induction false} VisibleSound(s: seq<Intersection>) returns (k: nat)
    requires Visible(s).Some?
    ensures k < |s| && Visible(s).value == s[k] && s[k].distance >= 0.0
    ensures forall j :: k < j < |s| ==> s[j].distance > s[k].distance
  {
    k := BestIsVisited(s, |s|);
  }

  /**
   * With no hit behind the ray the best is the last hit of minimal distance
   * among those visited.
   */
  lemma {:induction false} BestIsLastMinimum(s: seq<Intersection>, i: nat) returns (k: nat)
    requires 0 < i <= |s|
    requires forall j :: 0 <= j < |s| ==> s[j].distance >= 0.0
    ensures k < i && Best(s, i) == s[k]
    ensures forall j :: 0 <= j < i ==> s[k].distance <= s[j].distance
    ensures forall j :: k < j < i ==> s[k].distance < s[j].distance
  {
    if i == 1 {
      k := 0;
    } else {
      k := BestIsLastMinimum(s, i - 1);
      if Replaces(Best(s, i - 1), s[i - 1]) {
        k := i - 1;
      }
    }
  }

  /**
   * With no hit behind the ray, a nonempty list always has a visible hit: the
   * last of the nearest ones.
   */
  lemma {:induction false} VisibleNearest(s: seq<Intersection>) returns (k: nat)
    requires 0 < |s|
    requires forall j :: 0 <= j < |s| ==> s[j].distance >= 0.0
    ensures k < |s| && Visible(s) == Some(s[k])
    ensures forall j :: 0 <= j < |s| ==> s[k].distance <= s[j].distance
    ensures forall j :: k < j < |s| ==> s[k].distance < s[j].distance
  {
    k := BestIsLastMinimum(s, |s|);
  }

  /** A hit with a placeholder ray, as in the discard_occluded tests. */
  function Hit(distance: real): Intersection
  {
    Intersection(Ray(V.Vec(0.0, 0.0, 0.0, 0.0), V.Vec(0.0, 0.0, 0.0, 0.0)), distance, 0)
  }

  /** [1, 2] gives the hit at 1. */
  lemma NearerFirstRegression()
    ensures Visible([Hit(1.0), Hit(2.0)]) == Some(Hit(1.0))
  {
    var s := [Hit(1.0), Hit(2.0)];
    assert Best(s, 1) == s[0];
    assert Best(s, 2) == s[0];
  }

  /** [-1, 1] gives the hit at 1: a hit in front replaces one behind. */
  lemma BehindThenFrontRegression()
    ensures Visible([Hit(-1.0), Hit(1.0)]) == Some(Hit(1.0))
  {
    var s := [Hit(-1.0), Hit(1.0)];
    assert Best(s, 1) == s[0];
    assert Best(s, 2) == s[1];
  }

  /** [-2, -1] gives none. */
  lemma AllBehindRegression()
    ensures Visible([Hit(-2.0), Hit(-1.0)]) == None
  {
    var s := [Hit(-2.0), Hit(-1.0)];
    assert Best(s, 1) == s[0];
    assert Best(s, 2) == s[0];
  }

  /** [0, 0] gives a hit equal to both. */
  lemma TieRegression()
    ensures Visible([Hit(0.0), Hit(0.0)]) == Some(Hit(0.0))
  {
    var s := [Hit(0.0), Hit(0.0)];
    assert Best(s, 1) == s[0];
    assert Best(s, 2) == s[1];
  }

  /**
   * [1, -1] gives none: a later hit behind the ray is "no farther" than the
   * best and displaces it, although a hit in front exists.
   */
  lemma FrontThenBehindRegression()
    ensures Visible([Hit(1.0), Hit(-1.0)]) == None
  {
    var s := [Hit(1.0), Hit(-1.0)];
    assert Best(s, 1) == s[0];
    assert Best(s, 2) == s[1];
  }
}
