/**
 * discard_occluded of lib/world.hpp lets a candidate replace the running best
 * whenever it is no farther, negative distances included, so a hit behind
 * the ray that comes after every hit in front displaces the nearest visible
 * one and the scan may end with no visible hit at all. A sphere behind the
 * camera listed after a sphere in front does exactly that. This module
 * exhibits it on Intersections.Visible and proves a corrected scan, in which
 * only a hit that is not behind the ray can replace the best, returns the
 * nearest hit in front of the ray.
 */
module IntersectionFindings {
  import opened Intersections

  /** A sphere in front (hits at 1 and 2) followed by one behind the camera (hits at -3 and -2): nothing is visible. */
  lemma {:induction false} BehindAfterFrontAsWritten()
    ensures Visible([Hit(1.0), Hit(2.0), Hit(-3.0), Hit(-2.0)]) == None
    ensures NearestVisible([Hit(1.0), Hit(2.0), Hit(-3.0), Hit(-2.0)]) == Some(Hit(1.0))
  {
    var s := [Hit(1.0), Hit(2.0), Hit(-3.0), Hit(-2.0)];
    assert Best(s, 1) == s[0];
    assert Best(s, 2) == s[0];
    assert Best(s, 3) == s[2];
    assert Best(s, 4) == s[2];
    assert NearestBest(s, 1) == s[0];
    assert NearestBest(s, 2) == s[0];
    assert NearestBest(s, 3) == s[0];
    assert NearestBest(s, 4) == s[0];
  }

  /**
   * The corrected replacement test: a candidate not behind the ray replaces
   * a best that is behind it, or one it is no farther than.
   */
  predicate Improves(best: Intersection, candidate: Intersection)
  {
    candidate.distance >= 0.0 && (best.distance < 0.0 || candidate.distance <= best.distance)
  }

  /** The running best of the corrected scan after it has visited s[..i], starting from s[0]. */
  function NearestBest(s: seq<Intersection>, i: nat): Intersection
    requires 0 < |s| && i <= |s|
  {
    if i == 0 then s[0]
    else
      var best := NearestBest(s, i - 1);
      if Improves(best, s[i - 1]) then s[i - 1] else best
  }

  /** The answer of the corrected scan: none for no hits, else the final best when it is not negative. */
  function NearestVisible(s: seq<Intersection>): Option<Intersection>
  {
    if |s| == 0 then None
    else if NearestBest(s, |s|).distance >= 0.0 then Some(NearestBest(s, |s|))
    else None
  }

  /** discard_occluded with the corrected replacement test. */
  method DiscardOccludedIntended(intersections: seq<Intersection>) returns (r: Option<Intersection>)
    ensures r == NearestVisible(intersections)
  {
    if |intersections| == 0 {
      return None;
    }
    var best := intersections[0];
    for i := 0 to |intersections|
      invariant best == NearestBest(intersections, i)
    {
      var candidate := intersections[i];
      if candidate.distance >= 0.0 && (best.distance < 0.0 || candidate.distance <= best.distance) {
        best := candidate;
      }
    }
    if best.distance >= 0.0 {
      return Some(best);
    }
    return None;
  }

  /**
   * The corrected running best is a visited hit (or s[0] before any visit);
   * when it is behind the ray so is every visited hit, and otherwise it is no
   * farther than any visited hit that is not behind the ray.
   */
  lemma {:induction false} NearestBestIsNearest(s: seq<Intersection>, i: nat) returns (k: nat)
    requires 0 < |s| && i <= |s|
    ensures k < |s| && (i > 0 ==> k < i) && (i == 0 ==> k == 0) && NearestBest(s, i) == s[k]
    ensures s[k].distance < 0.0 ==> forall j :: 0 <= j < i ==> s[j].distance < 0.0
    ensures s[k].distance >= 0.0 ==> forall j :: 0 <= j < i && s[j].distance >= 0.0 ==> s[k].distance <= s[j].distance
  {
    if i == 0 {
      k := 0;
    } else {
      k := NearestBestIsNearest(s, i - 1);
      if Improves(NearestBest(s, i - 1), s[i - 1]) {
        k := i - 1;
      } else if i == 1 {
        assert s[0].distance < 0.0;
      }
    }
  }

  /**
   * The corrected scan finds a hit exactly when some hit is not behind the
   * ray, and the hit it finds is one of them and the nearest.
   */
  lemma {:induction false} NearestVisibleCorrect(s: seq<Intersection>)
    ensures NearestVisible(s).None? <==> forall j :: 0 <= j < |s| ==> s[j].distance < 0.0
    ensures NearestVisible(s).Some? ==>
      NearestVisible(s).value in s && NearestVisible(s).value.distance >= 0.0 &&
      forall j :: 0 <= j < |s| && s[j].distance >= 0.0 ==> NearestVisible(s).value.distance <= s[j].distance
  {
    if |s| > 0 {
      var k := NearestBestIsNearest(s, |s|);
    }
  }

  /** With no hit behind the ray the two scans keep the same running best. */
  lemma {:induction false} BestAgreesInFront(s: seq<Intersection>, i: nat)
    requires 0 < |s| && i <= |s|
    requires forall j :: 0 <= j < |s| ==> s[j].distance >= 0.0
    ensures NearestBest(s, i) == Best(s, i)
  {
    if i > 0 {
      BestAgreesInFront(s, i - 1);
    }
  }

  /** With no hit behind the ray, discard_occluded as written already gives the nearest hit. */
  lemma {:induction false} IntendedAgreesInFront(s: seq<Intersection>)
    requires forall j :: 0 <= j < |s| ==> s[j].distance >= 0.0
    ensures NearestVisible(s) == Visible(s)
  {
    if |s| > 0 {
      BestAgreesInFront(s, |s|);
    }
  }
}
