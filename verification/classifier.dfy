/** The four-way decision rule of the script and its application to one
    particle: the two nearest-feature scans followed by the rule. */
module Classifier {
  import opened Options
  import opened Geometry
  import opened NearestFeature

  /** The bucket a particle lands in: near a junction (a branch point), near an
      end-point (a tip), near neither (on a shaft), or equally near both. */
  datatype Label = Junction | Tip | Shaft | Hybrid

  /** The tolerance range under which the four buckets mean what their names
      say: half a pixel is nonnegative, and smaller than the gap between the
      cutoff and the sentinel. */
  predicate ValidTolerance(cutoff: real, halfPx: real) {
    0.0 <= halfPx < MaxInt - cutoff
  }

  function Abs(x: real): real {
    if x < 0.0 then -x else x
  }

  /** The rule of lines 165-181, branch by branch in the script's order; `None`
      is the final `else`, which reports an error and puts the particle in no
      list. A nonnegative tolerance makes that branch unreachable: once the
      Shaft and Hybrid tests fail the two distances differ. */
  function Decide(jDist: real, epDist: real, cutoff: real, halfPx: real): (r: Option<Label>)
    ensures 0.0 <= halfPx ==> r.Some?
  {
    if jDist > cutoff && epDist > cutoff then Some(Shaft)
    else if Abs(jDist - epDist) <= halfPx then Some(Hybrid)
    else if epDist < jDist then Some(Tip)
    else if epDist > jDist then Some(Junction)
    else None
  }

  /** Each bucket in terms of association (a scan result within the cutoff)
      rather than branch order: Shaft when neither feature is associated, Hybrid
      when both are and their distances are within half a pixel, Tip when the
      end-point is associated and the junction is not or is farther by more
      than half a pixel, and Junction symmetrically. */
  lemma DecideMeaning(jDist: real, epDist: real, cutoff: real, halfPx: real)
    requires ValidCutoff(cutoff) && ValidTolerance(cutoff, halfPx)
    requires Admissible(jDist, cutoff) && Admissible(epDist, cutoff)
    ensures Decide(jDist, epDist, cutoff, halfPx) == Some(Shaft)
            <==> jDist > cutoff && epDist > cutoff
    ensures Decide(jDist, epDist, cutoff, halfPx) == Some(Hybrid)
            <==> jDist <= cutoff && epDist <= cutoff && Abs(jDist - epDist) <= halfPx
    ensures Decide(jDist, epDist, cutoff, halfPx) == Some(Tip)
            <==> epDist <= cutoff && (jDist > cutoff || jDist - epDist > halfPx)
    ensures Decide(jDist, epDist, cutoff, halfPx) == Some(Junction)
            <==> jDist <= cutoff && (epDist > cutoff || epDist - jDist > halfPx)
  {
  }

  /** Line 165 must run before the tie test of line 169: two sentinel distances
      are trivially within half a pixel of each other, yet the particle is Shaft. */
  lemma ShaftBeforeTie(cutoff: real, halfPx: real)
    requires ValidCutoff(cutoff) && 0.0 <= halfPx
    ensures Abs(MaxInt - MaxInt) <= halfPx
    ensures Decide(MaxInt, MaxInt, cutoff, halfPx) == Some(Shaft)
  {
  }

  /** The label of one particle with centroid `p` (lines 150-181): the nearest
      junction voxel and the nearest end-point, then the decision rule. */
  function Classify(p: Point, junctionVoxels: seq<Point>, endPoints: seq<Point>,
                    cutoff: real, halfPx: real, dist: Metric): (r: Option<Label>)
    requires ValidCutoff(cutoff)
    ensures 0.0 <= halfPx ==> r.Some?
    ensures r == Some(Shaft) <==>
              !HasNear(p, junctionVoxels, cutoff, dist) && !HasNear(p, endPoints, cutoff, dist)
  {
    Decide(Nearest(p, junctionVoxels, cutoff, dist), Nearest(p, endPoints, cutoff, dist), cutoff, halfPx)
  }

  /** The four buckets of one particle in terms of which features lie within
      the cutoff and how far the nearest of each kind is. */
  lemma ClassifyMeaning(p: Point, junctionVoxels: seq<Point>, endPoints: seq<Point>,
                        cutoff: real, halfPx: real, dist: Metric)
    requires ValidCutoff(cutoff) && ValidTolerance(cutoff, halfPx)
    ensures var j := Nearest(p, junctionVoxels, cutoff, dist);
            var e := Nearest(p, endPoints, cutoff, dist);
            var nearJ := HasNear(p, junctionVoxels, cutoff, dist);
            var nearE := HasNear(p, endPoints, cutoff, dist);
            var r := Classify(p, junctionVoxels, endPoints, cutoff, halfPx, dist);
            && (r == Some(Hybrid) <==> nearJ && nearE && Abs(j - e) <= halfPx)
            && (r == Some(Tip) <==> nearE && (!nearJ || j - e > halfPx))
            && (r == Some(Junction) <==> nearJ && (!nearE || e - j > halfPx))
  {
    DecideMeaning(Nearest(p, junctionVoxels, cutoff, dist), Nearest(p, endPoints, cutoff, dist), cutoff, halfPx);
  }

  /** Exchanging the roles of the two landmark lists exchanges Tip and Junction. */
  function Swap(l: Label): Label {
    match l
    case Junction => Tip
    case Tip => Junction
    case other => other
  }

  /** The rule treats junctions and end-points alike: classifying against the
      swapped lists gives the swapped label. */
  lemma ClassifySwap(p: Point, junctionVoxels: seq<Point>, endPoints: seq<Point>,
                     cutoff: real, halfPx: real, dist: Metric)
    requires ValidCutoff(cutoff) && 0.0 <= halfPx
    ensures Classify(p, endPoints, junctionVoxels, cutoff, halfPx, dist)
            == Some(Swap(Classify(p, junctionVoxels, endPoints, cutoff, halfPx, dist).value))
  {
  }

  /** The label does not depend on the order in which the skeleton analysis
      lists junction voxels and end-points. */
  lemma ClassifyPermutation(p: Point, j1: seq<Point>, j2: seq<Point>, e1: seq<Point>, e2: seq<Point>,
                            cutoff: real, halfPx: real, dist: Metric)
    requires ValidCutoff(cutoff)
    requires multiset(j1) == multiset(j2) && multiset(e1) == multiset(e2)
    ensures Classify(p, j1, e1, cutoff, halfPx, dist) == Classify(p, j2, e2, cutoff, halfPx, dist)
  {
    NearestPermutation(p, j1, j2, cutoff, dist);
    NearestPermutation(p, e1, e2, cutoff, dist);
  }

  /** Raising the cutoff never makes a particle Shaft that was not Shaft before. */
  lemma ClassifyCutoffMonotone(p: Point, junctionVoxels: seq<Point>, endPoints: seq<Point>,
                               c1: real, c2: real, halfPx: real, dist: Metric)
    requires ValidCutoff(c1) && ValidCutoff(c2) && c1 <= c2
    ensures Classify(p, junctionVoxels, endPoints, c2, halfPx, dist) == Some(Shaft)
            ==> Classify(p, junctionVoxels, endPoints, c1, halfPx, dist) == Some(Shaft)
  {
    NearestCutoffMonotone(p, junctionVoxels, c1, c2, dist);
    NearestCutoffMonotone(p, endPoints, c1, c2, dist);
  }

  /** The centroid of particle `i`, read from the two centroid columns. */
  function Centroid(cx: seq<real>, cy: seq<real>, i: nat): Point
    requires i < |cx| <= |cy|
  {
    Point(cx[i], cy[i])
  }

  /** The labels of all particles, in particle order. */
  function ClassifyAll(cx: seq<real>, cy: seq<real>, junctionVoxels: seq<Point>, endPoints: seq<Point>,
                       cutoff: real, halfPx: real, dist: Metric): (r: seq<Option<Label>>)
    requires |cx| <= |cy| && ValidCutoff(cutoff)
    ensures |r| == |cx|
    ensures 0.0 <= halfPx ==> forall i :: 0 <= i < |r| ==> r[i].Some?
  {
    seq(|cx|, i requires 0 <= i < |cx| => Classify(Centroid(cx, cy, i), junctionVoxels, endPoints, cutoff, halfPx, dist))
  }

  /** Scenario: a centroid 0.4 from an end-point and about 14.1 from a junction
      voxel, with a cutoff of 5 and half a pixel of 0.5, is Tip. */
  lemma ScenarioTip(dist: Metric)
    requires Euclidean(dist)
    ensures Classify(Point(0.0, 0.0), [Point(10.0, 10.0)], [Point(0.4, 0.0)], 5.0, 0.5, dist) == Some(Tip)
  {
    var o, e, j := Point(0.0, 0.0), Point(0.4, 0.0), Point(10.0, 10.0);
    assert SqDist(o, e) == 0.16;
    assert IsRoot(dist(o, e), 0.16);
    RootUnique(dist(o, e), 0.4, 0.16);
    assert SqDist(o, j) == 200.0;
    assert IsRoot(dist(o, j), 200.0);
    RootAbove(dist(o, j), 200.0, 5.0);
    NearestSingle(o, e, 5.0, dist);
    NearestSingle(o, j, 5.0, dist);
    assert Decide(MaxInt, 0.4, 5.0, 0.5) == Some(Tip);
  }

  /** Scenario: landmarks of both kinds far away (about 141) leave the particle Shaft. */
  lemma ScenarioShaft(dist: Metric)
    requires Euclidean(dist)
    ensures Classify(Point(0.0, 0.0), [Point(100.0, 100.0)], [Point(100.0, 100.0)], 5.0, 0.5, dist) == Some(Shaft)
  {
    var o := Point(0.0, 0.0);
    assert IsRoot(dist(o, Point(100.0, 100.0)), SqDist(o, Point(100.0, 100.0)));
    RootAbove(dist(o, Point(100.0, 100.0)), 20000.0, 5.0);
    NearestSingle(o, Point(100.0, 100.0), 5.0, dist);
  }

  /** Scenario: a junction voxel at 3 and an end-point at 3.1 are within half a
      pixel of each other, so the particle is Hybrid. */
  lemma ScenarioHybrid(dist: Metric)
    requires Euclidean(dist)
    ensures Classify(Point(0.0, 0.0), [Point(3.0, 0.0)], [Point(3.1, 0.0)], 5.0, 0.5, dist) == Some(Hybrid)
  {
    var o := Point(0.0, 0.0);
    assert IsRoot(dist(o, Point(3.0, 0.0)), SqDist(o, Point(3.0, 0.0)));
    RootUnique(dist(o, Point(3.0, 0.0)), 3.0, 9.0);
    assert IsRoot(dist(o, Point(3.1, 0.0)), SqDist(o, Point(3.1, 0.0)));
    RootUnique(dist(o, Point(3.1, 0.0)), 3.1, 9.61);
    NearestSingle(o, Point(3.0, 0.0), 5.0, dist);
    NearestSingle(o, Point(3.1, 0.0), 5.0, dist);
    assert Decide(3.0, 3.1, 5.0, 0.5) == Some(Hybrid);
  }
}
