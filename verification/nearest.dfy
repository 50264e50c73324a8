/** The nearest-feature search: for one particle centroid, a linear scan over a
    list of skeleton landmarks (junction voxels or end-points) that keeps the
    smallest distance not exceeding the cutoff, or the sentinel when no landmark
    is that close. */
module NearestFeature {
  import opened Geometry

  /** `sys.maxint` as the Jython interpreter that runs the script reports it
      (Java's Integer.MAX_VALUE). It stands for "no landmark within the cutoff". */
  const MaxInt: real := 2147483647.0

  /** The cutoff ("snap to") distance stays below the sentinel. The script's
      parameter declaration bounds it to 1..1000; only the upper bound matters,
      so every theorem covers any cutoff up to 1000. */
  predicate ValidCutoff(cutoff: real) {
    cutoff <= 1000.0
  }

  /** A scan result is the sentinel or a distance within the cutoff. */
  predicate Admissible(d: real, cutoff: real) {
    d == MaxInt || d <= cutoff
  }

  /** One step of the scan: the candidate's distance replaces the best so far
      when it lies within the cutoff and is strictly smaller. */
  function Improve(best: real, d: real, cutoff: real): (r: real)
    ensures r <= best
    ensures r == best || (d <= cutoff && r == d)
    ensures d <= cutoff && d < best ==> r == d
  {
    if d <= cutoff && d < best then d else best
  }

  /** Some landmark of `cands` lies within `cutoff` of `q`. */
  ghost predicate HasNear(q: Point, cands: seq<Point>, cutoff: real, dist: Metric) {
    exists c :: c in cands && dist(q, c) <= cutoff
  }

  /** What the scan is meant to compute, independently of how: the least
      distance from `q` to a landmark within the cutoff, attained by one of
      them; the sentinel when there is no such landmark. */
  ghost predicate IsNearest(d: real, q: Point, cands: seq<Point>, cutoff: real, dist: Metric) {
    if HasNear(q, cands, cutoff, dist) then
      && (exists c :: c in cands && dist(q, c) <= cutoff && d == dist(q, c))
      && (forall c :: c in cands && dist(q, c) <= cutoff ==> d <= dist(q, c))
    else
      d == MaxInt
  }

  /** Appending one landmark to the scanned prefix and taking one `Improve`
      step keeps the result the nearest distance. */
  lemma ImproveKeepsNearest(best: real, q: Point, cands: seq<Point>, c: Point, cutoff: real, dist: Metric)
    requires cutoff < MaxInt
    requires IsNearest(best, q, cands, cutoff, dist)
    ensures IsNearest(Improve(best, dist(q, c), cutoff), q, cands + [c], cutoff, dist)
  {
    var next := cands + [c];
    var r := Improve(best, dist(q, c), cutoff);
    forall e
      ensures e in next <==> e in cands || e == c
    {
      if e in next && e != c {
        var i :| 0 <= i < |next| && next[i] == e;
        assert cands[i] == e;
      }
      if e in cands {
        var i :| 0 <= i < |cands| && cands[i] == e;
        assert next[i] == e;
      }
      if e == c {
        assert next[|cands|] == c;
      }
    }
    if HasNear(q, cands, cutoff, dist) {
      var w :| w in cands && dist(q, w) <= cutoff && best == dist(q, w);
      if r == dist(q, c) {
        assert c in next && dist(q, c) <= cutoff;
      } else {
        assert w in next;
      }
    } else if dist(q, c) <= cutoff {
      assert c in next;
      assert r == dist(q, c);
    } else {
      assert !HasNear(q, next, cutoff, dist);
    }
  }

  /** The scan of lines 153-156 (and 159-162), as a function of the landmark
      list: the result of the loop after its last landmark. It is the nearest
      distance within the cutoff, and the sentinel exactly when no landmark
      lies within the cutoff. */
  function Nearest(q: Point, cands: seq<Point>, cutoff: real, dist: Metric): (r: real)
    requires ValidCutoff(cutoff)
    ensures IsNearest(r, q, cands, cutoff, dist)
    ensures Admissible(r, cutoff)
    ensures r <= cutoff <==> HasNear(q, cands, cutoff, dist)
    decreases |cands|
  {
    if cands == [] then MaxInt
    else
      var prefix := cands[..|cands| - 1];
      var last := cands[|cands| - 1];
      var best := Nearest(q, prefix, cutoff, dist);
      ImproveKeepsNearest(best, q, prefix, last, cutoff, dist);
      assert prefix + [last] == cands;
      Improve(best, dist(q, last), cutoff)
  }

  /** A scan over a single landmark yields its distance when it lies within the
      cutoff and the sentinel otherwise. */
  lemma NearestSingle(q: Point, c: Point, cutoff: real, dist: Metric)
    requires ValidCutoff(cutoff)
    ensures Nearest(q, [c], cutoff, dist) == if dist(q, c) <= cutoff then dist(q, c) else MaxInt
  {
    assert [c][..0] == [];
  }

  /** The nearest distance is determined by its meaning: two values that both
      satisfy `IsNearest` are equal. */
  lemma NearestUnique(d1: real, d2: real, q: Point, cands: seq<Point>, cutoff: real, dist: Metric)
    requires IsNearest(d1, q, cands, cutoff, dist) && IsNearest(d2, q, cands, cutoff, dist)
    ensures d1 == d2
  {
    if HasNear(q, cands, cutoff, dist) {
      var c1 :| c1 in cands && dist(q, c1) <= cutoff && d1 == dist(q, c1);
      var c2 :| c2 in cands && dist(q, c2) <= cutoff && d2 == dist(q, c2);
      assert d1 <= d2 && d2 <= d1;
    }
  }

  /** The loop of lines 150-156 as the script runs it: start from the sentinel
      and improve the best distance landmark by landmark. It computes the
      nearest distance, and never fails, even on an empty landmark list. */
  method NearestScan(q: Point, cands: seq<Point>, cutoff: real, dist: Metric) returns (best: real)
    requires ValidCutoff(cutoff)
    ensures IsNearest(best, q, cands, cutoff, dist)
    ensures best == Nearest(q, cands, cutoff, dist)
  {
    best := MaxInt;
    for k := 0 to |cands|
      invariant IsNearest(best, q, cands[..k], cutoff, dist)
    {
      var d := dist(q, cands[k]);
      ImproveKeepsNearest(best, q, cands[..k], cands[k], cutoff, dist);
      assert cands[..k] + [cands[k]] == cands[..k + 1];
      if d <= cutoff && d < best {
        best := d;
      }
    }
    assert cands[..|cands|] == cands;
    NearestUnique(best, Nearest(q, cands, cutoff, dist), q, cands, cutoff, dist);
  }

  /** With no landmark within the cutoff, in particular with no landmark at
      all, the scan leaves the distance at the sentinel. */
  lemma NearestSentinel(q: Point, cands: seq<Point>, cutoff: real, dist: Metric)
    requires ValidCutoff(cutoff)
    requires forall c :: c in cands ==> dist(q, c) > cutoff
    ensures Nearest(q, cands, cutoff, dist) == MaxInt
  {
  }

  /** The scan depends only on which landmarks are listed, not on their order
      or multiplicity. */
  lemma NearestSameElements(q: Point, a: seq<Point>, b: seq<Point>, cutoff: real, dist: Metric)
    requires ValidCutoff(cutoff)
    requires forall c :: c in a <==> c in b
    ensures Nearest(q, a, cutoff, dist) == Nearest(q, b, cutoff, dist)
  {
    var da := Nearest(q, a, cutoff, dist);
    assert HasNear(q, a, cutoff, dist) <==> HasNear(q, b, cutoff, dist);
    assert IsNearest(da, q, b, cutoff, dist);
    NearestUnique(da, Nearest(q, b, cutoff, dist), q, b, cutoff, dist);
  }

  /** Permuting the landmark list does not change the nearest distance. */
  lemma NearestPermutation(q: Point, a: seq<Point>, b: seq<Point>, cutoff: real, dist: Metric)
    requires ValidCutoff(cutoff)
    requires multiset(a) == multiset(b)
    ensures Nearest(q, a, cutoff, dist) == Nearest(q, b, cutoff, dist)
  {
    forall c
      ensures c in a <==> c in b
    {
      assert c in a <==> c in multiset(a);
      assert c in b <==> c in multiset(b);
    }
    NearestSameElements(q, a, b, cutoff, dist);
  }

  /** Raising the cutoff keeps every association: a centroid within the smaller
      cutoff of some landmark stays within the larger one, and its nearest
      distance can only shrink. */
  lemma NearestCutoffMonotone(q: Point, cands: seq<Point>, c1: real, c2: real, dist: Metric)
    requires ValidCutoff(c1) && ValidCutoff(c2) && c1 <= c2
    ensures Nearest(q, cands, c1, dist) <= c1 ==> Nearest(q, cands, c2, dist) <= c2
    ensures Nearest(q, cands, c2, dist) <= Nearest(q, cands, c1, dist)
  {
    var d1 := Nearest(q, cands, c1, dist);
    var d2 := Nearest(q, cands, c2, dist);
    if HasNear(q, cands, c1, dist) {
      var w :| w in cands && dist(q, w) <= c1 && d1 == dist(q, w);
      assert HasNear(q, cands, c2, dist);
    }
  }
}
