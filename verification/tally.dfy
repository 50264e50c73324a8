/** The classification pass over all particles (lines 142-181): four counters
    and four index lists, filled particle by particle. */
module Tally {
  import opened Options
  import opened Geometry
  import opened NearestFeature
  import opened Classifier

  /** How many particles carry label `l`. */
  function Count(labels: seq<Option<Label>>, l: Label): (r: nat)
    ensures r <= |labels|
  {
    if labels == [] then 0
    else Count(labels[..|labels| - 1], l) + (if labels[|labels| - 1] == Some(l) then 1 else 0)
  }

  /** Every index is strictly larger than the one before it. */
  predicate Increasing(s: seq<nat>) {
    forall i, j :: 0 <= i < j < |s| ==> s[i] < s[j]
  }

  /** The indices of the particles labelled `l`, in particle order, as the
      script's `append` calls build them. */
  function IndicesOf(labels: seq<Option<Label>>, l: Label): seq<nat>
  {
    if labels == [] then []
    else
      var n := |labels| - 1;
      IndicesOf(labels[..n], l) + (if labels[n] == Some(l) then [n] else [])
  }

  /** The list of label `l` holds the index of every particle labelled `l`
      and nothing else. */
  lemma {:induction false} IndicesMembership(labels: seq<Option<Label>>, l: Label)
    ensures forall k: nat :: k in IndicesOf(labels, l) <==> k < |labels| && labels[k] == Some(l)
  {
    if labels != [] {
      var n := |labels| - 1;
      IndicesMembership(labels[..n], l);
      forall k: nat
        ensures k in IndicesOf(labels, l) <==> k < |labels| && labels[k] == Some(l)
      {
        if k < n {
          assert labels[..n][k] == labels[k];
        }
      }
    }
  }

  /** The list of label `l` is strictly increasing, so no index appears twice,
      and it is as long as the counter of that label. */
  lemma {:induction false} IndicesIncreasing(labels: seq<Option<Label>>, l: Label)
    ensures Increasing(IndicesOf(labels, l))
    ensures |IndicesOf(labels, l)| == Count(labels, l)
  {
    if labels != [] {
      var n := |labels| - 1;
      var prefix := IndicesOf(labels[..n], l);
      IndicesIncreasing(labels[..n], l);
      IndicesMembership(labels[..n], l);
      var r := IndicesOf(labels, l);
      assert r[..|prefix|] == prefix;
      forall i, j | 0 <= i < j < |r|
        ensures r[i] < r[j]
      {
        assert r[i] == prefix[i] && prefix[i] in prefix;
        if j == |prefix| {
          assert r[j] == n;
        } else {
          assert r[j] == prefix[j];
        }
      }
    }
  }

  /** Extending the labelled prefix by one particle appends its index to the
      list of its own label and to no other. */
  lemma IndicesStep(labels: seq<Option<Label>>, i: nat, l: Label)
    requires i < |labels|
    ensures IndicesOf(labels[..i + 1], l)
            == IndicesOf(labels[..i], l) + (if labels[i] == Some(l) then [i] else [])
  {
    assert labels[..i + 1][..i] == labels[..i];
  }

  /** Counts of the four labels add up to the number of labelled particles. */
  lemma {:induction false} CountsAddUp(labels: seq<Option<Label>>)
    requires forall i :: 0 <= i < |labels| ==> labels[i].Some?
    ensures Count(labels, Junction) + Count(labels, Tip) + Count(labels, Shaft) + Count(labels, Hybrid)
            == |labels|
  {
    if labels != [] {
      var n := |labels| - 1;
      CountsAddUp(labels[..n]);
      assert labels[n].Some?;
      var v := labels[n].value;
      assert v == Junction || v == Tip || v == Shaft || v == Hybrid;
    }
  }

  /** In how many of the four lists the index `k` appears. */
  function Occurrences(k: nat, a: seq<nat>, b: seq<nat>, c: seq<nat>, d: seq<nat>): nat {
    (if k in a then 1 else 0) + (if k in b then 1 else 0) + (if k in c then 1 else 0) + (if k in d then 1 else 0)
  }

  /** Every index below `n` is in exactly one of the four lists, and no list
      holds anything else: the lists partition `range(n)`. */
  ghost predicate Partition(n: nat, a: seq<nat>, b: seq<nat>, c: seq<nat>, d: seq<nat>) {
    forall k: nat :: Occurrences(k, a, b, c, d) == if k < n then 1 else 0
  }

  /** Where the index `k` of a labelled particle appears among the four lists:
      in the list of its own label only. */
  lemma OccursOnce(labels: seq<Option<Label>>, k: nat)
    requires k < |labels| && labels[k].Some?
    ensures Occurrences(k, IndicesOf(labels, Junction), IndicesOf(labels, Tip),
                        IndicesOf(labels, Hybrid), IndicesOf(labels, Shaft)) == 1
  {
    IndicesMembership(labels, Junction);
    IndicesMembership(labels, Tip);
    IndicesMembership(labels, Hybrid);
    IndicesMembership(labels, Shaft);
    var v := labels[k].value;
    assert k in IndicesOf(labels, v);
    assert v == Junction || v == Tip || v == Shaft || v == Hybrid;
  }

  /** An index past the last particle appears in none of the four lists. */
  lemma OccursNever(labels: seq<Option<Label>>, k: nat)
    requires |labels| <= k
    ensures Occurrences(k, IndicesOf(labels, Junction), IndicesOf(labels, Tip),
                        IndicesOf(labels, Hybrid), IndicesOf(labels, Shaft)) == 0
  {
    IndicesMembership(labels, Junction);
    IndicesMembership(labels, Tip);
    IndicesMembership(labels, Hybrid);
    IndicesMembership(labels, Shaft);
  }

  /** When every particle is labelled, the four index lists partition the particles. */
  lemma IndicesPartition(labels: seq<Option<Label>>)
    requires forall i :: 0 <= i < |labels| ==> labels[i].Some?
    ensures Partition(|labels|, IndicesOf(labels, Junction), IndicesOf(labels, Tip),
                      IndicesOf(labels, Hybrid), IndicesOf(labels, Shaft))
  {
    forall k: nat
      ensures Occurrences(k, IndicesOf(labels, Junction), IndicesOf(labels, Tip),
                          IndicesOf(labels, Hybrid), IndicesOf(labels, Shaft))
              == if k < |labels| then 1 else 0
    {
      if k < |labels| {
        OccursOnce(labels, k);
      } else {
        OccursNever(labels, k);
      }
    }
  }

  /** The four index lists of a full labelling together: their lengths add up
      to the number of particles, and they partition the particle indices. */
  lemma IndicesSummary(labels: seq<Option<Label>>)
    requires forall i :: 0 <= i < |labels| ==> labels[i].Some?
    ensures |IndicesOf(labels, Junction)| + |IndicesOf(labels, Tip)| + |IndicesOf(labels, Shaft)|
            + |IndicesOf(labels, Hybrid)| == |labels|
    ensures Partition(|labels|, IndicesOf(labels, Junction), IndicesOf(labels, Tip),
                      IndicesOf(labels, Hybrid), IndicesOf(labels, Shaft))
  {
    IndicesIncreasing(labels, Junction);
    IndicesIncreasing(labels, Tip);
    IndicesIncreasing(labels, Shaft);
    IndicesIncreasing(labels, Hybrid);
    CountsAddUp(labels);
    IndicesPartition(labels);
  }

  /** The label of particle `i` is the decision rule applied to its two scans. */
  lemma LabelAt(cx: seq<real>, cy: seq<real>, junctionVoxels: seq<Point>, endPoints: seq<Point>,
                cutoff: real, halfPx: real, dist: Metric, i: nat)
    requires |cx| <= |cy| && ValidCutoff(cutoff) && i < |cx|
    ensures ClassifyAll(cx, cy, junctionVoxels, endPoints, cutoff, halfPx, dist)[i]
            == Decide(Nearest(Point(cx[i], cy[i]), junctionVoxels, cutoff, dist),
                      Nearest(Point(cx[i], cy[i]), endPoints, cutoff, dist), cutoff, halfPx)
  {
  }

  /** The loop of lines 142-181: for each particle, the two scans and the
      decision rule, appending the index to one of the four lists and bumping
      the matching counter. The lists are exactly the particles of each label,
      the counters are their lengths, the counters sum to the number of
      particles and the lists partition the particle indices, so the error
      branch at line 180 is never taken. */
  method ClassifyParticles(cx: seq<real>, cy: seq<real>, junctionVoxels: seq<Point>, endPoints: seq<Point>,
                           cutoff: real, halfPx: real, dist: Metric)
    returns (nBp: nat, nTip: nat, nShaft: nat, nHybrid: nat,
             jIndices: seq<nat>, epIndices: seq<nat>, jepIndices: seq<nat>, slabIndices: seq<nat>)
    requires |cx| <= |cy| && ValidCutoff(cutoff) && 0.0 <= halfPx
    ensures var labels := ClassifyAll(cx, cy, junctionVoxels, endPoints, cutoff, halfPx, dist);
            && jIndices == IndicesOf(labels, Junction)
            && epIndices == IndicesOf(labels, Tip)
            && jepIndices == IndicesOf(labels, Hybrid)
            && slabIndices == IndicesOf(labels, Shaft)
    ensures var labels := ClassifyAll(cx, cy, junctionVoxels, endPoints, cutoff, halfPx, dist);
            && (forall k: nat :: k in jIndices <==> k < |cx| && labels[k] == Some(Junction))
            && (forall k: nat :: k in epIndices <==> k < |cx| && labels[k] == Some(Tip))
            && (forall k: nat :: k in jepIndices <==> k < |cx| && labels[k] == Some(Hybrid))
            && (forall k: nat :: k in slabIndices <==> k < |cx| && labels[k] == Some(Shaft))
    ensures nBp == |jIndices| && nTip == |epIndices| && nHybrid == |jepIndices| && nShaft == |slabIndices|
    ensures nBp + nTip + nShaft + nHybrid == |cx|
    ensures Partition(|cx|, jIndices, epIndices, jepIndices, slabIndices)
  {
    ghost var labels := ClassifyAll(cx, cy, junctionVoxels, endPoints, cutoff, halfPx, dist);
    nBp, nTip, nShaft, nHybrid := 0, 0, 0, 0;
    jIndices, epIndices, jepIndices, slabIndices := [], [], [], [];
    for i := 0 to |cx|
      invariant jIndices == IndicesOf(labels[..i], Junction)
      invariant epIndices == IndicesOf(labels[..i], Tip)
      invariant jepIndices == IndicesOf(labels[..i], Hybrid)
      invariant slabIndices == IndicesOf(labels[..i], Shaft)
      invariant nBp == |jIndices| && nTip == |epIndices| && nHybrid == |jepIndices| && nShaft == |slabIndices|
    {
      var p := Point(cx[i], cy[i]);
      var jDist := NearestScan(p, junctionVoxels, cutoff, dist);
      var epDist := NearestScan(p, endPoints, cutoff, dist);
      LabelAt(cx, cy, junctionVoxels, endPoints, cutoff, halfPx, dist, i);
      IndicesStep(labels, i, Junction);
      IndicesStep(labels, i, Tip);
      IndicesStep(labels, i, Hybrid);
      IndicesStep(labels, i, Shaft);
      if jDist > cutoff && epDist > cutoff {
        assert labels[i] == Some(Shaft);
        slabIndices := slabIndices + [i];
        nShaft := nShaft + 1;
      } else if Abs(jDist - epDist) <= halfPx {
        assert labels[i] == Some(Hybrid);
        jepIndices := jepIndices + [i];
        nHybrid := nHybrid + 1;
      } else if epDist < jDist {
        assert labels[i] == Some(Tip);
        epIndices := epIndices + [i];
        nTip := nTip + 1;
      } else if epDist > jDist {
        assert labels[i] == Some(Junction);
        jIndices := jIndices + [i];
        nBp := nBp + 1;
      } else {
        // the error branch of line 180
        assert false;
      }
    }
    assert labels[..|cx|] == labels;
    IndicesMembership(labels, Junction);
    IndicesMembership(labels, Tip);
    IndicesMembership(labels, Hybrid);
    IndicesMembership(labels, Shaft);
    IndicesSummary(labels);
  }

  /** The Shaft count over a sequence of labels is no larger than over another
      one that is Shaft wherever the first is. */
  lemma {:induction false} CountPointwise(fewer: seq<Option<Label>>, more: seq<Option<Label>>, l: Label)
    requires |fewer| == |more|
    requires forall i :: 0 <= i < |fewer| && fewer[i] == Some(l) ==> more[i] == Some(l)
    ensures Count(fewer, l) <= Count(more, l)
  {
    if fewer != [] {
      CountPointwise(fewer[..|fewer| - 1], more[..|more| - 1], l);
    }
  }

  /** Raising the cutoff never increases the number of Shaft particles. */
  lemma ShaftCountMonotone(cx: seq<real>, cy: seq<real>, junctionVoxels: seq<Point>, endPoints: seq<Point>,
                           c1: real, c2: real, halfPx: real, dist: Metric)
    requires |cx| <= |cy| && ValidCutoff(c1) && ValidCutoff(c2) && c1 <= c2
    ensures Count(ClassifyAll(cx, cy, junctionVoxels, endPoints, c2, halfPx, dist), Shaft)
            <= Count(ClassifyAll(cx, cy, junctionVoxels, endPoints, c1, halfPx, dist), Shaft)
  {
    var low := ClassifyAll(cx, cy, junctionVoxels, endPoints, c1, halfPx, dist);
    var high := ClassifyAll(cx, cy, junctionVoxels, endPoints, c2, halfPx, dist);
    forall i | 0 <= i < |high| && high[i] == Some(Shaft)
      ensures low[i] == Some(Shaft)
    {
      ClassifyCutoffMonotone(Centroid(cx, cy, i), junctionVoxels, endPoints, c1, c2, halfPx, dist);
    }
    CountPointwise(high, low, Shaft);
  }

  /** Permuting the junction voxels or the end-points changes no label, hence
      no count and no index list. */
  lemma ClassifyAllPermutation(cx: seq<real>, cy: seq<real>, j1: seq<Point>, j2: seq<Point>,
                               e1: seq<Point>, e2: seq<Point>, cutoff: real, halfPx: real, dist: Metric)
    requires |cx| <= |cy| && ValidCutoff(cutoff)
    requires multiset(j1) == multiset(j2) && multiset(e1) == multiset(e2)
    ensures ClassifyAll(cx, cy, j1, e1, cutoff, halfPx, dist) == ClassifyAll(cx, cy, j2, e2, cutoff, halfPx, dist)
  {
    var a := ClassifyAll(cx, cy, j1, e1, cutoff, halfPx, dist);
    var b := ClassifyAll(cx, cy, j2, e2, cutoff, halfPx, dist);
    forall i | 0 <= i < |a|
      ensures a[i] == b[i]
    {
      ClassifyPermutation(Centroid(cx, cy, i), j1, j2, e1, e2, cutoff, halfPx, dist);
    }
  }

  /** Exchanging the two landmark lists exchanges the Tip and Junction counts
      and keeps the Shaft and Hybrid counts. */
  lemma {:induction false} CountSwap(a: seq<Option<Label>>, b: seq<Option<Label>>, l: Label)
    requires |a| == |b|
    requires forall i :: 0 <= i < |a| ==> a[i].Some? && b[i] == Some(Swap(a[i].value))
    ensures Count(b, Swap(l)) == Count(a, l)
  {
    if a != [] {
      CountSwap(a[..|a| - 1], b[..|b| - 1], l);
    }
  }

  /** Classifying against swapped landmark lists swaps the Tip and Junction
      tallies. */
  lemma TallySwap(cx: seq<real>, cy: seq<real>, junctionVoxels: seq<Point>, endPoints: seq<Point>,
                  cutoff: real, halfPx: real, dist: Metric)
    requires |cx| <= |cy| && ValidCutoff(cutoff) && 0.0 <= halfPx
    ensures var a := ClassifyAll(cx, cy, junctionVoxels, endPoints, cutoff, halfPx, dist);
            var b := ClassifyAll(cx, cy, endPoints, junctionVoxels, cutoff, halfPx, dist);
            && Count(b, Tip) == Count(a, Junction)
            && Count(b, Junction) == Count(a, Tip)
            && Count(b, Shaft) == Count(a, Shaft)
            && Count(b, Hybrid) == Count(a, Hybrid)
  {
    var a := ClassifyAll(cx, cy, junctionVoxels, endPoints, cutoff, halfPx, dist);
    var b := ClassifyAll(cx, cy, endPoints, junctionVoxels, cutoff, halfPx, dist);
    forall i | 0 <= i < |a|
      ensures a[i].Some? && b[i] == Some(Swap(a[i].value))
    {
      ClassifySwap(Centroid(cx, cy, i), junctionVoxels, endPoints, cutoff, halfPx, dist);
    }
    CountSwap(a, b, Junction);
    CountSwap(a, b, Tip);
    CountSwap(a, b, Shaft);
    CountSwap(a, b, Hybrid);
  }
}
