/** The frequencies the script logs after classifying (lines 84-86 and
    209-222): each count as a percentage of a total, rounded to three decimals,
    with a zero total reported as zero instead of dividing by it. */
module Ratio {
  import opened Geometry
  import opened NearestFeature
  import opened Classifier
  import opened Tally
  import opened Naming

  /** `round(x, 3)` scaled by 1000: the integer nearest to `1000 * x`, a value
      halfway between two integers going away from zero, as Python 2 rounds. */
  function Thousandths(x: real): int {
    if x >= 0.0 then (x * 1000.0 + 0.5).Floor else -(((-x) * 1000.0 + 0.5).Floor)
  }

  lemma ThousandthsClose(x: real)
    ensures -0.5 <= Thousandths(x) as real - x * 1000.0 <= 0.5
  {
    var y := if x >= 0.0 then x * 1000.0 else (-x) * 1000.0;
    var f := (y + 0.5).Floor;
    assert f as real <= y + 0.5 < f as real + 1.0;
  }

  /** A multiple of 0.001: a value with at most three decimals. */
  predicate OnThousandths(x: real) {
    (x * 1000.0).Floor as real == x * 1000.0
  }

  /** Python 2's `round(x, 3)` over the reals: a multiple of 0.001 within half a
      thousandth of `x`, never below zero for a nonnegative `x`. */
  function Round3(x: real): (r: real)
    ensures OnThousandths(r)
    ensures Abs(r - x) <= 0.0005
    ensures 0.0 <= x ==> 0.0 <= r
  {
    ThousandthsClose(x);
    Thousandths(x) as real / 1000.0
  }

  /** Of two integers, one within 0.5 of `y` is at least as close to `y` as the other. */
  lemma NearestInteger(y: real, k0: int, k: int)
    requires -0.5 <= k0 as real - y <= 0.5
    ensures Abs(k0 as real - y) <= Abs(k as real - y)
  {
    if k < k0 {
      assert k as real <= k0 as real - 1.0;
    } else if k > k0 {
      assert k as real >= k0 as real + 1.0;
    }
  }

  lemma AbsThousandth(u: real)
    ensures Abs(u / 1000.0) == Abs(u) / 1000.0
  {
  }

  /** `Round3` rounds to nearest: no multiple of 0.001 lies closer to `x`. */
  lemma Round3Nearest(x: real, k: int)
    ensures Abs(Round3(x) - x) <= Abs(k as real / 1000.0 - x)
  {
    ThousandthsClose(x);
    var k0 := Thousandths(x);
    var y := x * 1000.0;
    NearestInteger(y, k0, k);
    assert Round3(x) - x == (k0 as real - y) / 1000.0;
    assert k as real / 1000.0 - x == (k as real - y) / 1000.0;
    AbsThousandth(k0 as real - y);
    AbsThousandth(k as real - y);
  }

  /** A value halfway between two multiples of 0.001 goes away from zero. */
  lemma Round3TiesAway(x: real)
    ensures Abs(Round3(x) - x) == 0.0005 ==> Abs(x) < Abs(Round3(x))
  {
    ThousandthsClose(x);
  }

  /** A percentage of at most 100 still is at most 100 once rounded. */
  lemma Round3AtMostHundred(x: real)
    requires x <= 100.0
    ensures Round3(x) <= 100.0
  {
    if x >= 0.0 {
      var f := (x * 1000.0 + 0.5).Floor;
      assert f as real <= 100000.5;
    } else {
      var f := ((-x) * 1000.0 + 0.5).Floor;
      assert f as real > -0.5;
    }
  }

  /** A count between zero and its positive total is a fraction between 0 and 1. */
  lemma FractionBounds(n: real, t: real)
    requires 0.0 <= n <= t && 0.0 < t
    ensures 0.0 <= n / t <= 1.0
  {
    assert n / t * t == n;
  }

  /** The unrounded percentage `float(n)/total*100` of the script. */
  function Share(n: int, total: int): real
    requires total != 0
  {
    n as real / total as real * 100.0
  }

  /** `ratio` as redefined at lines 211-212 and used for every logged line:
      zero for a zero total, otherwise `n / total * 100` rounded to three
      decimals, which for a count within its total lies between 0 and 100. */
  function Percent(n: int, total: int): (r: real)
    ensures total == 0 ==> r == 0.0
    ensures OnThousandths(r)
    ensures total != 0 ==> Abs(r - Share(n, total)) <= 0.0005
    ensures 0 <= n <= total ==> 0.0 <= r <= 100.0
  {
    if total == 0 then 0.0
    else
      if 0 <= n <= total then
        FractionBounds(n as real, total as real);
        Round3AtMostHundred(Share(n, total));
        Round3(Share(n, total))
      else
        Round3(Share(n, total))
  }

  /** `ratio` as first defined at lines 84-86, a text, with `show` standing for
      Python's `str` on a float: `"0 (0.0%)"` for a zero total whatever the
      count, otherwise the count followed by the redefined ratio's percentage in
      parentheses. */
  function RatioText(n: nat, total: int, show: real -> string): (r: string)
    ensures total == 0 ==> r == "0 (0.0%)"
    ensures total != 0 ==> r == NatToString(n) + " (" + show(Percent(n, total)) + "%)"
  {
    if total == 0 then "0 (0.0%)"
    else NatToString(n) + " (" + show(Round3(Share(n, total))) + "%)"
  }

  /** The six percentages of lines 217-222. */
  datatype Frequencies = Frequencies(bp: real, tip: real, shaft: real, hybrid: real,
                                     occupiedBps: real, occupiedTips: real)

  /** The logged frequencies: each bucket against the number of particles,
      junction-associated particles (Junction or Hybrid) against the number of
      junctions, and end-point-associated particles (Tip or Hybrid) against the
      number of end-points. */
  function Stats(nBp: nat, nTip: nat, nShaft: nat, nHybrid: nat,
                 nParticles: nat, nJunctions: nat, nEndPoints: nat): (f: Frequencies)
    ensures nBp <= nParticles ==> 0.0 <= f.bp <= 100.0
    ensures nTip <= nParticles ==> 0.0 <= f.tip <= 100.0
    ensures nShaft <= nParticles ==> 0.0 <= f.shaft <= 100.0
    ensures nHybrid <= nParticles ==> 0.0 <= f.hybrid <= 100.0
    ensures nParticles == 0 ==> f.bp == f.tip == f.shaft == f.hybrid == 0.0
    ensures nJunctions == 0 ==> f.occupiedBps == 0.0
    ensures nEndPoints == 0 ==> f.occupiedTips == 0.0
    ensures nParticles > 0 ==> && Abs(f.bp - Share(nBp, nParticles)) <= 0.0005
                               && Abs(f.tip - Share(nTip, nParticles)) <= 0.0005
                               && Abs(f.shaft - Share(nShaft, nParticles)) <= 0.0005
                               && Abs(f.hybrid - Share(nHybrid, nParticles)) <= 0.0005
    ensures nJunctions > 0 ==> Abs(f.occupiedBps - Share(nBp + nHybrid, nJunctions)) <= 0.0005
    ensures nEndPoints > 0 ==> Abs(f.occupiedTips - Share(nTip + nHybrid, nEndPoints)) <= 0.0005
  {
    Frequencies(Percent(nBp, nParticles), Percent(nTip, nParticles),
                Percent(nShaft, nParticles), Percent(nHybrid, nParticles),
                Percent(nBp + nHybrid, nJunctions), Percent(nTip + nHybrid, nEndPoints))
  }

  /** Four percentages of one total that add up to the total add up to 100
      before rounding, so to within 0.002 of 100 after. */
  lemma PercentsAddUp(a: nat, b: nat, c: nat, d: nat, total: nat)
    requires a + b + c + d == total && total > 0
    ensures Abs(Percent(a, total) + Percent(b, total) + Percent(c, total) + Percent(d, total) - 100.0) <= 0.002
  {
    var t := total as real;
    SharesAddUp(a as real, b as real, c as real, d as real, t);
  }

  /** Fractions of one total add up to the fraction of their sum, which is one
      when the parts make up the total. */
  lemma SharesAddUp(a: real, b: real, c: real, d: real, t: real)
    requires t != 0.0 && a + b + c + d == t
    ensures a / t + b / t + c / t + d / t == 1.0
  {
    assert a / t + b / t + c / t + d / t == (a + b + c + d) / t;
  }

  /** The frequencies of a classification run: each bucket's share lies between
      0 and 100 and the four shares add up to 100 up to rounding; with no
      particles, no junction or no end-point the matching ratios are 0 rather
      than a division by zero. */
  lemma StatsOfClassification(cx: seq<real>, cy: seq<real>, junctionVoxels: seq<Point>, endPoints: seq<Point>,
                              nJunctions: nat, cutoff: real, halfPx: real, dist: Metric)
    requires |cx| <= |cy| && ValidCutoff(cutoff) && 0.0 <= halfPx
    ensures var labels := ClassifyAll(cx, cy, junctionVoxels, endPoints, cutoff, halfPx, dist);
            var f := Stats(Count(labels, Junction), Count(labels, Tip), Count(labels, Shaft), Count(labels, Hybrid),
                           |cx|, nJunctions, |endPoints|);
            && 0.0 <= f.bp <= 100.0 && 0.0 <= f.tip <= 100.0
            && 0.0 <= f.shaft <= 100.0 && 0.0 <= f.hybrid <= 100.0
            && (|cx| > 0 ==> Abs(f.bp + f.tip + f.shaft + f.hybrid - 100.0) <= 0.002)
            && (|cx| == 0 ==> f.bp == f.tip == f.shaft == f.hybrid == 0.0)
            && (nJunctions == 0 ==> f.occupiedBps == 0.0)
            && (|endPoints| == 0 ==> f.occupiedTips == 0.0)
  {
    var labels := ClassifyAll(cx, cy, junctionVoxels, endPoints, cutoff, halfPx, dist);
    CountsAddUp(labels);
    if |cx| > 0 {
      PercentsAddUp(Count(labels, Junction), Count(labels, Tip), Count(labels, Shaft), Count(labels, Hybrid), |cx|);
    }
  }
}
