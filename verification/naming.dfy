/** The names the script gives the particles' regions of interest (lines
    187-201): the bucket's name, a colon, and the particle index in decimal,
    left-padded with zeros to four characters. */
module Naming {
  import opened Options
  import opened Geometry
  import opened NearestFeature
  import opened Classifier
  import opened Tally

  predicate IsDigit(c: char) {
    '0' <= c <= '9'
  }

  predicate AllDigits(s: string) {
    forall i :: 0 <= i < |s| ==> IsDigit(s[i])
  }

  function DigitChar(d: nat): (c: char)
    requires d < 10
    ensures IsDigit(c)
  {
    ('0' as int + d) as char
  }

  function DigitValue(c: char): (d: nat)
    requires IsDigit(c)
    ensures d < 10
  {
    c as int - '0' as int
  }

  /** The number a string of decimal digits denotes; leading zeros add nothing. */
  function DecimalValue(s: string): nat
    requires AllDigits(s)
  {
    if s == [] then 0
    else DecimalValue(s[..|s| - 1]) * 10 + DigitValue(s[|s| - 1])
  }

  /** `str(n)` for a particle index: its decimal digits, at least one, and no
      leading zero unless the number is zero. */
  function NatToString(n: nat): (s: string)
    ensures 1 <= |s| && AllDigits(s)
    ensures s[0] == '0' ==> n == 0
    ensures n < 10 <==> |s| == 1
  {
    if n < 10 then [DigitChar(n)]
    else NatToString(n / 10) + [DigitChar(n % 10)]
  }

  /** `str(n)` denotes `n`: reading the digits back gives the number. */
  lemma {:induction false} NatToStringRoundTrip(n: nat)
    ensures DecimalValue(NatToString(n)) == n
  {
    if n >= 10 {
      NatToStringRoundTrip(n / 10);
      var s := NatToString(n);
      assert s[..|s| - 1] == NatToString(n / 10);
    }
  }

  function Zeros(k: nat): (r: string)
    ensures |r| == k && forall i :: 0 <= i < k ==> r[i] == '0'
  {
    seq(k, _ => '0')
  }

  /** A string starts with a sign, which `zfill` keeps in front of the padding. */
  predicate Signed(s: string) {
    |s| > 0 && (s[0] == '+' || s[0] == '-')
  }

  /** Python's `str.zfill(width)`: a string at least `width` long is returned
      unchanged; a shorter one is padded on the left with zeros up to `width`,
      and a leading sign stays in front of the padding. */
  function ZFill(s: string, width: nat): (r: string)
    ensures |r| == if |s| >= width then |s| else width
    ensures |s| >= width ==> r == s
    ensures !Signed(s) ==> r[|r| - |s|..] == s && forall i :: 0 <= i < |r| - |s| ==> r[i] == '0'
    ensures Signed(s) ==> r[0] == s[0] && r[|r| - |s| + 1..] == s[1..]
                          && forall i :: 1 <= i <= |r| - |s| ==> r[i] == '0'
  {
    if |s| >= width then s
    else if Signed(s) then [s[0]] + Zeros(width - |s|) + s[1..]
    else Zeros(width - |s|) + s
  }

  /** Leading zeros do not change the number a digit string denotes. */
  lemma {:induction false} LeadingZeros(k: nat, s: string)
    requires AllDigits(s)
    ensures AllDigits(Zeros(k) + s)
    ensures DecimalValue(Zeros(k) + s) == DecimalValue(s)
    decreases |s|, k
  {
    var z := Zeros(k) + s;
    if s == [] {
      assert z == Zeros(k);
      if k > 0 {
        LeadingZeros(k - 1, []);
        assert z[..|z| - 1] == Zeros(k - 1) + [];
      }
    } else {
      var n := |s| - 1;
      LeadingZeros(k, s[..n]);
      assert z[..|z| - 1] == Zeros(k) + s[..n];
    }
  }

  /** The id part of a region name, `str(i).zfill(4)`. */
  function RoiId(i: nat): (r: string)
    ensures 4 <= |r| && AllDigits(r)
  {
    var s := NatToString(i);
    if |s| < 4 then LeadingZeros(4 - |s|, s); ZFill(s, 4) else ZFill(s, 4)
  }

  /** The id part is the decimal index padded to at least four characters, and
      it reads back as the index. */
  lemma RoiIdMeaning(i: nat)
    ensures |RoiId(i)| == if i < 1000 then 4 else |NatToString(i)|
    ensures AllDigits(RoiId(i)) && DecimalValue(RoiId(i)) == i
  {
    var s := NatToString(i);
    NatToStringRoundTrip(i);
    if i < 1000 {
      NatToStringShort(i);
    } else {
      NatToStringLong(i);
    }
    if |s| < 4 {
      LeadingZeros(4 - |s|, s);
    }
  }

  /** Indices below 1000 have at most three digits. */
  lemma {:induction false} NatToStringShort(n: nat)
    requires n < 1000
    ensures |NatToString(n)| <= 3
  {
    if n >= 10 {
      NatToStringShort(n / 10);
      if n >= 100 {
        assert n / 10 >= 10;
      } else {
        assert n / 10 < 10;
      }
    }
  }

  /** Indices from 1000 on have at least four digits. */
  lemma {:induction false} NatToStringLong(n: nat)
    requires n >= 1000
    ensures |NatToString(n)| >= 4
  {
    if n / 10 >= 1000 {
      NatToStringLong(n / 10);
    } else {
      assert n / 10 >= 100;
      assert NatToString(n / 10) == NatToString(n / 100) + [DigitChar(n / 10 % 10)];
    }
  }

  /** The name of a bucket as the region names spell it. */
  function LabelName(l: Label): string {
    match l
    case Hybrid => "Hybrid"
    case Junction => "Junction"
    case Tip => "Tip"
    case Shaft => "Shaft"
  }

  /** The name of the region of particle `i`, as lines 189-201 build it from
      the four index lists, with the `UNKNOWN:` fallback for an index in none
      of them. */
  function RoiName(i: nat, jepIndices: seq<nat>, jIndices: seq<nat>, epIndices: seq<nat>, slabIndices: seq<nat>)
    : (r: string)
    ensures ParseRoiName(r) == if i in jepIndices then Some((Hybrid, i))
                               else if i in jIndices then Some((Junction, i))
                               else if i in epIndices then Some((Tip, i))
                               else if i in slabIndices then Some((Shaft, i))
                               else None
  {
    var id := RoiId(i);
    if i in jepIndices then RoiNameRoundTrip(Hybrid, i); LabelName(Hybrid) + ":" + id
    else if i in jIndices then RoiNameRoundTrip(Junction, i); LabelName(Junction) + ":" + id
    else if i in epIndices then RoiNameRoundTrip(Tip, i); LabelName(Tip) + ":" + id
    else if i in slabIndices then RoiNameRoundTrip(Shaft, i); LabelName(Shaft) + ":" + id
    else UnknownUnparsed(id); "UNKNOWN:" + id
  }

  /** A name in the `UNKNOWN:` fallback reads back as no bucket. */
  lemma UnknownUnparsed(id: string)
    ensures ParseRoiName("UNKNOWN:" + id) == None
  {
    var name := "UNKNOWN:" + id;
    assert name[0] == 'U';
  }

  /** The region names of the first `n` particles, in particle order. */
  function RoiNames(n: nat, jepIndices: seq<nat>, jIndices: seq<nat>, epIndices: seq<nat>, slabIndices: seq<nat>)
    : (r: seq<string>)
    ensures |r| == n
    ensures forall i :: 0 <= i < n && ParseRoiName(r[i]).Some? ==> ParseRoiName(r[i]).value.1 == i
  {
    seq(n, i requires 0 <= i < n => RoiName(i, jepIndices, jIndices, epIndices, slabIndices))
  }

  /** Reads a region name back into its bucket and particle index; `None` for
      a name of no bucket, such as one starting with `UNKNOWN:`. */
  function ParseRoiName(name: string): Option<(Label, nat)> {
    if LabelName(Hybrid) + ":" <= name then ParseId(Hybrid, name[|LabelName(Hybrid)| + 1..])
    else if LabelName(Junction) + ":" <= name then ParseId(Junction, name[|LabelName(Junction)| + 1..])
    else if LabelName(Tip) + ":" <= name then ParseId(Tip, name[|LabelName(Tip)| + 1..])
    else if LabelName(Shaft) + ":" <= name then ParseId(Shaft, name[|LabelName(Shaft)| + 1..])
    else None
  }

  function ParseId(l: Label, id: string): Option<(Label, nat)> {
    if |id| > 0 && AllDigits(id) then Some((l, DecimalValue(id))) else None
  }

  /** No bucket's name with its colon is a prefix of another bucket's region name. */
  lemma PrefixesDistinct(l: Label, m: Label, id: string)
    requires l != m
    ensures !(LabelName(m) + ":" <= LabelName(l) + ":" + id)
  {
    var a := LabelName(m) + ":";
    var b := LabelName(l) + ":" + id;
    // the four names start with four different letters
    assert a[0] != b[0];
  }

  /** Region names round-trip: the bucket and the index can be read back from
      the name, so distinct particles get distinct names. */
  lemma RoiNameRoundTrip(l: Label, i: nat)
    ensures ParseRoiName(LabelName(l) + ":" + RoiId(i)) == Some((l, i))
  {
    RoiIdMeaning(i);
    var name := LabelName(l) + ":" + RoiId(i);
    forall m | m != l
      ensures !(LabelName(m) + ":" <= name)
    {
      PrefixesDistinct(l, m, RoiId(i));
    }
    assert LabelName(l) + ":" <= name;
    assert name[|LabelName(l)| + 1..] == RoiId(i);
  }

  /** The name of a particle given the index lists of a labelling in which it
      is labelled `l` is `l`'s name and its id; the `UNKNOWN:` branch is not taken. */
  lemma RoiNameOfLabel(labels: seq<Option<Label>>, i: nat, l: Label)
    requires i < |labels| && labels[i] == Some(l)
    ensures RoiName(i, IndicesOf(labels, Hybrid), IndicesOf(labels, Junction),
                    IndicesOf(labels, Tip), IndicesOf(labels, Shaft))
            == LabelName(l) + ":" + RoiId(i)
  {
    IndicesMembership(labels, Hybrid);
    IndicesMembership(labels, Junction);
    IndicesMembership(labels, Tip);
    IndicesMembership(labels, Shaft);
  }

  /** The naming loop after the classification loop: every particle's region is
      named after its own bucket, the name reads back as that bucket and the
      particle's index, and no region is named `UNKNOWN:`. */
  lemma RoiNamesOfClassification(cx: seq<real>, cy: seq<real>, junctionVoxels: seq<Point>, endPoints: seq<Point>,
                                 cutoff: real, halfPx: real, dist: Metric)
    requires |cx| <= |cy| && ValidCutoff(cutoff) && 0.0 <= halfPx
    ensures var labels := ClassifyAll(cx, cy, junctionVoxels, endPoints, cutoff, halfPx, dist);
            var names := RoiNames(|cx|, IndicesOf(labels, Hybrid), IndicesOf(labels, Junction),
                                  IndicesOf(labels, Tip), IndicesOf(labels, Shaft));
            forall i :: 0 <= i < |cx| ==>
              && names[i] == LabelName(labels[i].value) + ":" + RoiId(i)
              && ParseRoiName(names[i]) == Some((labels[i].value, i))
  {
    var labels := ClassifyAll(cx, cy, junctionVoxels, endPoints, cutoff, halfPx, dist);
    var names := RoiNames(|cx|, IndicesOf(labels, Hybrid), IndicesOf(labels, Junction),
                          IndicesOf(labels, Tip), IndicesOf(labels, Shaft));
    forall i | 0 <= i < |cx|
      ensures names[i] == LabelName(labels[i].value) + ":" + RoiId(i)
      ensures ParseRoiName(names[i]) == Some((labels[i].value, i))
    {
      RoiNameOfLabel(labels, i, labels[i].value);
      RoiNameRoundTrip(labels[i].value, i);
    }
  }
}
