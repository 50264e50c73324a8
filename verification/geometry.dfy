/** Plane geometry of the classifier: particle centroids and skeleton landmarks
    are points of the image plane, compared by their Euclidean distance. */
module Geometry {

  /** A point of the image plane. Skeleton landmarks also carry a z coordinate,
      which the classification never reads. */
  datatype Point = Point(x: real, y: real)

  /** A distance between a particle centroid and a skeleton landmark. Dafny has
      no square root on `real`, so the distance is a parameter of the model and
      `Euclidean` says when it is the script's `distance`. */
  type Metric = (Point, Point) -> real

  /** The square of a coordinate difference, the script's `**2`. */
  function Sq(a: real): real {
    a * a
  }

  /** The radicand of the script's `distance`: the sum of the squared differences
      of the coordinates. */
  function SqDist(p: Point, q: Point): (r: real)
    ensures r >= 0.0
  {
    SqNonnegative(q.x - p.x);
    SqNonnegative(q.y - p.y);
    Sq(q.x - p.x) + Sq(q.y - p.y)
  }

  /** `r` is the square root of `s` as `math.sqrt` returns it: the nonnegative root. */
  predicate IsRoot(r: real, s: real) {
    0.0 <= r && Sq(r) == s
  }

  /** `dist` is the script's `distance`: the square root of `SqDist`. */
  ghost predicate Euclidean(dist: Metric) {
    forall p, q :: IsRoot(dist(p, q), SqDist(p, q))
  }

  lemma SqNonnegative(a: real)
    ensures Sq(a) >= 0.0
  {
  }

  lemma SqNegate(a: real)
    ensures Sq(-a) == Sq(a)
  {
  }

  lemma MulPositive(x: real, y: real)
    requires 0.0 < x && 0.0 < y
    ensures 0.0 < x * y
  {
  }

  lemma MulNonnegative(x: real, y: real)
    requires 0.0 <= x && 0.0 <= y
    ensures 0.0 <= x * y
  {
  }

  lemma Distribute(x: real, y: real, z: real)
    ensures x * (y - z) == x * y - x * z
  {
  }

  /** Squaring is strictly increasing on the nonnegative reals. */
  lemma SqStrictlyIncreasing(a: real, b: real)
    requires 0.0 <= a < b
    ensures Sq(a) < Sq(b)
  {
    MulNonnegative(a, b - a);
    Distribute(a, b, a);
    MulPositive(b, b - a);
    Distribute(b, b, a);
  }

  /** A number has at most one nonnegative square root. */
  lemma RootUnique(a: real, b: real, s: real)
    requires IsRoot(a, s) && IsRoot(b, s)
    ensures a == b
  {
    if a < b {
      SqStrictlyIncreasing(a, b);
    } else if b < a {
      SqStrictlyIncreasing(b, a);
    }
  }

  /** The root of `s` exceeds every nonnegative `c` whose square is below `s`. */
  lemma RootAbove(r: real, s: real, c: real)
    requires IsRoot(r, s) && 0.0 <= c && Sq(c) < s
    ensures c < r
  {
    if r < c {
      SqStrictlyIncreasing(r, c);
    }
  }

  /** `Euclidean` determines the distance completely: any two distances meeting
      it agree on every pair of points, so over the reals the model's distance
      is exactly the script's `math.sqrt((x2 - x1)**2 + (y2 - y1)**2)`. */
  lemma EuclideanDetermined(d1: Metric, d2: Metric)
    requires Euclidean(d1) && Euclidean(d2)
    ensures forall p, q :: d1(p, q) == d2(p, q)
  {
    forall p, q
      ensures d1(p, q) == d2(p, q)
    {
      RootUnique(d1(p, q), d2(p, q), SqDist(p, q));
    }
  }

  /** The Euclidean distance does not depend on the order of its arguments, so
      measuring from the centroid to the landmark, as the script does, loses nothing. */
  lemma EuclideanSymmetric(dist: Metric)
    requires Euclidean(dist)
    ensures forall p, q :: dist(p, q) == dist(q, p)
  {
    forall p, q
      ensures dist(p, q) == dist(q, p)
    {
      SqNegate(q.x - p.x);
      SqNegate(q.y - p.y);
      assert SqDist(p, q) == SqDist(q, p);
      RootUnique(dist(p, q), dist(q, p), SqDist(p, q));
    }
  }
}
