/**
  * Splitting a straight move into pieces no longer than half the probe spacing
  * (`splitToSegments`), skipping points that do not move away from the last one
  * kept (`appendPointSkipDuplicate`).
  */
module Segments {
  import opened Common
  import opened Geometry
  import opened Units

  /** A point whose squared distance to the last point kept is at most this is a duplicate. */
  const DuplicateTolerance: real := 0.0000000001

  /** Moves shorter than this produce no points at all. */
  const MinLength: real := 0.0000000001

  // ------------------------------------------------------------ skipping duplicates

  /** Every point moves away from the one before it by more than the duplicate tolerance. */
  predicate Spread(s: seq<Point3>) {
    forall i :: 0 <= i < |s| - 1 ==> DistanceSquared3(s[i + 1], s[i]) > DuplicateTolerance
  }

  /**
    * `appendPointSkipDuplicate`: `pt` is appended to a non-empty list only when
    * it lies farther than the tolerance from the last point.
    */
  function AppendSkipDuplicate(res: seq<Point3>, pt: Point3): (r: seq<Point3>)
    ensures 0 < |r| && |res| <= |r| <= |res| + 1 && r[..|res|] == res
    ensures r[|r| - 1] == pt || DistanceSquared3(pt, r[|r| - 1]) <= DuplicateTolerance
    ensures Spread(res) ==> Spread(r)
  {
    if |res| == 0 then [pt]
    else if DistanceSquared3(pt, res[|res| - 1]) > DuplicateTolerance then res + [pt]
    else res
  }

  /** Offering the points of `pts` one after the other. */
  function AppendAll(res: seq<Point3>, pts: seq<Point3>): (r: seq<Point3>)
    ensures |res| <= |r| <= |res| + |pts|
    ensures Spread(res) ==> Spread(r)
    ensures |res| > 0 ==> r[0] == res[0]
  {
    if pts == [] then res
    else AppendSkipDuplicate(AppendAll(res, pts[..|pts| - 1]), pts[|pts| - 1])
  }

  lemma AppendAllSnoc(res: seq<Point3>, pts: seq<Point3>, p: Point3)
    ensures AppendAll(res, pts + [p]) == AppendSkipDuplicate(AppendAll(res, pts), p)
  {
    assert (pts + [p])[..|pts|] == pts;
  }

  // ---------------------------------------------------------------- the split

  /** The point `t` along the direction `dir` from `p1`. */
  function At(p1: Point3, dir: Point3, t: real): Point3 {
    Point3(p1.x + dir.x * t, p1.y + dir.y * t, p1.z + dir.z * t)
  }

  /** The direction vector `(p2 - p1) / dist`. */
  function Direction(p1: Point3, p2: Point3, dist: real): Point3
    requires dist != 0.0
  {
    var v := Sub3(p2, p1);
    Point3(v.x / dist, v.y / dist, v.z / dist)
  }

  /** The length of the move, as the extension computes it. */
  function Length(p1: Point3, p2: Point3, math: MathLib): real {
    math.sqrt(DistanceSquared3(p1, p2))
  }

  /** Half the probe spacing `delta` (millimetres), in the units of the program. */
  function MaxSegment(delta: real, units: Unit): real {
    Convert(delta, Millimeters, units) / 2.0
  }

  /** The points at `m`, `2 m`, ..., `n m` along `dir`. */
  function Samples(p1: Point3, dir: Point3, m: real, n: nat): (r: seq<Point3>)
    ensures |r| == n
  {
    if n == 0 then [] else Samples(p1, dir, m, n - 1) + [At(p1, dir, Multiple(n, m))]
  }

  /** The `k`-th multiple of the step `m`. */
  function Multiple(k: nat, m: real): real {
    k as real * m
  }

  /** The smallest integer not below `x`. */
  function Ceil(x: real): int {
    -((-x).Floor)
  }

  /** How many of `m`, `2 m`, ... lie strictly below `dist`: the split loop's iteration count. */
  function SampleCount(dist: real, m: real): (n: nat)
    requires dist > 0.0 && m > 0.0
  {
    CeilPositive(dist / m);
    Ceil(dist / m) - 1
  }

  lemma CeilPositive(x: real)
    requires x > 0.0
    ensures Ceil(x) >= 1 && (Ceil(x) - 1) as real < x <= Ceil(x) as real
  {
  }

  /** `k m` is below `dist` exactly for the first `SampleCount` multiples. */
  lemma SampleCountExact(dist: real, m: real, k: nat)
    requires dist > 0.0 && m > 0.0
    ensures Multiple(k, m) < dist <==> k <= SampleCount(dist, m)
  {
    var x := dist / m;
    CeilPositive(x);
    ScaleCompare(k as real, m, dist);
    BelowCeil(k, x);
  }

  /** An integer lies below `x` exactly when it is at most `Ceil(x) - 1`. */
  lemma BelowCeil(k: int, x: real)
    requires (Ceil(x) - 1) as real < x <= Ceil(x) as real
    ensures k as real < x <==> k <= Ceil(x) - 1
  {
  }

  /** Comparing a multiple of a positive `m` with `dist` is comparing the factor with `dist / m`. */
  lemma ScaleCompare(a: real, m: real, dist: real)
    requires m > 0.0
    ensures a * m < dist <==> a < dist / m
  {
    var x := dist / m;
    assert x * m == dist;
    if a < x {
      MulStrict(a, x, m);
    } else {
      MulMonotone(x, a, m);
    }
  }

  lemma MulStrict(a: real, b: real, m: real)
    requires m > 0.0 && a < b
    ensures a * m < b * m
  {
  }

  lemma MulMonotone(a: real, b: real, m: real)
    requires m > 0.0 && a <= b
    ensures a * m <= b * m
  {
  }

  /**
    * `splitToSegments` as a value: no points for a move shorter than the minimum,
    * None when the loop would never end (a non-positive step), otherwise the start,
    * the multiples of the step below the length, and the end, each offered to the
    * duplicate filter.
    */
  function Split(p1: Point3, p2: Point3, maxSeg: real, math: MathLib): (r: Option<seq<Point3>>)
    ensures r.None? <==> Length(p1, p2, math) >= MinLength && maxSeg <= 0.0
    ensures r == Some([]) <==> Length(p1, p2, math) < MinLength
  {
    var dist := Length(p1, p2, math);
    if dist < MinLength then Some([])
    else if maxSeg <= 0.0 then None
    else
      var pts := Samples(p1, Direction(p1, p2, dist), maxSeg, SampleCount(dist, maxSeg)) + [p2];
      Some(AppendAll([p1], pts))
  }

  /**
    * The split loop. A step that is not positive never reaches the end of the
    * move; that outcome is reported as None instead of looping.
    */
  method SplitToSegments(p1: Point3, p2: Point3, delta: real, units: Unit, math: MathLib)
      returns (res: Option<seq<Point3>>)
    ensures res == Split(p1, p2, MaxSegment(delta, units), math)
  {
    var dist := Length(p1, p2, math);
    if dist < MinLength {
      return Some([]);
    }
    var dir := Direction(p1, p2, dist);
    var maxSegLength := MaxSegment(delta, units);
    if maxSegLength <= 0.0 {
      return None;
    }
    var pts := SampleLoop(p1, dir, dist, maxSegLength);
    AppendAllSnoc([p1], Samples(p1, dir, maxSegLength, SampleCount(dist, maxSegLength)), p2);
    pts := AppendSkipDuplicate(pts, Point3(p2.x, p2.y, p2.z));
    res := Some(pts);
  }

  /** The loop of the split: offers the multiples of the step that lie below `dist`, after `p1`. */
  method SampleLoop(p1: Point3, dir: Point3, dist: real, maxSegLength: real) returns (pts: seq<Point3>)
    requires dist > 0.0 && maxSegLength > 0.0
    ensures pts == AppendAll([p1], Samples(p1, dir, maxSegLength, SampleCount(dist, maxSegLength)))
  {
    pts := [p1];
    var d := maxSegLength;
    ghost var k: nat := 1;
    ghost var n := SampleCount(dist, maxSegLength);
    NextMultiple(0, maxSegLength);
    SampleCountExact(dist, maxSegLength, 0);
    while d < dist
      invariant k >= 1 && d == Multiple(k, maxSegLength)
      invariant k - 1 <= n
      invariant pts == AppendAll([p1], Samples(p1, dir, maxSegLength, k - 1))
      decreases n + 1 - k
    {
      SampleCountExact(dist, maxSegLength, k);
      SplitStep(p1, dir, maxSegLength, k, d, pts);
      NextMultiple(k, maxSegLength);
      pts := AppendSkipDuplicate(pts, At(p1, dir, d));
      d := d + maxSegLength;
      k := k + 1;
    }
    SampleCountExact(dist, maxSegLength, k);
    assert k - 1 == n;
  }

  /** One turn of the split loop offers the next multiple of the step. */
  lemma SplitStep(p1: Point3, dir: Point3, m: real, k: nat, d: real, pts: seq<Point3>)
    requires k >= 1 && d == Multiple(k, m)
    requires pts == AppendAll([p1], Samples(p1, dir, m, k - 1))
    ensures AppendSkipDuplicate(pts, At(p1, dir, d)) == AppendAll([p1], Samples(p1, dir, m, k))
  {
    assert Samples(p1, dir, m, k) == Samples(p1, dir, m, k - 1) + [At(p1, dir, d)];
    AppendAllSnoc([p1], Samples(p1, dir, m, k - 1), At(p1, dir, d));
  }

  lemma NextMultiple(k: nat, m: real)
    ensures Multiple(k + 1, m) == Multiple(k, m) + m
    ensures Multiple(1, m) == m
  {
    var a := k as real;
    assert (k + 1) as real == a + 1.0;
    assert (a + 1.0) * m == a * m + m;
  }
}
