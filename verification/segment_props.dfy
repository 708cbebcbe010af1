/**
  * What the split of a straight move guarantees: it starts at the start point,
  * never repeats a point, ends at (or within the duplicate tolerance of) the end
  * point, every point lies on the move, and, when the step is longer than the
  * duplicate tolerance, no two consecutive points are farther apart than the step.
  */
module SegmentProperties {
  import opened Common
  import opened Geometry
  import opened Segments

  /** Squared length of a vector. */
  function Norm2(p: Point3): real {
    p.x * p.x + p.y * p.y + p.z * p.z
  }

  // ------------------------------------------------------- shape of the result

  /** The points the duplicate filter keeps are among the points offered. */
  lemma {:induction false} AppendAllKeeps(res: seq<Point3>, pts: seq<Point3>, q: Point3)
    requires q in AppendAll(res, pts)
    ensures q in res || q in pts
    decreases |pts|
  {
    if pts != [] {
      var front := pts[..|pts| - 1];
      var last := pts[|pts| - 1];
      var before := AppendAll(res, front);
      assert AppendAll(res, pts) == AppendSkipDuplicate(before, last);
      if q in before {
        AppendAllKeeps(res, front, q);
        assert q in front ==> q in pts;
      } else {
        assert q == last by {
          SkipDuplicateKeeps(before, last, q);
        }
      }
    }
  }

  lemma SkipDuplicateKeeps(res: seq<Point3>, pt: Point3, q: Point3)
    requires q in AppendSkipDuplicate(res, pt)
    ensures q in res || q == pt
  {
  }

  /**
    * The split of a move at least the minimum long, with a positive step: it
    * starts at `p1`, repeats no point, ends at `p2` or within the duplicate
    * tolerance of it, and holds at most the multiples of the step below the
    * length plus the two ends.
    */
  lemma SplitShape(p1: Point3, p2: Point3, maxSeg: real, math: MathLib)
    requires Length(p1, p2, math) >= MinLength && maxSeg > 0.0
    ensures var r := Split(p1, p2, maxSeg, math);
      r.Some? && |r.value| > 0 && r.value[0] == p1 && Spread(r.value) &&
      (r.value[|r.value| - 1] == p2 || DistanceSquared3(p2, r.value[|r.value| - 1]) <= DuplicateTolerance) &&
      |r.value| <= SampleCount(Length(p1, p2, math), maxSeg) + 2
  {
    var dist := Length(p1, p2, math);
    var samples := Samples(p1, Direction(p1, p2, dist), maxSeg, SampleCount(dist, maxSeg));
    AppendAllSnoc([p1], samples, p2);
  }

  // ---------------------------------------------------------- points on the move

  /** `q` is the point `t` along the move for some `t` between 0 and the length. */
  ghost predicate OnMove(q: Point3, p1: Point3, dir: Point3, dist: real) {
    exists t :: 0.0 <= t <= dist && q == At(p1, dir, t)
  }

  lemma AtZero(p1: Point3, dir: Point3)
    ensures At(p1, dir, 0.0) == p1
  {
  }

  /** With the true square root, walking the full length along the direction reaches `p2`. */
  lemma AtLength(p1: Point3, p2: Point3, math: MathLib)
    requires Sound(math) && Length(p1, p2, math) >= MinLength
    ensures At(p1, Direction(p1, p2, Length(p1, p2, math)), Length(p1, p2, math)) == p2
  {
    var dist := Length(p1, p2, math);
    var v := Sub3(p2, p1);
    CancelDivide(v.x, dist);
    CancelDivide(v.y, dist);
    CancelDivide(v.z, dist);
  }

  lemma CancelDivide(a: real, d: real)
    requires d != 0.0
    ensures (a / d) * d == a
  {
  }

  /** The `j`-th sample is the `(j + 1)`-th multiple of the step along the move. */
  lemma {:induction false} SampleAt(p1: Point3, dir: Point3, m: real, n: nat, j: nat)
    requires j < n
    ensures Samples(p1, dir, m, n)[j] == At(p1, dir, Multiple(j + 1, m))
    decreases n
  {
    if j < n - 1 {
      SampleAt(p1, dir, m, n - 1, j);
      assert Samples(p1, dir, m, n)[j] == Samples(p1, dir, m, n - 1)[j];
    }
  }

  lemma MultipleNonNegative(k: nat, m: real)
    requires m > 0.0
    ensures Multiple(k, m) >= 0.0
  {
  }

  /** With the true square root every point of the split lies on the move. */
  lemma SplitOnMove(p1: Point3, p2: Point3, maxSeg: real, math: MathLib, i: nat)
    requires Sound(math) && Length(p1, p2, math) >= MinLength && maxSeg > 0.0
    requires i < |Split(p1, p2, maxSeg, math).value|
    ensures var dist := Length(p1, p2, math);
      OnMove(Split(p1, p2, maxSeg, math).value[i], p1, Direction(p1, p2, dist), dist)
  {
    var dist := Length(p1, p2, math);
    var dir := Direction(p1, p2, dist);
    var n := SampleCount(dist, maxSeg);
    var samples := Samples(p1, dir, maxSeg, n);
    var q := Split(p1, p2, maxSeg, math).value[i];
    AppendAllKeeps([p1], samples + [p2], q);
    if q == p1 {
      AtZero(p1, dir);
      assert OnMove(q, p1, dir, dist) by {
        assert q == At(p1, dir, 0.0);
      }
    } else if q == p2 {
      AtLength(p1, p2, math);
      assert OnMove(q, p1, dir, dist) by {
        assert q == At(p1, dir, dist);
      }
    } else {
      assert q in samples;
      SampleOnMove(p1, dir, dist, maxSeg, q);
    }
  }

  /** Every sample lies on the move. */
  lemma SampleOnMove(p1: Point3, dir: Point3, dist: real, m: real, q: Point3)
    requires dist > 0.0 && m > 0.0 && q in Samples(p1, dir, m, SampleCount(dist, m))
    ensures OnMove(q, p1, dir, dist)
  {
    var n := SampleCount(dist, m);
    var samples := Samples(p1, dir, m, n);
    var j :| 0 <= j < n && samples[j] == q;
    SampleAt(p1, dir, m, n, j);
    SampleCountExact(dist, m, j + 1);
    MultipleNonNegative(j + 1, m);
    assert q == At(p1, dir, Multiple(j + 1, m));
  }

  // ------------------------------------------------------------------ spacing

  /** With the true square root the direction has length 1. */
  lemma UnitDirection(p1: Point3, p2: Point3, math: MathLib)
    requires Sound(math) && Length(p1, p2, math) >= MinLength
    ensures Norm2(Direction(p1, p2, Length(p1, p2, math))) == 1.0
  {
    var d2 := DistanceSquared3(p1, p2);
    var dist := math.sqrt(d2);
    assert dist * dist == d2;
    var v := Sub3(p2, p1);
    assert d2 == Norm2(v);
    NormalisedLength(v, dist);
  }

  /** Dividing a vector by its length gives a vector of length 1. */
  lemma NormalisedLength(v: Point3, d: real)
    requires d > 0.0 && d * d == Norm2(v)
    ensures Norm2(Point3(v.x / d, v.y / d, v.z / d)) == 1.0
  {
    CancelDivide(v.x, d);
    CancelDivide(v.y, d);
    CancelDivide(v.z, d);
    SquareScaled(v.x / d, d, v.x);
    SquareScaled(v.y / d, d, v.y);
    SquareScaled(v.z / d, d, v.z);
    UnitParts(v.x / d, v.y / d, v.z / d, d, v.x, v.y, v.z);
  }

  lemma SquareScaled(t: real, d: real, a: real)
    requires t * d == a
    ensures (t * t) * (d * d) == a * a
  {
    assert (t * d) * (t * d) == a * a;
  }

  /** If each square scaled by `d * d` is the matching part of `d * d`, the squares add up to 1. */
  lemma UnitParts(x: real, y: real, z: real, d: real, a: real, b: real, c: real)
    requires d > 0.0 && d * d == a * a + b * b + c * c
    requires (x * x) * (d * d) == a * a && (y * y) * (d * d) == b * b && (z * z) * (d * d) == c * c
    ensures x * x + y * y + z * z == 1.0
  {
    SquarePositive(d * d, d, d);
    CancelSum(x * x, y * y, z * z, d * d, a * a, b * b, c * c);
  }

  /** The square of a positive number, written with two names for it, is positive. */
  lemma SquarePositive(s: real, d: real, e: real)
    requires d > 0.0 && e == d && s == d * e
    ensures s > 0.0
  {
    MulPositive(d, e);
  }

  lemma CancelSum(x: real, y: real, z: real, s: real, a: real, b: real, c: real)
    requires s > 0.0 && s == a + b + c && x * s == a && y * s == b && z * s == c
    ensures x + y + z == 1.0
  {
    assert (x + y + z) * s == x * s + y * s + z * s;
    assert (x + y + z - 1.0) * s == 0.0;
  }

  /** Two points along the same direction are as far apart as their parameters, scaled by the direction's length. */
  lemma DistanceAlong(p1: Point3, dir: Point3, a: real, b: real)
    ensures DistanceSquared3(At(p1, dir, a), At(p1, dir, b)) == (b - a) * (b - a) * Norm2(dir)
  {
    ScaledSquare(dir.x, a, b);
    ScaledSquare(dir.y, a, b);
    ScaledSquare(dir.z, a, b);
  }

  /** Along a unit direction, two points `g` apart in parameter are `g` apart in space. */
  lemma UnitDistanceAlong(p1: Point3, dir: Point3, a: real, b: real, g: real)
    requires Norm2(dir) == 1.0 && a == b + g
    ensures DistanceSquared3(At(p1, dir, a), At(p1, dir, b)) == g * g
  {
    DistanceAlong(p1, dir, a, b);
    UnitGap(a, b, g, Norm2(dir));
  }

  lemma UnitGap(a: real, b: real, g: real, n: real)
    requires a == b + g && n == 1.0
    ensures (b - a) * (b - a) * n == g * g
  {
    assert b - a == -g;
  }

  lemma ScaledSquare(c: real, a: real, b: real)
    ensures (c * b - c * a) * (c * b - c * a) == (b - a) * (b - a) * (c * c)
  {
    assert c * b - c * a == c * (b - a);
  }

  /** Points that are already spread out pass the duplicate filter unchanged. */
  lemma {:induction false} SpreadAllKept(res: seq<Point3>, pts: seq<Point3>)
    requires |res| > 0 && Spread(res + pts)
    ensures AppendAll(res, pts) == res + pts
    decreases |pts|
  {
    if pts != [] {
      var front := pts[..|pts| - 1];
      var last := pts[|pts| - 1];
      SpreadSplit(res, pts);
      SpreadAllKept(res, front);
      KeptStep(res + front, (res + front)[|res + front| - 1], last);
    }
  }

  /** Splitting the last point off a spread sequence. */
  lemma SpreadSplit(res: seq<Point3>, pts: seq<Point3>)
    requires |res| > 0 && pts != [] && Spread(res + pts)
    ensures var front := pts[..|pts| - 1];
      Spread(res + front) && (res + front) + [pts[|pts| - 1]] == res + pts &&
      DistanceSquared3(pts[|pts| - 1], (res + front)[|res + front| - 1]) > DuplicateTolerance
  {
    var front := pts[..|pts| - 1];
    var all := res + pts;
    assert res + front == all[..|all| - 1];
    SpreadPrefix(all, |all| - 1);
    assert DistanceSquared3(all[|all| - 1], all[|all| - 2]) > DuplicateTolerance;
  }

  lemma SpreadPrefix(s: seq<Point3>, k: nat)
    requires k <= |s| && Spread(s)
    ensures Spread(s[..k])
  {
    forall i | 0 <= i < k - 1
      ensures DistanceSquared3(s[..k][i + 1], s[..k][i]) > DuplicateTolerance
    {
      assert s[..k][i + 1] == s[i + 1] && s[..k][i] == s[i];
    }
  }

  /** A point farther than the tolerance from the last point is appended. */
  lemma KeptStep(kept: seq<Point3>, prev: Point3, next: Point3)
    requires |kept| > 0 && kept[|kept| - 1] == prev
    requires DistanceSquared3(next, prev) > DuplicateTolerance
    ensures AppendSkipDuplicate(kept, next) == kept + [next]
  {
  }

  /** The start and the first `n` samples: the `i`-th is the `i`-th multiple of the step along the move. */
  lemma TickAt(p1: Point3, dir: Point3, m: real, n: nat, i: nat)
    requires i <= n
    ensures ([p1] + Samples(p1, dir, m, n))[i] == At(p1, dir, Multiple(i, m))
  {
    if i == 0 {
      AtZero(p1, dir);
    } else {
      SampleAt(p1, dir, m, n, i - 1);
    }
  }

  /** The point at the `i`-th multiple of the step and the next one are one step apart. */
  lemma TickSpacing(p1: Point3, dir: Point3, m: real, n: nat, i: nat)
    requires Norm2(dir) == 1.0 && i < n
    ensures var ticks := [p1] + Samples(p1, dir, m, n);
      DistanceSquared3(ticks[i + 1], ticks[i]) == m * m
  {
    TickAt(p1, dir, m, n, i);
    TickAt(p1, dir, m, n, i + 1);
    NextMultiple(i, m);
    UnitDistanceAlong(p1, dir, Multiple(i + 1, m), Multiple(i, m), m);
  }

  /**
    * When the step is longer than the duplicate tolerance no sample is dropped:
    * the filter returns the start followed by all `n` samples.
    */
  lemma SamplesAllKept(p1: Point3, dir: Point3, m: real, n: nat)
    requires Norm2(dir) == 1.0 && m * m > DuplicateTolerance
    ensures AppendAll([p1], Samples(p1, dir, m, n)) == [p1] + Samples(p1, dir, m, n)
  {
    var ticks := [p1] + Samples(p1, dir, m, n);
    forall i | 0 <= i < |ticks| - 1
      ensures DistanceSquared3(ticks[i + 1], ticks[i]) > DuplicateTolerance
    {
      TickSpacing(p1, dir, m, n, i);
    }
    SpreadAllKept([p1], Samples(p1, dir, m, n));
  }

  /** The end of the move is at most one step beyond the last sample. */
  lemma LastGap(p1: Point3, p2: Point3, m: real, math: MathLib)
    requires Sound(math) && Length(p1, p2, math) >= MinLength && m > 0.0
    ensures var dist := Length(p1, p2, math);
      var n := SampleCount(dist, m);
      var ticks := [p1] + Samples(p1, Direction(p1, p2, dist), m, n);
      DistanceSquared3(p2, ticks[|ticks| - 1]) <= m * m
  {
    var dist := Length(p1, p2, math);
    var dir := Direction(p1, p2, dist);
    var n := SampleCount(dist, m);
    TickAt(p1, dir, m, n, n);
    LastSampleGap(dist, m);
    AtLength(p1, p2, math);
    UnitDirection(p1, p2, math);
    UnitDistanceAlong(p1, dir, dist, Multiple(n, m), dist - Multiple(n, m));
    SquareBelow(dist - Multiple(n, m), m);
  }

  /** The last multiple of the step below the length is less than one step short of it. */
  lemma LastSampleGap(dist: real, m: real)
    requires dist > 0.0 && m > 0.0
    ensures 0.0 < dist - Multiple(SampleCount(dist, m), m) <= m
  {
    var n := SampleCount(dist, m);
    SampleCountExact(dist, m, n);
    SampleCountExact(dist, m, n + 1);
    NextMultiple(n, m);
  }

  lemma SquareBelow(g: real, m: real)
    requires 0.0 < g <= m
    ensures g * g <= m * m
  {
    assert g * g <= g * m <= m * m;
  }

  /**
    * With the true square root and a step longer than the duplicate tolerance,
    * consecutive points of the split are never farther apart than the step.
    */
  lemma SplitSpacing(p1: Point3, p2: Point3, maxSeg: real, math: MathLib)
    requires Sound(math) && Length(p1, p2, math) >= MinLength
    requires maxSeg > 0.0 && maxSeg * maxSeg > DuplicateTolerance
    ensures var r := Split(p1, p2, maxSeg, math).value;
      forall i :: 0 <= i < |r| - 1 ==> DistanceSquared3(r[i + 1], r[i]) <= maxSeg * maxSeg
  {
    var dist := Length(p1, p2, math);
    var dir := Direction(p1, p2, dist);
    var n := SampleCount(dist, maxSeg);
    var samples := Samples(p1, dir, maxSeg, n);
    var ticks := [p1] + samples;
    var r := Split(p1, p2, maxSeg, math).value;
    UnitDirection(p1, p2, math);
    SamplesAllKept(p1, dir, maxSeg, n);
    AppendAllSnoc([p1], samples, p2);
    assert r == AppendSkipDuplicate(ticks, p2);
    forall i | 0 <= i < |r| - 1
      ensures DistanceSquared3(r[i + 1], r[i]) <= maxSeg * maxSeg
    {
      if i + 1 < |ticks| {
        assert r[i + 1] == ticks[i + 1] && r[i] == ticks[i];
        TickSpacing(p1, dir, maxSeg, n, i);
      } else {
        assert r == ticks + [p2];
        assert r[i + 1] == p2 && r[i] == ticks[|ticks| - 1];
        LastGap(p1, p2, maxSeg, math);
      }
    }
  }
}
