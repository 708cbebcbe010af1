/**
  * What the arc split guarantees: the heights climb evenly from the start to
  * the end height, every point lies on the arc's circle, the circle of an I/J
  * arc passes through the start and that of an R arc through both ends, and no
  * piece is longer than the arc resolution.
  */
module ArcProperties {
  import opened Common
  import opened Geometry
  import opened Units
  import opened Segments
  import opened Arcs
  import opened SegmentProperties

  /** The centre of a circle, as a point of the plane. */
  function Centre(c: Circle): Point3 {
    Point3(c.cx, c.cy, 0.0)
  }

  /** `x` lies between `a` and `b`, whichever is larger. */
  predicate Between(x: real, a: real, b: real) {
    a <= x <= b || b <= x <= a
  }

  // ---------------------------------------------------------------- the points

  /** The `k`-th element of the point list is the point `k + 1` steps along the arc. */
  lemma {:induction false} ArcPointsAt(c: Circle, sa: real, ts: real, z0: real, zs: real, n: nat, math: MathLib, k: nat)
    requires k < n
    ensures ArcPoints(c, sa, ts, z0, zs, n, math)[k] == ArcPoint(c, sa, ts, z0, zs, k + 1, math)
  {
    if k < n - 1 {
      ArcPointsAt(c, sa, ts, z0, zs, n - 1, math, k);
    }
  }

  // ---------------------------------------------------------------- heights

  /** `n` equal shares of `b` add up to `b`. */
  lemma AllShares(n: nat, b: real)
    requires n >= 1
    ensures Multiple(n, b / n as real) == b
  {
    var q := b / n as real;
    assert q * n as real == b;
  }

  /** `k` of `n` equal shares of `b` lie between 0 and `b`. */
  lemma SomeShares(k: nat, n: nat, b: real)
    requires 1 <= k <= n
    ensures Between(Multiple(k, b / n as real), 0.0, b)
  {
    var N := n as real;
    var K := k as real;
    var q := b / N;
    assert q * N == b;
    if q > 0.0 {
      MulMonotone(K, N, q);
      MulMonotone(0.0, K, q);
    } else if q < 0.0 {
      MulMonotone(K, N, -q);
      MulMonotone(0.0, K, -q);
    }
  }

  /** With `n` equal height steps `zs` of `dz / n`, every height lies between `z0` and `z0 + dz`, and the last one is `z0 + dz`. */
  lemma ArcPointsHeights(c: Circle, sa: real, ts: real, z0: real, zs: real, dz: real, n: nat, math: MathLib)
    requires n >= 1 && zs == dz / n as real
    ensures forall k :: 0 <= k < n ==> Between(ArcPoints(c, sa, ts, z0, zs, n, math)[k].z, z0, z0 + dz)
    ensures ArcPoints(c, sa, ts, z0, zs, n, math)[n - 1].z == z0 + dz
  {
    forall k | 0 <= k < n
      ensures Between(ArcPoints(c, sa, ts, z0, zs, n, math)[k].z, z0, z0 + dz)
    {
      ArcPointsAt(c, sa, ts, z0, zs, n, math, k);
      SomeShares(k + 1, n, dz);
    }
    ArcPointsAt(c, sa, ts, z0, zs, n, math, n - 1);
    AllShares(n, dz);
  }

  /**
    * The heights of the arc split stay between the start and end heights, and
    * the last point is at the end height.
    */
  lemma ArcHeights(p1: Point3, p2: Point3, args: ArcArgs, clockwise: bool, units: Unit, math: MathLib)
    ensures var r := ArcSegments(p1, p2, args, clockwise, units, math);
      (forall k :: 0 <= k < |r| ==> Between(r[k].z, p1.z, p2.z)) && r[|r| - 1].z == p2.z
  {
    var centre := ArcCentre(p1, p2, args, clockwise, math);
    if centre.Some? {
      var c := centre.value;
      var startAngle := math.atan2(p1.y - c.cy, p1.x - c.cx);
      var endAngle := math.atan2(p2.y - c.cy, p2.x - c.cx);
      var diff := Sweep(startAngle, endAngle, clockwise, math.pi);
      var n := ArcPieces(diff, c.radius, units);
      ArcPointsHeights(c, startAngle, diff / n as real, p1.z, (p2.z - p1.z) / n as real, p2.z - p1.z, n, math);
    }
  }

  // ---------------------------------------------------------------- the circle

  /** A point at angle cos/sin and distance `r` from a centre is at squared distance `r * r`. */
  lemma Polar(cx: real, cy: real, r: real, co: real, si: real, z: real)
    requires co * co + si * si == 1.0
    ensures DistanceSquared2(Point3(cx, cy, 0.0), Point3(cx + r * co, cy + r * si, z)) == r * r
  {
    var a := r * co;
    var b := r * si;
    assert (cx + a) - cx == a && (cy + b) - cy == b;
    assert a * a + b * b == r * r * (co * co + si * si);
  }

  /** Every point of the list lies on the circle `c`. */
  lemma ArcPointsOnCircle(c: Circle, sa: real, ts: real, z0: real, zs: real, n: nat, math: MathLib)
    requires TrigSound(math)
    ensures forall k :: 0 <= k < n ==> DistanceSquared2(Centre(c), ArcPoints(c, sa, ts, z0, zs, n, math)[k]) == c.radius * c.radius
  {
    forall k | 0 <= k < n
      ensures DistanceSquared2(Centre(c), ArcPoints(c, sa, ts, z0, zs, n, math)[k]) == c.radius * c.radius
    {
      ArcPointsAt(c, sa, ts, z0, zs, n, math, k);
      var angle := sa + Multiple(k + 1, ts);
      Polar(c.cx, c.cy, c.radius, math.cos(angle), math.sin(angle), z0 + Multiple(k + 1, zs));
    }
  }

  /** When the move is split as an arc, every point of the split lies on the arc's circle. */
  lemma ArcOnCircle(p1: Point3, p2: Point3, args: ArcArgs, clockwise: bool, units: Unit, math: MathLib, c: Circle)
    requires TrigSound(math)
    requires ArcCentre(p1, p2, args, clockwise, math) == Some(c)
    ensures var r := ArcSegments(p1, p2, args, clockwise, units, math);
      forall k :: 0 <= k < |r| ==> DistanceSquared2(Centre(c), r[k]) == c.radius * c.radius
  {
    var startAngle := math.atan2(p1.y - c.cy, p1.x - c.cx);
    var endAngle := math.atan2(p2.y - c.cy, p2.x - c.cx);
    var diff := Sweep(startAngle, endAngle, clockwise, math.pi);
    var n := ArcPieces(diff, c.radius, units);
    ArcPointsOnCircle(c, startAngle, diff / n as real, p1.z, (p2.z - p1.z) / n as real, n, math);
  }

  /**
    * With I or J, the centre is the start offset by (I, J), a missing word
    * counting as 0, and the circle passes through the start.
    */
  lemma OffsetCircle(p1: Point3, p2: Point3, args: ArcArgs, clockwise: bool, math: MathLib)
    requires Sound(math)
    requires args.i.Some? || args.j.Some?
    ensures var centre := ArcCentre(p1, p2, args, clockwise, math);
      centre.Some? &&
      centre.value.cx == p1.x + OrZero(args.i) && centre.value.cy == p1.y + OrZero(args.j) &&
      centre.value.radius >= 0.0 &&
      DistanceSquared2(Centre(centre.value), p1) == centre.value.radius * centre.value.radius
  {
    var i := OrZero(args.i);
    var j := OrZero(args.j);
    SquareNonNegative(i);
    SquareNonNegative(j);
    var c := ArcCentre(p1, p2, args, clockwise, math).value;
    assert p1.x - c.cx == -i && p1.y - c.cy == -j;
    assert (-i) * (-i) == i * i && (-j) * (-j) == j * j;
  }

  // ---------------------------------------------------------------- piece length

  /** `|diff * radius|` is `n` times `|q * radius|` when `diff` is `n` shares `q`. */
  lemma ShareLength(q: real, n: real, radius: real, diff: real)
    requires n > 0.0 && q * n == diff
    ensures ArcLength(diff, radius) == ArcLength(q, radius) * n
  {
    var t := q * radius;
    assert diff * radius == t * n;
    if t < 0.0 {
      assert -(t * n) == (-t) * n;
    }
  }

  /** Every angle step of the split covers at most the arc resolution along the circle. */
  lemma StepWithinResolution(diff: real, radius: real, units: Unit)
    ensures ArcLength(diff / ArcPieces(diff, radius, units) as real, radius) <= ArcMaxSegment(units)
  {
    var m := ArcMaxSegment(units);
    var N := ArcPieces(diff, radius, units) as real;
    var q := diff / N;
    assert q * N == diff;
    ShareLength(q, N, radius, diff);
    var len := ArcLength(q, radius);
    assert ArcLength(diff, radius) <= N * m;
    if len > m {
      Exceeds(len, m, N, ArcLength(diff, radius));
      assert false;
    }
  }

  lemma Exceeds(len: real, m: real, n: real, total: real)
    requires n > 0.0 && len > m && total == len * n
    ensures total > n * m
  {
    MulStrict(m, len, n);
  }

  // ---------------------------------------------------------------- the R form

  lemma CancelFactor(x: real, y: real, d: real)
    requires d > 0.0 && x * d == y * d
    ensures x == y
  {
  }

  /** Moving off the chord's midpoint along the unit normal. */
  lemma ChordOffset(a: real, b: real, s: real, u: real, v: real)
    requires u * u + v * v == 1.0 && a * u == b * v
    ensures (a + s * u) * (a + s * u) + (b - s * v) * (b - s * v) == a * a + b * b + s * s
  {
    assert (a + s * u) * (a + s * u) == a * a + 2.0 * s * (a * u) + s * s * (u * u);
    assert (b - s * v) * (b - s * v) == b * b - 2.0 * s * (b * v) + s * s * (v * v);
    assert s * s * (u * u) + s * s * (v * v) == s * s * (u * u + v * v);
  }

  /** The normal `(dy / d, dx / d)` of a chord of length `d` has unit length and is perpendicular to it. */
  lemma UnitNormal(dx: real, dy: real, d: real, u: real, v: real)
    requires d > 0.0 && d * d == dx * dx + dy * dy
    requires u * d == dy && v * d == dx
    ensures u * u + v * v == 1.0
    ensures (dx / 2.0) * u == (dy / 2.0) * v
  {
    SquareScaled(u, d, dy);
    SquareScaled(v, d, dx);
    UnitParts(u, v, 0.0, d, dy, dx, 0.0);
    var a := dx / 2.0;
    var b := dy / 2.0;
    assert (a * u) * d == (b * v) * d;
    CancelFactor(a * u, b * v, d);
  }

  lemma HalfChord(p1: Point3, p2: Point3, a: real, b: real)
    requires a == (p2.x - p1.x) / 2.0 && b == (p2.y - p1.y) / 2.0
    ensures a * a + b * b == DistanceSquared2(p1, p2) / 4.0
  {
  }

  lemma NegSquare(t: real)
    ensures (-t) * (-t) == t * t
  {
  }

  /** Both ends of a chord of length `d` lie at squared distance `s * s + d * d / 4` from a point `s` along the chord's normal `(u, -v)` from its midpoint. */
  lemma ChordCircle(p1: Point3, p2: Point3, d: real, u: real, v: real, s: real, rr: real, cx: real, cy: real)
    requires d > 0.0 && d * d == DistanceSquared2(p1, p2)
    requires u * d == p2.y - p1.y && v * d == p2.x - p1.x
    requires s * s == rr - DistanceSquared2(p1, p2) / 4.0
    requires cx == (p1.x + p2.x) / 2.0 + s * u
    requires cy == (p1.y + p2.y) / 2.0 - s * v
    ensures DistanceSquared2(Point3(cx, cy, 0.0), p1) == rr
    ensures DistanceSquared2(Point3(cx, cy, 0.0), p2) == rr
  {
    ChordStart(p1, p2, d, u, v, s, rr, cx, cy);
    ChordEnd(p1, p2, d, u, v, s, rr, cx, cy);
  }

  lemma ChordStart(p1: Point3, p2: Point3, d: real, u: real, v: real, s: real, rr: real, cx: real, cy: real)
    requires d > 0.0 && d * d == DistanceSquared2(p1, p2)
    requires u * d == p2.y - p1.y && v * d == p2.x - p1.x
    requires s * s == rr - DistanceSquared2(p1, p2) / 4.0
    requires cx == (p1.x + p2.x) / 2.0 + s * u
    requires cy == (p1.y + p2.y) / 2.0 - s * v
    ensures DistanceSquared2(Point3(cx, cy, 0.0), p1) == rr
  {
    var a := (p2.x - p1.x) / 2.0;
    var b := (p2.y - p1.y) / 2.0;
    UnitNormal(p2.x - p1.x, p2.y - p1.y, d, u, v);
    HalfChord(p1, p2, a, b);
    EndDistance(p1, cx, cy, -a, -b, -s, u, v);
    NegSquare(a);
    NegSquare(b);
    NegSquare(s);
  }

  lemma ChordEnd(p1: Point3, p2: Point3, d: real, u: real, v: real, s: real, rr: real, cx: real, cy: real)
    requires d > 0.0 && d * d == DistanceSquared2(p1, p2)
    requires u * d == p2.y - p1.y && v * d == p2.x - p1.x
    requires s * s == rr - DistanceSquared2(p1, p2) / 4.0
    requires cx == (p1.x + p2.x) / 2.0 + s * u
    requires cy == (p1.y + p2.y) / 2.0 - s * v
    ensures DistanceSquared2(Point3(cx, cy, 0.0), p2) == rr
  {
    var a := (p2.x - p1.x) / 2.0;
    var b := (p2.y - p1.y) / 2.0;
    UnitNormal(p2.x - p1.x, p2.y - p1.y, d, u, v);
    HalfChord(p1, p2, a, b);
    EndDistance(p2, cx, cy, a, b, -s, u, v);
    NegSquare(s);
  }

  lemma EndDistance(p: Point3, cx: real, cy: real, a: real, b: real, t: real, u: real, v: real)
    requires u * u + v * v == 1.0 && a * u == b * v
    requires p.x - cx == a + t * u && p.y - cy == b - t * v
    ensures DistanceSquared2(Point3(cx, cy, 0.0), p) == a * a + b * b + t * t
  {
    ChordOffset(a, b, t, u, v);
  }

  lemma AbsSquare(r: real)
    ensures Abs(r) * Abs(r) == r * r
  {
    if r < 0.0 {
      NegSquare(r);
    }
  }

  lemma SquareMonotone(a: real, b: real)
    requires 0.0 <= a <= b
    ensures a * a <= b * b
  {
    if a > 0.0 {
      MulMonotone(a, b, a);
      MulMonotone(a, b, b);
    }
  }

  /** A radius that reaches half way across the chord leaves a non-negative squared offset. */
  lemma ReachesAcross(r: real, d: real, d2: real)
    requires 0.0 <= d && d * d == d2 && d / 2.0 <= Abs(r)
    ensures d2 / 4.0 <= r * r
  {
    var hd := d / 2.0;
    SquareMonotone(hd, Abs(r));
    AbsSquare(r);
    assert hd * hd == d2 / 4.0;
  }

  /** With R, the centre is `s` along the chord's unit normal from its midpoint, with `s` the offset `h` signed by the side. */
  lemma RadiusCentreOffset(p1: Point3, p2: Point3, r: real, clockwise: bool, math: MathLib, d: real, h: real, s: real)
    requires RadiusCentre(p1, p2, r, clockwise, math).Some?
    requires d == math.sqrt(DistanceSquared2(p1, p2))
    requires h == math.sqrt(Max(0.0, r * r - DistanceSquared2(p1, p2) / 4.0))
    requires s == if clockwise == (r < 0.0) then h else -h
    ensures var c := RadiusCentre(p1, p2, r, clockwise, math).value;
      d >= MinChord && Abs(r) >= d / 2.0 && c.radius == Abs(r) &&
      c.cx == (p1.x + p2.x) / 2.0 + s * ((p2.y - p1.y) / d) &&
      c.cy == (p1.y + p2.y) / 2.0 - s * ((p2.x - p1.x) / d)
  {
  }

  /** With R, the centre lies at distance |R| from both ends of the move. */
  lemma RadiusCircle(p1: Point3, p2: Point3, r: real, clockwise: bool, math: MathLib)
    requires Sound(math)
    requires RadiusCentre(p1, p2, r, clockwise, math).Some?
    ensures var c := RadiusCentre(p1, p2, r, clockwise, math).value;
      c.radius == Abs(r) &&
      DistanceSquared2(Centre(c), p1) == c.radius * c.radius &&
      DistanceSquared2(Centre(c), p2) == c.radius * c.radius
  {
    var c := RadiusCentre(p1, p2, r, clockwise, math).value;
    var d := math.sqrt(DistanceSquared2(p1, p2));
    var h := math.sqrt(Max(0.0, r * r - DistanceSquared2(p1, p2) / 4.0));
    var s := if clockwise == (r < 0.0) then h else -h;
    RadiusCentreOffset(p1, p2, r, clockwise, math, d, h, s);
    RadiusOffset(p1, p2, r, math, d, h, s);
    AbsSquare(r);
    ChordNormalCircle(p1, p2, d, s, c.radius * c.radius, c.cx, c.cy);
  }

  /** The square root facts behind the R-form centre: `d` is the chord's length and `s * s` makes up the rest of `r * r`. */
  lemma RadiusOffset(p1: Point3, p2: Point3, r: real, math: MathLib, d: real, h: real, s: real)
    requires Sound(math)
    requires d == math.sqrt(DistanceSquared2(p1, p2)) && d >= MinChord && Abs(r) >= d / 2.0
    requires h == math.sqrt(Max(0.0, r * r - DistanceSquared2(p1, p2) / 4.0))
    requires s == h || s == -h
    ensures d > 0.0 && d * d == DistanceSquared2(p1, p2)
    ensures s * s == r * r - DistanceSquared2(p1, p2) / 4.0
  {
    var d2 := DistanceSquared2(p1, p2);
    assert d * d == d2;
    ReachesAcross(r, d, d2);
    assert h * h == r * r - d2 / 4.0;
    NegSquare(h);
  }

  /** `ChordCircle` with the normal written as the chord divided by its length. */
  lemma ChordNormalCircle(p1: Point3, p2: Point3, d: real, s: real, rr: real, cx: real, cy: real)
    requires d > 0.0 && d * d == DistanceSquared2(p1, p2)
    requires s * s == rr - DistanceSquared2(p1, p2) / 4.0
    requires cx == (p1.x + p2.x) / 2.0 + s * ((p2.y - p1.y) / d)
    requires cy == (p1.y + p2.y) / 2.0 - s * ((p2.x - p1.x) / d)
    ensures DistanceSquared2(Point3(cx, cy, 0.0), p1) == rr
    ensures DistanceSquared2(Point3(cx, cy, 0.0), p2) == rr
  {
    var u := (p2.y - p1.y) / d;
    var v := (p2.x - p1.x) / d;
    CancelDivide(p2.y - p1.y, d);
    CancelDivide(p2.x - p1.x, d);
    ChordCircle(p1, p2, d, u, v, s, rr, cx, cy);
  }

  /** With R and the centre found, the circle passes through both ends of the move with radius |R|. */
  lemma ArcRadiusCircle(p1: Point3, p2: Point3, args: ArcArgs, clockwise: bool, math: MathLib)
    requires Sound(math) && args.i.None? && args.j.None?
    requires ArcCentre(p1, p2, args, clockwise, math).Some?
    ensures var c := ArcCentre(p1, p2, args, clockwise, math).value;
      c.radius == Abs(args.r.value) &&
      DistanceSquared2(Centre(c), p1) == c.radius * c.radius &&
      DistanceSquared2(Centre(c), p2) == c.radius * c.radius
  {
    RadiusCircle(p1, p2, args.r.value, clockwise, math);
  }
}
