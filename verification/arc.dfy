/**
  * Splitting a circular arc (G2 clockwise, G3 counter-clockwise) into short
  * straight moves (`interpolateArc`): the centre comes from the I/J offsets or
  * from the radius R, the swept angle is normalised to the direction of the
  * arc, and the arc is cut into equal angle steps of at most 0.5 mm of arc
  * length, the height moving in equal steps from the start to the end.
  */
module Arcs {
  import opened Common
  import opened Geometry
  import opened Units
  import opened Segments

  /** The arc words of a G2/G3 line; a word that is absent is None. */
  datatype ArcArgs = ArcArgs(i: Option<real>, j: Option<real>, r: Option<real>)

  /** The centre and radius of an arc. */
  datatype Circle = Circle(cx: real, cy: real, radius: real)

  /** The arc resolution, in millimetres. */
  const ArcResolution: real := 0.5

  /** A chord shorter than this cannot fix a centre from R. */
  const MinChord: real := 0.000000001

  /** `args.I || 0`: a missing offset counts as 0. */
  function OrZero(v: Option<real>): real {
    if v.Some? then v.value else 0.0
  }

  function Max(a: real, b: real): real {
    if a >= b then a else b
  }

  /** The arc resolution in the units of the program, with the fallback for a non-positive value. */
  function ArcMaxSegment(units: Unit): (m: real)
    ensures m > 0.0
  {
    var m := Convert(ArcResolution, Millimeters, units);
    if m <= 0.0 then ArcResolution else m
  }

  /**
    * The centre and radius of the arc, or None when the move is to be kept as a
    * straight line: no I, J or R word, or an R that cannot reach across the chord.
    */
  function ArcCentre(p1: Point3, p2: Point3, args: ArcArgs, clockwise: bool, math: MathLib): (c: Option<Circle>)
    ensures c.None? <==>
      args.i.None? && args.j.None? &&
      (args.r.None? || math.sqrt(DistanceSquared2(p1, p2)) < MinChord ||
       Abs(args.r.value) < math.sqrt(DistanceSquared2(p1, p2)) / 2.0)
  {
    if args.i.Some? || args.j.Some? then
      var i := OrZero(args.i);
      var j := OrZero(args.j);
      Some(Circle(p1.x + i, p1.y + j, math.sqrt(i * i + j * j)))
    else if args.r.Some? then RadiusCentre(p1, p2, args.r.value, clockwise, math)
    else None
  }

  /**
    * The centre of an arc of radius `|r|` through `p1` and `p2`, on the side that
    * the direction and the sign of `r` select, or None when the chord is too short
    * or the radius too small to reach across it.
    */
  function RadiusCentre(p1: Point3, p2: Point3, r: real, clockwise: bool, math: MathLib): Option<Circle> {
    var d2 := DistanceSquared2(p1, p2);
    var d := math.sqrt(d2);
    if d < MinChord || Abs(r) < d / 2.0 then None
    else
      var h := math.sqrt(Max(0.0, r * r - d2 / 4.0));
      var centre := SideCentre((p1.x + p2.x) / 2.0, (p1.y + p2.y) / 2.0, p2.x - p1.x, p2.y - p1.y, d, h, clockwise == (r < 0.0));
      Some(Circle(centre.0, centre.1, Abs(r)))
  }

  /**
    * The point `h` away from the chord's midpoint `(x2, y2)` along the normal
    * `(dy, -dx) / d` of the chord `(dx, dy)` when `right`, against it otherwise.
    */
  function SideCentre(x2: real, y2: real, dx: real, dy: real, d: real, h: real, right: bool): (c: (real, real))
    requires d != 0.0
    ensures var s := if right then h else -h;
      c.0 == x2 + s * (dy / d) && c.1 == y2 - s * (dx / d)
  {
    if right then (x2 + h * dy / d, y2 - h * dx / d)
    else (x2 - h * dy / d, y2 + h * dx / d)
  }

  /**
    * The swept angle from `startAngle` to `endAngle`: negative for a clockwise
    * arc, positive otherwise, adding or removing one full turn where needed.
    */
  function Sweep(startAngle: real, endAngle: real, clockwise: bool, pi: real): (diff: real)
    ensures diff == endAngle - startAngle || diff == endAngle - startAngle - 2.0 * pi || diff == endAngle - startAngle + 2.0 * pi
    ensures -pi < startAngle <= pi && -pi < endAngle <= pi ==>
      if clockwise then -2.0 * pi <= diff < 0.0 else 0.0 < diff <= 2.0 * pi
  {
    var diff := endAngle - startAngle;
    if clockwise then (if diff >= 0.0 then diff - 2.0 * pi else diff)
    else (if diff <= 0.0 then diff + 2.0 * pi else diff)
  }

  /**
    * `Math.ceil(arcLen / maxSeg)`, at least 1: the fewest pieces of length at
    * most `maxSeg` that cover `arcLen`.
    */
  function ArcSegmentCount(arcLen: real, maxSeg: real): (n: nat)
    requires maxSeg > 0.0
    ensures n >= 1
    ensures arcLen <= n as real * maxSeg
    ensures n == 1 || (n - 1) as real * maxSeg < arcLen
  {
    var s := Ceil(arcLen / maxSeg);
    var n := if s < 1 then 1 else s;
    PiecesCover(arcLen, maxSeg, n);
    n
  }

  lemma PiecesCover(arcLen: real, m: real, n: int)
    requires m > 0.0
    requires n == if Ceil(arcLen / m) < 1 then 1 else Ceil(arcLen / m)
    ensures arcLen <= n as real * m
    ensures n == 1 || (n - 1) as real * m < arcLen
  {
    ScaleCompare(n as real, m, arcLen);
    if n > 1 {
      ScaleCompare((n - 1) as real, m, arcLen);
    }
  }

  /** The `k`-th point of the arc: `k` angle steps and `k` height steps from the start. */
  function ArcPoint(c: Circle, startAngle: real, thetaStep: real, z0: real, zStep: real, k: nat, math: MathLib): Point3 {
    var angle := startAngle + Multiple(k, thetaStep);
    Point3(c.cx + c.radius * math.cos(angle), c.cy + c.radius * math.sin(angle), z0 + Multiple(k, zStep))
  }

  /** The points 1 to `n` of the arc. */
  function ArcPoints(c: Circle, startAngle: real, thetaStep: real, z0: real, zStep: real, n: nat, math: MathLib): (r: seq<Point3>)
    ensures |r| == n
  {
    if n == 0 then []
    else ArcPoints(c, startAngle, thetaStep, z0, zStep, n - 1, math) + [ArcPoint(c, startAngle, thetaStep, z0, zStep, n, math)]
  }

  /** The length of an arc sweeping `diff` on a circle of radius `radius`. */
  function ArcLength(diff: real, radius: real): (len: real)
    ensures len >= 0.0
  {
    Abs(diff * radius)
  }

  /** The number of pieces of an arc sweeping `diff` on a circle of radius `radius`. */
  function ArcPieces(diff: real, radius: real, units: Unit): (n: nat)
    ensures n >= 1
  {
    ArcSegmentCount(ArcLength(diff, radius), ArcMaxSegment(units))
  }

  /** The points that replace an arc around `c` from `p1` to `p2`. */
  function ArcAround(p1: Point3, p2: Point3, c: Circle, clockwise: bool, units: Unit, math: MathLib): (r: seq<Point3>)
    ensures |r| >= 1
  {
    var startAngle := math.atan2(p1.y - c.cy, p1.x - c.cx);
    var endAngle := math.atan2(p2.y - c.cy, p2.x - c.cx);
    var diff := Sweep(startAngle, endAngle, clockwise, math.pi);
    var n := ArcPieces(diff, c.radius, units);
    ArcPoints(c, startAngle, diff / n as real, p1.z, (p2.z - p1.z) / n as real, n, math)
  }

  /** `interpolateArc` as a value: the points that replace the arc move. */
  function ArcSegments(p1: Point3, p2: Point3, args: ArcArgs, clockwise: bool, units: Unit, math: MathLib): (r: seq<Point3>)
    ensures |r| >= 1
  {
    var centre := ArcCentre(p1, p2, args, clockwise, math);
    if centre.None? then [p2] else ArcAround(p1, p2, centre.value, clockwise, units, math)
  }

  /** The arc split, step by step. */
  method InterpolateArc(p1: Point3, p2: Point3, args: ArcArgs, clockwise: bool, units: Unit, math: MathLib)
      returns (points: seq<Point3>)
    ensures points == ArcSegments(p1, p2, args, clockwise, units, math)
  {
    var maxSegLength := Convert(ArcResolution, Millimeters, units);
    if maxSegLength <= 0.0 {
      maxSegLength := ArcResolution;
    }
    var centre := ArcCentre(p1, p2, args, clockwise, math);
    if centre.None? {
      return [p2];
    }
    points := SplitArc(p1, p2, centre.value, clockwise, maxSegLength, units, math);
  }

  /** The angles, the number of pieces and the steps of an arc around `c`, then its points. */
  method SplitArc(p1: Point3, p2: Point3, c: Circle, clockwise: bool, maxSegLength: real, units: Unit, math: MathLib)
      returns (points: seq<Point3>)
    requires maxSegLength == ArcMaxSegment(units)
    ensures points == ArcAround(p1, p2, c, clockwise, units, math)
  {
    var startAngle := math.atan2(p1.y - c.cy, p1.x - c.cx);
    var endAngle := math.atan2(p2.y - c.cy, p2.x - c.cx);
    var diff := endAngle - startAngle;
    if clockwise {
      if diff >= 0.0 {
        diff := diff - 2.0 * math.pi;
      }
    } else {
      if diff <= 0.0 {
        diff := diff + 2.0 * math.pi;
      }
    }
    assert diff == Sweep(startAngle, endAngle, clockwise, math.pi);
    var arcLen := ArcLength(diff, c.radius);
    var segments := ArcSegmentCount(arcLen, maxSegLength);
    assert segments == ArcPieces(diff, c.radius, units);
    var thetaStep := diff / segments as real;
    var zStep := (p2.z - p1.z) / segments as real;
    points := ArcLoop(c, startAngle, thetaStep, p1.z, zStep, segments, math);
  }

  /** The loop of the arc split: the points 1 to `n`. */
  method ArcLoop(c: Circle, startAngle: real, thetaStep: real, z0: real, zStep: real, n: nat, math: MathLib)
      returns (points: seq<Point3>)
    ensures points == ArcPoints(c, startAngle, thetaStep, z0, zStep, n, math)
  {
    points := [];
    var i: nat := 1;
    while i <= n
      invariant 1 <= i <= n + 1
      invariant points == ArcPoints(c, startAngle, thetaStep, z0, zStep, i - 1, math)
    {
      points := points + [ArcPoint(c, startAngle, thetaStep, z0, zStep, i, math)];
      i := i + 1;
    }
  }
}
