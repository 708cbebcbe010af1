/**
  * Properties of the probe-grid planner: the shape of the positions on one
  * axis, the number of points GRID mode gives, the spacing step mode gives, the
  * grid nodes the program visits, and the agreement of `planedPointCount` with
  * the probing moves of the program.
  */
module PlannerProperties {
  import opened Common
  import opened JsNumber
  import opened GcodeText
  import opened GcodeBounds
  import opened Segments
  import opened ArcProperties
  import opened Planner

  // ---------------------------------------------------------------- one axis

  /**
    * With a positive step the positions of an axis start at `lo` (pulled back
    * onto `hi`), climb by exactly one step at a time and strictly, never pass
    * `hi`, and the last one is within 0.01 of `hi`. There is at least one
    * position exactly when `lo - d` is more than 0.01 short of `hi`.
    */
  lemma AxisShape(lo: real, hi: real, d: real)
    requires d > 0.0
    ensures var vs := AxisValues(lo, hi, d).value;
      (|vs| > 0 <==> lo - d < hi - 0.01) &&
      (|vs| > 0 ==> vs[0] == Clamp(lo, hi) && vs[|vs| - 1] >= hi - 0.01) &&
      (forall i :: 0 <= i < |vs| ==> vs[i] <= hi) &&
      (forall i :: 0 <= i < |vs| - 1 ==> vs[i] == lo + Multiple(i, d) && vs[i] < vs[i + 1])
  {
    var vs := AxisValues(lo, hi, d).value;
    var n := |vs|;
    AxisCountExact(lo, hi, d, 0);
    NextMultiple(0, d);
    forall i | 0 <= i < n - 1
      ensures vs[i] == lo + Multiple(i, d) && vs[i] < vs[i + 1]
    {
      AxisCountExact(lo, hi, d, i + 1);
      NextMultiple(i, d);
    }
    if n > 0 {
      AxisCountExact(lo, hi, d, n);
      NextMultiple(n - 1, d);
    }
  }

  /**
    * GRID mode with `n` points on a span whose spacing exceeds 0.01 gives exactly
    * `n` positions, `lo + i * d` for each `i`, the last exactly `hi`.
    */
  lemma GridAxis(lo: real, hi: real, n: nat)
    requires n >= 2
    requires (hi - lo) / (n - 1) as real > 0.01
    ensures var d := (hi - lo) / (n - 1) as real;
      var vs := AxisValues(lo, hi, d).value;
      |vs| == n && vs[n - 1] == hi &&
      forall i :: 0 <= i < n ==> vs[i] == lo + Multiple(i, d)
  {
    var d := (hi - lo) / (n - 1) as real;
    var span := hi - lo;
    AllShares(n - 1, span);
    NextMultiple(n - 1, d);
    AxisCountExact(lo, hi, d, n - 1);
    AxisCountExact(lo, hi, d, n);
    var vs := AxisValues(lo, hi, d).value;
    forall i | 0 <= i < n
      ensures vs[i] == lo + Multiple(i, d)
    {
      MulMonotone(i as real, (n - 1) as real, d);
    }
  }

  /** `GRID` given as a whole number `n` of at least 2 spaces the span into `n - 1` equal steps. */
  lemma GridSpacing(lo: real, hi: real, n: nat, delta: real)
    requires n >= 2
    ensures Spacing(lo, hi, Some(n as real), delta) == Some((hi - lo) / (n - 1) as real)
  {
  }

  /**
    * Step mode on a span of at least one step `delta > 0`: the spacing splits the
    * span into the truncated number of steps that fit, and is never finer than
    * `delta` and less than twice it.
    */
  lemma StepSpacing(lo: real, hi: real, delta: real)
    requires delta > 0.0 && hi - lo >= delta
    ensures var d := Spacing(lo, hi, None, delta);
      d.Some? && delta <= d.value < 2.0 * delta &&
      Multiple(Trunc((hi - lo) / delta), d.value) == hi - lo
  {
    var span := hi - lo;
    var q := span / delta;
    assert q * delta == span;
    assert q >= 1.0 by {
      if q < 1.0 {
        MulStrict(q, 1.0, delta);
      }
    }
    var n := Trunc(q);
    AllShares(n, span);
    StepBounds(span, delta, q, n as real);
  }

  /** The step `span / n` for the `n` whole steps of `delta` that fit in `span`. */
  lemma StepBounds(span: real, delta: real, q: real, n: real)
    requires delta > 0.0 && q == span / delta
    requires 1.0 <= n <= q < n + 1.0
    ensures delta <= span / n < 2.0 * delta
  {
    var d := span / n;
    assert d * n == span && q * delta == span;
    StepBetween(d, n, span, q, delta);
  }

  /** A step `d` that cuts `span` into `n` parts, `n` the whole part of `span / delta`. */
  lemma StepBetween(d: real, n: real, span: real, q: real, delta: real)
    requires delta > 0.0 && 1.0 <= n <= q < n + 1.0
    requires d * n == span && q * delta == span
    ensures delta <= d < 2.0 * delta
  {
    // `d < delta` would make `span = n d < n delta <= q delta = span`.
    if d < delta {
      MulStrict(d, delta, n);
      FewerSteps(n, q, delta);
      assert false;
    }
    // `d >= 2 delta` would make `span = n d >= 2 n delta > q delta = span`.
    if d >= 2.0 * delta {
      MulMonotone(2.0 * delta, d, n);
      DoubleSteps(q, n, delta);
      assert false;
    }
  }

  lemma FewerSteps(n: real, q: real, delta: real)
    requires delta > 0.0 && n <= q
    ensures delta * n <= q * delta
  {
    MulMonotone(n, q, delta);
  }

  lemma DoubleSteps(q: real, n: real, delta: real)
    requires delta > 0.0 && q < n + 1.0 && 1.0 <= n
    ensures q * delta < (2.0 * delta) * n
  {
    MulStrict(q, 2.0 * n, delta);
  }

  // ---------------------------------------------------------------- the grid nodes

  /** The points of a row: the positions of the row at its height, less the skipped one. */
  lemma {:induction false} RowMembers(zs: seq<real>, y: real, r: nat, xmin: real)
    ensures forall t :: t in Row(zs, y, r, xmin) <==> t.1 == y && t.0 in zs && !Skip(r, t.0, xmin)
  {
    if zs != [] {
      var init := zs[..|zs| - 1];
      RowMembers(init, y, r, xmin);
      assert zs == init + [zs[|zs| - 1]];
      assert forall x :: x in zs <==> x in init || x == zs[|zs| - 1];
    }
  }

  /** Every row after the first probes all of its positions. */
  lemma {:induction false} RowLength(zs: seq<real>, y: real, r: nat, xmin: real)
    requires r > 0
    ensures |Row(zs, y, r, xmin)| == |zs|
  {
    if zs != [] {
      RowLength(zs[..|zs| - 1], y, r, xmin);
    }
  }

  lemma OrientedMembers(xs: seq<real>, r: nat)
    ensures forall x :: x in Oriented(xs, r) <==> x in xs
  {
    var o := Oriented(xs, r);
    if r % 2 != 0 {
      forall x | x in xs ensures x in o {
        var i :| 0 <= i < |xs| && xs[i] == x;
        assert o[|xs| - 1 - i] == x;
      }
    }
  }

  /** `t` is the node of row `r`: at the row's height, on a column position, and not skipped. */
  predicate Node(xs: seq<real>, ys: seq<real>, xmin: real, r: nat, t: (real, real)) {
    r < |ys| && t.1 == ys[r] && t.0 in xs && !Skip(r, t.0, xmin)
  }

  /** Every point the program visits is a grid node. */
  lemma {:induction false} TargetIsNode(xs: seq<real>, ys: seq<real>, xmin: real, t: (real, real))
    requires t in Targets(xs, ys, xmin)
    ensures exists r :: Node(xs, ys, xmin, r, t)
  {
    var k := |ys| - 1;
    if t in Targets(xs, ys[..k], xmin) {
      TargetIsNode(xs, ys[..k], xmin, t);
      var r :| Node(xs, ys[..k], xmin, r, t);
      assert Node(xs, ys, xmin, r, t);
    } else {
      RowMembers(Oriented(xs, k), ys[k], k, xmin);
      OrientedMembers(xs, k);
      assert Node(xs, ys, xmin, k, t);
    }
  }

  /** Every grid node is visited. */
  lemma {:induction false} NodeIsTarget(xs: seq<real>, ys: seq<real>, xmin: real, r: nat, t: (real, real))
    requires Node(xs, ys, xmin, r, t)
    ensures t in Targets(xs, ys, xmin)
    decreases |ys|
  {
    var k := |ys| - 1;
    if r < k {
      assert Node(xs, ys[..k], xmin, r, t);
      NodeIsTarget(xs, ys[..k], xmin, r, t);
    } else {
      NodeInRow(xs, k, ys[k], xmin, t);
    }
    TargetsLast(xs, ys, xmin);
  }

  /** The points of the last row come after those of the rows before it. */
  lemma TargetsLast(xs: seq<real>, ys: seq<real>, xmin: real)
    requires ys != []
    ensures var k := |ys| - 1; Targets(xs, ys, xmin) == Targets(xs, ys[..k], xmin) + Row(Oriented(xs, k), ys[k], k, xmin)
  {
  }

  /** A node of a row is among the points of that row, whichever way the row runs. */
  lemma NodeInRow(xs: seq<real>, k: nat, y: real, xmin: real, t: (real, real))
    requires t.1 == y && t.0 in xs && !Skip(k, t.0, xmin)
    ensures t in Row(Oriented(xs, k), y, k, xmin)
  {
    RowMembers(Oriented(xs, k), y, k, xmin);
    OrientedMembers(xs, k);
  }

  /**
    * The program visits exactly the grid nodes `(x, y)`, `x` a column position
    * and `y` a row position, except the initial point's neighbours in the first
    * row that `Skip` leaves out.
    */
  lemma TargetsAreNodes(xs: seq<real>, ys: seq<real>, xmin: real)
    ensures forall t :: t in Targets(xs, ys, xmin) <==> exists r :: Node(xs, ys, xmin, r, t)
  {
    forall t | t in Targets(xs, ys, xmin) ensures exists r :: Node(xs, ys, xmin, r, t) {
      TargetIsNode(xs, ys, xmin, t);
    }
    forall t, r | Node(xs, ys, xmin, r, t) ensures t in Targets(xs, ys, xmin) {
      NodeIsTarget(xs, ys, xmin, r, t);
    }
  }

  // ---------------------------------------------------------------- the point count

  /** A line of the program that probes: it starts with `G38.2`. */
  predicate IsProbeLine(t: string) {
    |t| >= 5 && t[..5] == "G38.2"
  }

  /** The number of probing lines of a rendered program. */
  function ProbeLineCount(lines: seq<string>): nat {
    if lines == [] then 0 else (if IsProbeLine(lines[0]) then 1 else 0) + ProbeLineCount(lines[1..])
  }

  /** The number of probing moves of a program. */
  function Probes(code: seq<PlanLine>): nat {
    if code == [] then 0 else (if code[0].Probe? then 1 else 0) + Probes(code[1..])
  }

  /** Only the probing moves render to a `G38.2` line. */
  lemma RenderProbe(l: PlanLine, show: real -> string)
    ensures IsProbeLine(Render(l, show)) <==> l.Probe?
  {
    var t := Render(l, show);
    if !l.Probe? {
      assert |t| >= 2 && (t[0] != 'G' || t[1] != '3');
    }
  }

  lemma {:induction false} CountRendered(code: seq<PlanLine>, show: real -> string)
    ensures ProbeLineCount(RenderAll(code, show)) == Probes(code)
    decreases |code|
  {
    if code != [] {
      CountRendered(code[1..], show);
      assert RenderAll(code, show)[1..] == RenderAll(code[1..], show);
      RenderProbe(code[0], show);
    }
  }

  lemma {:induction false} ProbesAppend(a: seq<PlanLine>, b: seq<PlanLine>)
    ensures Probes(a + b) == Probes(a) + Probes(b)
    decreases |a|
  {
    if a == [] {
      assert a + b == b;
    } else {
      assert (a + b)[1..] == a[1..] + b;
      ProbesAppend(a[1..], b);
    }
  }

  /** The four lines of a point probe once. */
  lemma VisitProbes(t: (real, real), n: nat, st: Settings)
    ensures Probes(Visit(t, n, st)) == 1
  {
    var v := Visit(t, n, st);
    assert Probes(v[3..]) == 0 by { assert v[3..][1..] == []; }
    assert Probes(v[2..]) == 1 by { assert v[2..][1..] == v[3..]; }
    assert Probes(v[1..]) == 1 by { assert v[1..][1..] == v[2..]; }
  }

  /** The opening lines probe once, at the initial point. */
  lemma InitialProbes(xmin: real, ymin: real, st: Settings)
    ensures Probes(Initial(xmin, ymin, st)) == 1
  {
    var v := Initial(xmin, ymin, st);
    assert Probes(v[7..]) == 0 by { assert v[7..][1..] == []; }
    assert Probes(v[6..]) == 0 by { assert v[6..][1..] == v[7..]; }
    assert Probes(v[5..]) == 1 by { assert v[5..][1..] == v[6..]; }
    assert Probes(v[4..]) == 1 by { assert v[4..][1..] == v[5..]; }
    assert Probes(v[3..]) == 1 by { assert v[3..][1..] == v[4..]; }
    assert Probes(v[2..]) == 1 by { assert v[2..][1..] == v[3..]; }
    assert Probes(v[1..]) == 1 by { assert v[1..][1..] == v[2..]; }
  }

  lemma {:induction false} VisitsProbes(ts: seq<(real, real)>, first: nat, st: Settings)
    ensures Probes(Visits(ts, first, st)) == |ts|
    decreases |ts|
  {
    if ts != [] {
      var init := ts[..|ts| - 1];
      var v := Visit(ts[|ts| - 1], first + |ts| - 1, st);
      VisitsProbes(init, first, st);
      ProbesAppend(Visits(init, first, st), v);
      VisitProbes(ts[|ts| - 1], first + |ts| - 1, st);
    }
  }

  /** `planedPointCount` is the number of `G38.2` lines of the program. */
  lemma PlannedCountIsProbeLines(xmin: real, xmax: real, dx: real, ymin: real, ymax: real, dy: real,
                                 st: Settings, show: real -> string)
    requires Plan(xmin, xmax, dx, ymin, ymax, dy, st).Planned?
    ensures var p := Plan(xmin, xmax, dx, ymin, ymax, dy, st);
      ProbeLineCount(RenderAll(p.code, show)) == p.count
  {
    var p := Plan(xmin, xmax, dx, ymin, ymax, dy, st);
    var ys := AxisValues(ymin, ymax, dy).value;
    var init := Initial(xmin, ymin, st);
    InitialProbes(xmin, ymin, st);
    CountRendered(p.code, show);
    if ys != [] {
      var ts := Targets(AxisValues(xmin, xmax, dx).value, ys, xmin);
      ProbesAppend(init, Visits(ts, 2, st));
      VisitsProbes(ts, 2, st);
    }
  }

  /** Whatever the steps, `planedPointCount` is the number of `G38.2` lines of the program. */
  lemma StepsCountIsProbeLines(xmin: real, xmax: real, sx: Step, ymin: real, ymax: real, sy: Step,
                               st: Settings, show: real -> string)
    requires PlanSteps(xmin, xmax, sx, ymin, ymax, sy, st).Planned?
    ensures var p := PlanSteps(xmin, xmax, sx, ymin, ymax, sy, st);
      ProbeLineCount(RenderAll(p.code, show)) == p.count
  {
    if sx.Finite? && sy.Finite? {
      PlannedCountIsProbeLines(xmin, xmax, sx.d, ymin, ymax, sy.d, st, show);
    } else {
      InitialProbes(xmin, ymin, st);
      CountRendered(Initial(xmin, ymin, st), show);
    }
  }

  // ---------------------------------------------------------------- steps that are not finite

  /**
    * In step mode, `D0` or a rectangle of zero height makes the row step NaN:
    * the row loop never runs and the program probes the initial point alone.
    */
  lemma NaNRowStepProbesInitialOnly(req: Request, st: Settings, bounds: Option<Bounds>, ctx: Context,
                                    xmin: real, xmax: real, ymin: real, ymax: real)
    requires AxisRange(req.xSize, bounds, "X", ctx.xmin, ctx.xmax, Margin(st, req)) == Some((xmin, xmax))
    requires AxisRange(req.ySize, bounds, "Y", ctx.ymin, ctx.ymax, Margin(st, req)) == Some((ymin, ymax))
    requires !Truthy(req.grid) && (st.delta == 0.0 || ymin == ymax)
    ensures PlanFor(req, st, bounds, ctx) == Planned(Initial(xmin, ymin, st), 1)
  {
    assert StepOf(ymin, ymax, req.grid, st.delta).NaN?;
  }

  /**
    * In step mode, a rectangle of zero width makes the column step NaN: every
    * row is empty, so the program probes the initial point alone, unless the
    * row loop never ends, which needs a negative `D`.
    */
  lemma NaNColumnStepProbesInitialOnly(req: Request, st: Settings, bounds: Option<Bounds>, ctx: Context,
                                       xmin: real, xmax: real, ymin: real, ymax: real)
    requires AxisRange(req.xSize, bounds, "X", ctx.xmin, ctx.xmax, Margin(st, req)) == Some((xmin, xmax))
    requires AxisRange(req.ySize, bounds, "Y", ctx.ymin, ctx.ymax, Margin(st, req)) == Some((ymin, ymax))
    requires !Truthy(req.grid) && xmin == xmax
    ensures var p := PlanFor(req, st, bounds, ctx);
      p == Planned(Initial(xmin, ymin, st), 1) || (p.Diverges? && st.delta < 0.0)
  {
    var sy := StepOf(ymin, ymax, req.grid, st.delta);
    assert StepOf(xmin, xmax, req.grid, st.delta).NaN?;
    if sy.Finite? && AxisValues(ymin, ymax, sy.d).None? {
      StepSign(ymax - ymin, st.delta);
    }
  }

  /** The step-mode spacing has the sign of `D`. */
  lemma StepSign(span: real, delta: real)
    requires delta != 0.0 && Trunc(span / delta) != 0
    ensures var d := span / Trunc(span / delta) as real; (d > 0.0 <==> delta > 0.0)
  {
    var q := span / delta;
    var n := Trunc(q) as real;
    assert span == q * delta;
    if q >= 0.0 {
      assert n >= 1.0 && q >= n;
    } else {
      assert n <= -1.0 && q <= n;
    }
    assert span / n == (q / n) * delta;
    assert q / n > 0.0;
  }
}
