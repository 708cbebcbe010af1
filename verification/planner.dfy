/**
  * The probe-grid planner of `#autolevel`: the probing rectangle, the spacing of
  * the grid (a number of points per axis with `GRID`, a step `D` otherwise), the
  * serpentine order of the points and the G-code program that probes them.
  */
module Planner {
  import opened Common
  import opened JsNumber
  import opened GcodeText
  import opened GcodeBounds
  import opened Segments

  // ---------------------------------------------------------------- the command

  /** The settings that outlive one run: probe step `delta`, travel `height` and probing `feed`. */
  datatype Settings = Settings(delta: real, height: real, feed: real)

  /** The values the extension starts with: a 10 mm step, 2 mm travel height, feed 50. */
  const Defaults: Settings := Settings(10.0, 2.0, 50.0)

  /** The work area cncjs passes with the command (`context.xmin` ...). */
  datatype Context = Context(xmin: real, xmax: real, ymin: real, ymax: real)

  /** The words of an `#autolevel` command, each the first match of its letter(s). */
  datatype Request = Request(
    probeOnly: Option<real>, delta: Option<real>, height: Option<real>, feed: Option<real>,
    margin: Option<real>, xSize: Option<real>, ySize: Option<real>, grid: Option<real>)

  function ParseRequest(cmd: string): Request {
    Request(Param(cmd, "P"), Param(cmd, "D"), Param(cmd, "H"), Param(cmd, "F"),
            Param(cmd, "M"), Param(cmd, "X"), Param(cmd, "Y"), Param(cmd, "GRID"))
  }

  /** JavaScript truthiness of a parameter: present and not zero. */
  predicate Truthy(v: Option<real>) {
    v.Some? && v.value != 0.0
  }

  function OrElse(v: Option<real>, d: real): (r: real)
    ensures v.Some? ==> r == v.value
    ensures v.None? ==> r == d
  {
    if v.Some? then v.value else d
  }

  /** The settings after a command: `D`, `H` and `F` replace the stored values. */
  function Update(st: Settings, req: Request): (r: Settings)
    ensures req.delta.None? ==> r.delta == st.delta
    ensures req.height.None? ==> r.height == st.height
    ensures req.feed.None? ==> r.feed == st.feed
  {
    Settings(OrElse(req.delta, st.delta), OrElse(req.height, st.height), OrElse(req.feed, st.feed))
  }

  /** The margin: `M`, or a quarter of the (updated) step. */
  function Margin(st: Settings, req: Request): real {
    OrElse(req.margin, st.delta / 4.0)
  }

  // ---------------------------------------------------------------- the rectangle

  /**
    * The probed interval on one axis: `[margin, size - margin]` when a size is
    * given, otherwise the program's bounds shrunk by the margin, otherwise the
    * context shrunk by the margin. None when the program's bounds have no value on
    * this axis: the source then computes with infinite values.
    */
  function AxisRange(size: Option<real>, bounds: Option<Bounds>, axis: string,
                     ctxLo: real, ctxHi: real, margin: real): (r: Option<(real, real)>)
    requires axis == "X" || axis == "Y"
    ensures Truthy(size) ==> r == Some((margin, size.value - margin))
    ensures !Truthy(size) && bounds.None? ==> r == Some((ctxLo + margin, ctxHi - margin))
    ensures !Truthy(size) && bounds.Some? ==>
      var a := if axis == "X" then bounds.value.x else bounds.value.y;
      (r.None? <==> a.None?) && (a.Some? ==> r == Some((a.value.lo + margin, a.value.hi - margin)))
  {
    if Truthy(size) then Some((margin, size.value - margin))
    else if bounds.Some? then
      var a := if axis == "X" then bounds.value.x else bounds.value.y;
      if a.Some? then Some((a.value.lo + margin, a.value.hi - margin)) else None
    else Some((ctxLo + margin, ctxHi - margin))
  }

  // ---------------------------------------------------------------- the spacing

  /** `parseInt` of a number written in plain decimal notation: truncation toward zero. */
  function Trunc(x: real): (n: int)
    ensures x >= 0.0 ==> n >= 0 && n as real <= x < n as real + 1.0
    ensures x < 0.0 ==> n <= 0 && n as real - 1.0 < x <= n as real
  {
    if x >= 0.0 then x.Floor else -((-x).Floor)
  }

  /** The number of points `GRID` asks for: at least 2. */
  function GridPoints(grid: real): (g: real)
    ensures g >= 2.0
  {
    if grid < 2.0 then 2.0 else grid
  }

  /**
    * The spacing of the grid on an axis spanning `lo..hi`: the span over
    * `grid - 1` in GRID mode, otherwise the span over the truncated number of
    * steps `D` that fit. None when that number is zero or `D` is zero: the
    * source then divides by zero and goes on with an infinite or NaN spacing
    * (`StepOf`).
    */
  function Spacing(lo: real, hi: real, grid: Option<real>, delta: real): (d: Option<real>)
    ensures Truthy(grid) ==> d == Some((hi - lo) / (GridPoints(grid.value) - 1.0))
    ensures !Truthy(grid) ==> (d.None? <==> delta == 0.0 || Trunc((hi - lo) / delta) == 0)
  {
    if Truthy(grid) then Some((hi - lo) / (GridPoints(grid.value) - 1.0))
    else if delta == 0.0 then None
    else
      var n := Trunc((hi - lo) / delta);
      if n == 0 then None else Some((hi - lo) / n as real)
  }

  /**
    * The spacing the source goes on with: a finite number, or, where `Spacing`
    * has none, NaN or an infinity.
    */
  datatype Step = Finite(d: real) | NaN | PlusInfinity | MinusInfinity

  /**
    * The source's spacing on an axis spanning `lo..hi`. Where `Spacing` has none
    * (step mode only), `D` of 0 makes the step count `parseInt` of an infinite
    * or NaN quotient, which is NaN, and a span of 0 makes the spacing 0 / 0:
    * both give NaN. Otherwise the quotient lies strictly between -1 and 1, its
    * truncation is a zero carrying the quotient's sign, and the span over it is
    * an infinity with the sign of `D`.
    */
  function StepOf(lo: real, hi: real, grid: Option<real>, delta: real): (s: Step)
    ensures s.Finite? <==> Spacing(lo, hi, grid, delta).Some?
    ensures s.Finite? ==> s.d == Spacing(lo, hi, grid, delta).value
    ensures s.NaN? <==> !Truthy(grid) && (delta == 0.0 || hi - lo == 0.0)
    ensures s.PlusInfinity? ==> delta > 0.0
    ensures s.MinusInfinity? ==> delta < 0.0
  {
    match Spacing(lo, hi, grid, delta)
    case Some(d) => Finite(d)
    case None =>
      if delta == 0.0 || hi - lo == 0.0 then NaN
      else if delta > 0.0 then PlusInfinity
      else MinusInfinity
  }

  /**
    * A NaN or negative-infinite step keeps its axis loop from running: the first
    * position is NaN, or infinite beyond the far edge.
    */
  predicate Stalls(s: Step) {
    s.NaN? || s.MinusInfinity?
  }

  // ---------------------------------------------------------------- the points of one axis

  /** Positions beyond the far edge are pulled back onto it. */
  function Clamp(x: real, hi: real): (r: real)
    ensures r <= hi && (r == x || r == hi)
    ensures x <= hi ==> r == x
  {
    if x > hi then hi else x
  }

  /** How many positions the axis loop visits when it steps by `d > 0`. */
  function AxisCount(lo: real, hi: real, d: real): nat
    requires d > 0.0
  {
    var c := Ceil((hi - 0.01 - (lo - d)) / d);
    if c < 0 then 0 else c
  }

  /**
    * The positions of one axis: starting one step before `lo`, the loop adds the
    * step while the position is more than 0.01 short of `hi`, pulling a position
    * beyond `hi` back onto it. With a step that is not positive the loop either
    * never runs or never ends; the latter is None.
    */
  function AxisValues(lo: real, hi: real, d: real): (r: Option<seq<real>>)
    ensures r.None? <==> d <= 0.0 && lo - d < hi - 0.01
    ensures r.Some? && d <= 0.0 ==> r.value == []
  {
    if d <= 0.0 then
      if lo - d < hi - 0.01 then None else Some([])
    else
      Some(AxisPrefix(lo, hi, d, AxisCount(lo, hi, d)))
  }

  /** The first `n` positions of the axis loop: `lo`, `lo + d`, ..., each pulled back onto `hi`. */
  function AxisPrefix(lo: real, hi: real, d: real, n: nat): (r: seq<real>)
    ensures |r| == n
    ensures forall i :: 0 <= i < n ==> r[i] == Clamp(lo + Multiple(i, d), hi)
  {
    if n == 0 then [] else AxisPrefix(lo, hi, d, n - 1) + [Clamp(lo + Multiple(n - 1, d), hi)]
  }

  /** The loop runs its `k+1`-st turn exactly when `k` is below the count. */
  lemma AxisCountExact(lo: real, hi: real, d: real, k: nat)
    requires d > 0.0
    ensures lo - d + Multiple(k, d) < hi - 0.01 <==> k < AxisCount(lo, hi, d)
  {
    var gap := hi - 0.01 - (lo - d);
    var x := gap / d;
    ScaleCompare(k as real, d, gap);
    assert (Ceil(x) - 1) as real < x <= Ceil(x) as real;
    BelowCeil(k, x);
  }

  /**
    * The state of an axis loop after `k` turns: the position is `k` steps past
    * `lo - d`, or `hi` once it was pulled back; the loop goes on exactly while
    * fewer than `AxisCount` positions were visited.
    */
  ghost predicate AxisAt(lo: real, hi: real, d: real, k: nat, x: real) {
    d > 0.0 &&
    (x == lo - d + Multiple(k, d) || (x == hi && lo - d + Multiple(k, d) > hi)) &&
    (x < hi - 0.01 <==> k < AxisCount(lo, hi, d))
  }

  lemma AxisStart(lo: real, hi: real, d: real)
    requires d > 0.0
    ensures AxisAt(lo, hi, d, 0, lo - d)
  {
    NextMultiple(0, d);
    AxisCountExact(lo, hi, d, 0);
  }

  /** One turn of an axis loop visits the next position and keeps the loop state. */
  lemma AxisStep(lo: real, hi: real, d: real, k: nat, x: real)
    requires AxisAt(lo, hi, d, k, x) && x < hi - 0.01
    ensures Clamp(x + d, hi) == AxisValues(lo, hi, d).value[k]
    ensures AxisPrefix(lo, hi, d, k + 1) == AxisPrefix(lo, hi, d, k) + [Clamp(x + d, hi)]
    ensures AxisAt(lo, hi, d, k + 1, Clamp(x + d, hi))
  {
    NextMultiple(k, d);
    assert lo - d + Multiple(k + 1, d) == lo + Multiple(k, d);
    AxisCountExact(lo, hi, d, k + 1);
  }

  /**
    * The axis loop of the planner. It reports None, instead of running forever,
    * when the step is not positive and the loop would start.
    */
  method AxisLoop(lo: real, hi: real, d: real) returns (points: Option<seq<real>>)
    ensures points == AxisValues(lo, hi, d)
  {
    var x := lo - d;
    if d <= 0.0 {
      if x < hi - 0.01 {
        return None;
      }
      return Some([]);
    }
    var ps: seq<real> := [];
    AxisStart(lo, hi, d);
    while x < hi - 0.01
      invariant |ps| <= AxisCount(lo, hi, d)
      invariant AxisAt(lo, hi, d, |ps|, x)
      invariant ps == AxisPrefix(lo, hi, d, |ps|)
      decreases AxisCount(lo, hi, d) - |ps|
    {
      AxisStep(lo, hi, d, |ps|, x);
      x := x + d;
      if x > hi {
        x := hi;
      }
      ps := ps + [x];
    }
    points := Some(ps);
  }

  // ---------------------------------------------------------------- the probing order

  /** Odd rows are walked backwards (`xPoints.reverse()`), giving a serpentine path. */
  function Oriented(xs: seq<real>, row: nat): seq<real> {
    if row % 2 != 0 then Reverse(xs) else xs
  }

  /** The first point of the first row is not probed again: it is the initial point. */
  predicate Skip(row: nat, x: real, xmin: real) {
    row == 0 && Abs(x - xmin) < 0.001
  }

  /** The points probed in row `row` at height `y`, visiting the positions `xs` in order. */
  function Row(xs: seq<real>, y: real, row: nat, xmin: real): seq<(real, real)> {
    if xs == [] then []
    else
      var x := xs[|xs| - 1];
      Row(xs[..|xs| - 1], y, row, xmin) + (if Skip(row, x, xmin) then [] else [(x, y)])
  }

  /** The points probed after the initial one, row by row. */
  function Targets(xs: seq<real>, ys: seq<real>, xmin: real): seq<(real, real)> {
    if ys == [] then []
    else
      var r := |ys| - 1;
      Targets(xs, ys[..r], xmin) + Row(Oriented(xs, r), ys[r], r, xmin)
  }

  // ---------------------------------------------------------------- the program

  /** One line of the probing program. */
  datatype PlanLine =
    | InitialNote                              // (AL: probing initial point)
    | Metric                                   // G21
    | Absolute                                 // G90
    | Lift(height: real)                       // G0 Z<height>
    | MoveFirst(x: real, y: real, h: real)     // G0 X<x> Y<y> Z<h>
    | Probe(depth: real, feed: real)           // G38.2 Z-<depth> F<feed>
    | ZeroZ                                    // G10 L20 P1 Z0
    | PointNote(n: nat)                        // (AL: probing point <n>)
    | MoveTo(x: real, y: real, h: real)        // G90 G0 X<x> Y<y> Z<h>

  /** The lines that probe the initial point and make it the Z origin. */
  function Initial(xmin: real, ymin: real, st: Settings): seq<PlanLine> {
    [InitialNote, Metric, Absolute, Lift(st.height), MoveFirst(xmin, ymin, st.height),
     Probe(st.height + 1.0, st.feed / 2.0), ZeroZ, Lift(st.height)]
  }

  /** The four lines that probe point number `n` at `t`. */
  function Visit(t: (real, real), n: nat, st: Settings): seq<PlanLine> {
    [PointNote(n), MoveTo(t.0, t.1, st.height), Probe(st.height + 1.0, st.feed), Lift(st.height)]
  }

  /** The lines that probe `ts`, numbered from `first`. */
  function Visits(ts: seq<(real, real)>, first: nat, st: Settings): (r: seq<PlanLine>)
    ensures |r| == 4 * |ts|
  {
    if ts == [] then []
    else Visits(ts[..|ts| - 1], first, st) + Visit(ts[|ts| - 1], first + |ts| - 1, st)
  }

  /**
    * The text of a line. `show` is JavaScript's conversion of a number inside a
    * template string; coordinates go through `toFixed(3)`.
    */
  function Render(l: PlanLine, show: real -> string): string {
    match l
    case InitialNote => "(AL: probing initial point)"
    case Metric => "G21"
    case Absolute => "G90"
    case Lift(h) => "G0 Z" + show(h)
    case MoveFirst(x, y, h) => "G0 X" + Fixed3(x) + " Y" + Fixed3(y) + " Z" + show(h)
    case Probe(depth, feed) => "G38.2 Z-" + show(depth) + " F" + show(feed)
    case ZeroZ => "G10 L20 P1 Z0"
    case PointNote(n) => "(AL: probing point " + NatToString(n) + ")"
    case MoveTo(x, y, h) => "G90 G0 X" + Fixed3(x) + " Y" + Fixed3(y) + " Z" + show(h)
  }

  function RenderAll(code: seq<PlanLine>, show: real -> string): (r: seq<string>)
    ensures |r| == |code|
    ensures forall i :: 0 <= i < |code| ==> r[i] == Render(code[i], show)
  {
    if code == [] then [] else RenderAll(code[..|code| - 1], show) + [Render(code[|code| - 1], show)]
  }

  /** The program sent to the controller: `code.join('\n')`. */
  function ProgramText(code: seq<PlanLine>, show: real -> string): string {
    Join(RenderAll(code, show), '\n')
  }

  /** What the planner produces: the program and `planedPointCount`, or why there is none. */
  datatype PlanOutcome =
    | Planned(code: seq<PlanLine>, count: nat)
    | NonFinite      // a limit, or the position of a probed point, is not a finite number
    | Diverges       // the row or column loop never ends

  /**
    * The program for the rectangle `[xmin, xmax] x [ymin, ymax]` with spacings
    * `dx`, `dy`: the initial point, then every point of every row. The point
    * count is the initial point plus the targets.
    */
  function Plan(xmin: real, xmax: real, dx: real, ymin: real, ymax: real, dy: real, st: Settings): PlanOutcome {
    match AxisValues(ymin, ymax, dy)
    case None => Diverges
    case Some(ys) => PlanRows(xmin, xmax, dx, ys, Initial(xmin, ymin, st), st)
  }

  /** The program once the row positions `ys` are known, after the lines `init`. */
  function PlanRows(xmin: real, xmax: real, dx: real, ys: seq<real>, init: seq<PlanLine>, st: Settings): PlanOutcome {
    if ys == [] then Planned(init, 1)
    else
      match AxisValues(xmin, xmax, dx)
      case None => Diverges
      case Some(xs) =>
        var ts := Targets(xs, ys, xmin);
        Planned(init + Visits(ts, 2, st), 1 + |ts|)
  }

  /**
    * The program for any pair of steps. Finite ones are `Plan`. A row step that
    * stalls leaves the initial point alone. Otherwise the rows are those of a
    * finite step, or, for a positive-infinite one, a single row at a NaN height.
    * A column step that stalls empties every row, and a positive-infinite one
    * puts one NaN position in each; a NaN position or height that reaches the
    * text of a probed point is `NonFinite`.
    */
  function PlanSteps(xmin: real, xmax: real, sx: Step, ymin: real, ymax: real, sy: Step,
                     st: Settings): PlanOutcome {
    var init := Initial(xmin, ymin, st);
    if sx.Finite? && sy.Finite? then Plan(xmin, xmax, sx.d, ymin, ymax, sy.d, st)
    else if Stalls(sy) then Planned(init, 1)
    else if sy.Finite? then
      match AxisValues(ymin, ymax, sy.d)
      case None => Diverges
      case Some(ys) => if ys == [] || Stalls(sx) then Planned(init, 1) else NonFinite
    else if Stalls(sx) then Planned(init, 1)
    else if sx.PlusInfinity? then NonFinite
    else
      match AxisValues(xmin, xmax, sx.d)
      case None => Diverges
      case Some(xs) => if forall x :: x in xs ==> Skip(0, x, xmin) then Planned(init, 1) else NonFinite
  }

  /** The whole planner on a parsed command: rectangle, spacing and program. */
  function PlanFor(req: Request, st: Settings, bounds: Option<Bounds>, ctx: Context): PlanOutcome {
    var m := Margin(st, req);
    var xr := AxisRange(req.xSize, bounds, "X", ctx.xmin, ctx.xmax, m);
    var yr := AxisRange(req.ySize, bounds, "Y", ctx.ymin, ctx.ymax, m);
    if xr.None? || yr.None? then NonFinite
    else
      var sx := StepOf(xr.value.0, xr.value.1, req.grid, st.delta);
      var sy := StepOf(yr.value.0, yr.value.1, req.grid, st.delta);
      PlanSteps(xr.value.0, xr.value.1, sx, yr.value.0, yr.value.1, sy, st)
  }

  // ---------------------------------------------------------------- the loops

  lemma {:induction false} VisitsAppend(a: seq<(real, real)>, b: seq<(real, real)>, first: nat, st: Settings)
    ensures Visits(a + b, first, st) == Visits(a, first, st) + Visits(b, first + |a|, st)
    decreases |b|
  {
    if b != [] {
      var b' := b[..|b| - 1];
      assert (a + b)[..|a + b| - 1] == a + b';
      VisitsAppend(a, b', first, st);
    } else {
      assert a + b == a;
    }
  }

  /** The targets of one more row. */
  lemma TargetsStep(xs: seq<real>, ys: seq<real>, k: nat, xmin: real)
    requires k < |ys|
    ensures Targets(xs, ys[..k + 1], xmin) == Targets(xs, ys[..k], xmin) + Row(Oriented(xs, k), ys[k], k, xmin)
  {
    assert ys[..k + 1][..k] == ys[..k];
  }

  /** Appending the lines of one more row keeps the program the visits of all targets so far. */
  lemma RowsStep(init: seq<PlanLine>, code0: seq<PlanLine>, planned0: nat, code: seq<PlanLine>,
                 ts: seq<(real, real)>, row: seq<(real, real)>, st: Settings)
    requires code0 == init + Visits(ts, 2, st) && planned0 == 1 + |ts|
    requires code == code0 + Visits(row, planned0 + 1, st)
    ensures code == init + Visits(ts + row, 2, st)
  {
    VisitsAppend(ts, row, 2, st);
  }

  /**
    * The nested loops of the planner: for each row position `y`, the column
    * positions, reversed on odd rows, each probed unless it is the initial point.
    */
  method PlanProbes(xmin: real, xmax: real, dx: real, ymin: real, ymax: real, dy: real, st: Settings)
      returns (r: PlanOutcome)
    ensures r == Plan(xmin, xmax, dx, ymin, ymax, dy, st)
  {
    var code := Initial(xmin, ymin, st);
    if dy <= 0.0 {
      if ymin - dy < ymax - 0.01 {
        return Diverges;
      }
      return Planned(code, 1);
    }
    r := RowLoop(xmin, xmax, dx, ymin, ymax, dy, code, st);
  }

  /**
    * The state of the row loop after `k` rows: the position `y` of the last row,
    * the column positions `xs` (once a row was made), and the lines and count of
    * every point so far.
    */
  ghost predicate RowsSoFar(xmin: real, xmax: real, dx: real, ymin: real, ymax: real, dy: real,
                            init: seq<PlanLine>, st: Settings, k: nat, y: real,
                            code: seq<PlanLine>, planned: nat, xs: seq<real>)
  {
    AxisAt(ymin, ymax, dy, k, y) && k <= AxisCount(ymin, ymax, dy) &&
    (k > 0 ==> AxisValues(xmin, xmax, dx) == Some(xs)) &&
    var ts := Targets(xs, AxisValues(ymin, ymax, dy).value[..k], xmin);
    code == init + Visits(ts, 2, st) && planned == 1 + |ts|
  }

  /** The row loop, after the initial point's lines `init`. */
  method RowLoop(xmin: real, xmax: real, dx: real, ymin: real, ymax: real, dy: real, init: seq<PlanLine>, st: Settings)
      returns (r: PlanOutcome)
    requires dy > 0.0
    ensures r == PlanRows(xmin, xmax, dx, AxisValues(ymin, ymax, dy).value, init, st)
  {
    var code := init;
    var planned: nat := 1;
    var y := ymin - dy;
    var rowIndex: nat := 0;
    ghost var xs: seq<real> := [];
    RowsStart(xmin, xmax, dx, ymin, ymax, dy, init, st);
    while y < ymax - 0.01
      invariant RowsSoFar(xmin, xmax, dx, ymin, ymax, dy, init, st, rowIndex, y, code, planned, xs)
      decreases AxisCount(ymin, ymax, dy) - rowIndex
    {
      var ok;
      ok, y, code, planned, xs := NextRow(xmin, xmax, dx, ymin, ymax, dy, init, st, rowIndex, y, code, planned, xs);
      if !ok {
        return Diverges;
      }
      rowIndex := rowIndex + 1;
    }
    RowsEnd(xmin, xmax, dx, ymin, ymax, dy, init, st, rowIndex, y, code, planned, xs);
    r := Planned(code, planned);
  }

  lemma RowsStart(xmin: real, xmax: real, dx: real, ymin: real, ymax: real, dy: real, init: seq<PlanLine>, st: Settings)
    requires dy > 0.0
    ensures RowsSoFar(xmin, xmax, dx, ymin, ymax, dy, init, st, 0, ymin - dy, init, 1, [])
  {
    AxisStart(ymin, ymax, dy);
    var ys := AxisValues(ymin, ymax, dy).value;
    assert ys[..0] == [];
    assert init == init + Visits([], 2, st);
  }

  lemma RowsEnd(xmin: real, xmax: real, dx: real, ymin: real, ymax: real, dy: real, init: seq<PlanLine>, st: Settings,
                k: nat, y: real, code: seq<PlanLine>, planned: nat, xs: seq<real>)
    requires RowsSoFar(xmin, xmax, dx, ymin, ymax, dy, init, st, k, y, code, planned, xs)
    requires !(y < ymax - 0.01)
    ensures Planned(code, planned) == PlanRows(xmin, xmax, dx, AxisValues(ymin, ymax, dy).value, init, st)
  {
    var ys := AxisValues(ymin, ymax, dy).value;
    assert ys[..k] == ys;
    if k == 0 {
      assert code == init + [];
    }
  }

  /** One turn of the row loop: the next row position, then the row itself. */
  method NextRow(xmin: real, xmax: real, dx: real, ymin: real, ymax: real, dy: real, init: seq<PlanLine>, st: Settings,
                 k: nat, y0: real, code0: seq<PlanLine>, planned0: nat, ghost xs0: seq<real>)
      returns (ok: bool, y: real, code: seq<PlanLine>, planned: nat, ghost xs: seq<real>)
    requires RowsSoFar(xmin, xmax, dx, ymin, ymax, dy, init, st, k, y0, code0, planned0, xs0)
    requires y0 < ymax - 0.01
    ensures ok <==> AxisValues(xmin, xmax, dx).Some?
    ensures ok ==> RowsSoFar(xmin, xmax, dx, ymin, ymax, dy, init, st, k + 1, y, code, planned, xs)
    ensures ok ==> k + 1 <= AxisCount(ymin, ymax, dy)
  {
    ghost var ys := AxisValues(ymin, ymax, dy).value;
    ghost var ts := Targets(xs0, ys[..k], xmin);
    AxisStep(ymin, ymax, dy, k, y0);
    y := y0 + dy;
    if y > ymax {
      y := ymax;
    }
    assert y == Clamp(y0 + dy, ymax);
    assert AxisAt(ymin, ymax, dy, k + 1, y) && y == ys[k];
    ok, code, planned, xs := ProbeRow(xmin, xmax, dx, y, k, code0, planned0, st);
    if ok {
      assert k == 0 ==> ts == Targets(xs, ys[..k], xmin);
      assert ts == Targets(xs, ys[..k], xmin);
      TargetsStep(xs, ys, k, xmin);
      RowsStep(init, code0, planned0, code, ts, Row(Oriented(xs, k), y, k, xmin), st);
    }
  }

  /** The body of the row loop: the column positions of the row, oriented, then probed. */
  method ProbeRow(xmin: real, xmax: real, dx: real, y: real, rowIndex: nat, code0: seq<PlanLine>, planned0: nat, st: Settings)
      returns (ok: bool, code: seq<PlanLine>, planned: nat, ghost xs: seq<real>)
    ensures ok <==> AxisValues(xmin, xmax, dx).Some?
    ensures ok ==> xs == AxisValues(xmin, xmax, dx).value
    ensures ok ==> var ts := Row(Oriented(xs, rowIndex), y, rowIndex, xmin);
      code == code0 + Visits(ts, planned0 + 1, st) && planned == planned0 + |ts|
  {
    var xPoints := AxisLoop(xmin, xmax, dx);
    if xPoints.None? {
      return false, code0, planned0, [];
    }
    xs := xPoints.value;
    var row := xPoints.value;
    if rowIndex % 2 != 0 {
      row := Reverse(row);
    }
    ok := true;
    code, planned := EmitRow(code0, planned0, row, y, rowIndex, xmin, st);
  }

  /** The inner loop over one row's positions, appending the lines of each probed point. */
  method EmitRow(code0: seq<PlanLine>, planned0: nat, row: seq<real>, y: real, rowIndex: nat, xmin: real, st: Settings)
      returns (code: seq<PlanLine>, planned: nat)
    ensures var ts := Row(row, y, rowIndex, xmin);
      code == code0 + Visits(ts, planned0 + 1, st) && planned == planned0 + |ts|
  {
    code, planned := code0, planned0;
    var j := 0;
    assert row[..0] == [];
    while j < |row|
      invariant 0 <= j <= |row|
      invariant var ts := Row(row[..j], y, rowIndex, xmin);
        code == code0 + Visits(ts, planned0 + 1, st) && planned == planned0 + |ts|
    {
      assert row[..j + 1][..j] == row[..j];
      var x := row[j];
      ghost var ts := Row(row[..j], y, rowIndex, xmin);
      assert (ts + [(x, y)])[..|ts|] == ts;
      assert Row(row[..j + 1], y, rowIndex, xmin) == ts + (if Skip(rowIndex, x, xmin) then [] else [(x, y)]);
      if !(rowIndex == 0 && Abs(x - xmin) < 0.001) {
        assert Visits(ts + [(x, y)], planned0 + 1, st) == Visits(ts, planned0 + 1, st) + Visit((x, y), planned + 1, st);
        code := code + [PointNote(planned + 1), MoveTo(x, y, st.height), Probe(st.height + 1.0, st.feed), Lift(st.height)];
        planned := planned + 1;
      } else {
        assert ts + [] == ts;
      }
      j := j + 1;
    }
    assert row[..j] == row;
  }
}
