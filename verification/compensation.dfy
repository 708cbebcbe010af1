/**
  * The compensation pass (`applyCompensation`): every line of the loaded program
  * is copied, or rewritten with its Z raised by the height of the probed mesh,
  * while the pass tracks the modal state of the program and the position of the
  * tool.
  */
module Compensation {
  import opened Common
  import opened Geometry
  import opened Units
  import opened JsNumber
  import opened GcodeText
  import opened HeightMesh
  import opened Segments
  import opened Arcs

  // ---------------------------------------------------------------- one point

  /** A height lookup: the height at a position in millimetres, None when the lookup throws. */
  type Lookup = (real, real) -> Option<real>

  /**
    * The height lookup of a mesh as a function of the position in millimetres.
    * The pass is stated for any lookup `plane`; the mesh object supplies this one.
    */
  function MeshLookup(grid: seq<seq<Point3>>): Lookup {
    (x: real, y: real) => if RowsNonEmpty(grid) then Height(grid, x, y) else None
  }

  /**
    * `compensateZCoord`: the point in millimetres, raised by the height `plane`
    * gives at its x and y, and converted back. None when the lookup throws.
    */
  function CompensateZ(plane: Lookup, pt: Point3, units: Unit): Option<Point3>
  {
    var mm := Point3(Convert(pt.x, units, Millimeters), Convert(pt.y, units, Millimeters), Convert(pt.z, units, Millimeters));
    match plane(mm.x, mm.y)
    case None => None
    case Some(planeZ) =>
      Some(Point3(Convert(mm.x, Millimeters, units), Convert(mm.y, Millimeters, units), Convert(mm.z + planeZ, Millimeters, units)))
  }

  /** `compensateZCoord` on the mesh object. */
  method CompensateZCoord(mesh: Mesh, pt: Point3, units: Unit) returns (c: Option<Point3>)
    requires mesh.Valid()
    ensures c == CompensateZ(MeshLookup(mesh.grid), pt, units)
  {
    var mm := Point3(Convert(pt.x, units, Millimeters), Convert(pt.y, units, Millimeters), Convert(pt.z, units, Millimeters));
    var planeZ := mesh.InterpolateZ(mm.x, mm.y);
    if planeZ.None? {
      return None;
    }
    var newZ := mm.z + planeZ.value;
    c := Some(Point3(Convert(mm.x, Millimeters, units), Convert(mm.y, Millimeters, units), Convert(newZ, Millimeters, units)));
  }

  // ---------------------------------------------------------------- rewritten lines

  /**
    * A rewritten line: `prefix X.. Y.. Z..` with the compensated coordinates, then
    * a comment ` ; ` + `tag` + `Z..` holding the original Z, trimmed.
    */
  function Rewrite(prefix: string, c: Point3, tag: string, z: real): string {
    Trim(prefix + " X" + Fixed3(c.x) + " Y" + Fixed3(c.y) + " Z" + Fixed3(c.z) + " ; " + tag + "Z" + Fixed3(z))
  }

  /**
    * A line of the new program: a line of the old one (possibly trimmed), or a
    * rewritten move `prefix X.. Y.. Z.. ; tag Z..`.
    */
  datatype OutLine = Copied(text: string) | Moved(prefix: string, c: Point3, tag: string, z: real)

  function Text(l: OutLine): string {
    match l
    case Copied(t) => t
    case Moved(prefix, c, tag, z) => Rewrite(prefix, c, tag, z)
  }

  /** The text of every line. */
  function Texts(ls: seq<OutLine>): (r: seq<string>)
    ensures |r| == |ls|
    ensures forall i :: 0 <= i < |ls| ==> r[i] == Text(ls[i])
  {
    if ls == [] then [] else Texts(ls[..|ls| - 1]) + [Text(ls[|ls| - 1])]
  }

  /**
    * The rewritten lines of the points `pts`, one per point in order; None when
    * the mesh lookup throws for one of them.
    */
  function Rewrites(plane: Lookup, pts: seq<Point3>, units: Unit, prefix: string, tag: string): (r: Option<seq<OutLine>>)
    ensures r.None? <==> exists i :: 0 <= i < |pts| && CompensateZ(plane, pts[i], units).None?
    ensures r.Some? ==> |r.value| == |pts|
    ensures r.Some? ==>
      forall i :: 0 <= i < |pts| ==> r.value[i] == Moved(prefix, CompensateZ(plane, pts[i], units).value, tag, pts[i].z)
  {
    if pts == [] then Some([])
    else
      var init := pts[..|pts| - 1];
      var last := pts[|pts| - 1];
      match Rewrites(plane, init, units, prefix, tag)
      case None =>
        assert forall i :: 0 <= i < |init| ==> init[i] == pts[i];
        None
      case Some(ls) =>
        match CompensateZ(plane, last, units)
        case None => None
        case Some(c) =>
          assert forall i :: 0 <= i < |init| ==> init[i] == pts[i];
          Some(ls + [Moved(prefix, c, tag, last.z)])
  }

  /** The loop over the points of a move (`for (let seg of segs)`), one line per point. */
  method RewritePoints(mesh: Mesh, pts: seq<Point3>, units: Unit, prefix: string, tag: string)
      returns (out: Option<seq<OutLine>>)
    requires mesh.Valid()
    ensures out == Rewrites(MeshLookup(mesh.grid), pts, units, prefix, tag)
  {
    ghost var plane := MeshLookup(mesh.grid);
    var result: seq<OutLine> := [];
    var i := 0;
    while i < |pts|
      invariant 0 <= i <= |pts|
      invariant Rewrites(plane, pts[..i], units, prefix, tag) == Some(result)
    {
      var cpt := CompensateZCoord(mesh, pts[i], units);
      RewritesNext(plane, pts, i, units, prefix, tag, result);
      if cpt.None? {
        RewritesStop(plane, pts, i + 1, units, prefix, tag);
        return None;
      }
      result := result + [Moved(prefix, cpt.value, tag, pts[i].z)];
      i := i + 1;
    }
    assert pts[..i] == pts;
    out := Some(result);
  }

  /** One more point of the loop. */
  lemma RewritesNext(plane: Lookup, pts: seq<Point3>, i: nat, units: Unit, prefix: string, tag: string, ls: seq<OutLine>)
    requires i < |pts| && Rewrites(plane, pts[..i], units, prefix, tag) == Some(ls)
    ensures var c := CompensateZ(plane, pts[i], units);
      Rewrites(plane, pts[..i + 1], units, prefix, tag) ==
        if c.None? then None else Some(ls + [Moved(prefix, c.value, tag, pts[i].z)])
  {
    assert pts[..i + 1][..i] == pts[..i];
  }

  /** A point the lookup throws on stops the whole loop. */
  lemma RewritesStop(plane: Lookup, pts: seq<Point3>, j: nat, units: Unit, prefix: string, tag: string)
    requires j <= |pts| && Rewrites(plane, pts[..j], units, prefix, tag).None?
    ensures Rewrites(plane, pts, units, prefix, tag).None?
  {
    var k :| 0 <= k < j && CompensateZ(plane, pts[..j][k], units).None?;
    assert pts[..j][k] == pts[k];
  }

  // ---------------------------------------------------------------- the state of the pass

  /**
    * The variables of the pass: the modes `abs` and `units`, the modal motion, the
    * tool position `pt`, the anchor `p0` of the next move and `p0_initialized`.
    */
  datatype CompState = CompState(abs: bool, units: Unit, motion: Motion, pt: Point3, p0: Point3, init: bool)

  /** Absolute, millimetres, `G0`, both points at the origin, no anchor. */
  const Start: CompState := CompState(true, Millimeters, Rapid, Origin, Origin, false)

  /** `/^\s*\([^\)]*\)\s*$/`: the line is one parenthesised comment and white space. */
  predicate CommentOnly(line: string) {
    var t := Trim(line);
    |t| >= 2 && t[0] == '(' && t[|t| - 1] == ')' && ')' !in t[1..|t| - 1]
  }

  /**
    * The modes after the words of `s`: `G91` is checked before `G90`, so a line holding
    * both ends absolute; `G20` before `G21`; the motion word, if any, replaces the modal motion.
    */
  function Modes(st: CompState, s: string): (r: CompState)
    ensures r.pt == st.pt && r.p0 == st.p0 && r.init == st.init
  {
    var abs := if ContainsCI(s, "G90") then true else if ContainsCI(s, "G91") then false else st.abs;
    var units := if ContainsCI(s, "G21") then Millimeters else if ContainsCI(s, "G20") then Inches else st.units;
    var motion := if FindMotion(s).Some? then FindMotion(s).value else st.motion;
    CompState(abs, units, motion, st.pt, st.p0, st.init)
  }

  /** One coordinate of the target: the word's value when absolute, added to the position when relative. */
  function Coord(v: Option<real>, abs: bool, cur: real): real {
    if v.None? then cur else if abs then v.value else cur + v.value
  }

  /** The target of the line: the position with the X, Y and Z words applied. */
  function Target(st: CompState, s: string): Point3 {
    Point3(Coord(Param(s, "X"), st.abs, st.pt.x), Coord(Param(s, "Y"), st.abs, st.pt.y), Coord(Param(s, "Z"), st.abs, st.pt.z))
  }

  /** The line has an X, Y or Z word (`hasMove`). */
  predicate HasMove(s: string) {
    Param(s, "X").Some? || Param(s, "Y").Some? || Param(s, "Z").Some?
  }

  /** The outcome of one line: the lines written and the new state, or an exception, or a loop that never ends. */
  datatype Step = Emit(lines: seq<OutLine>, next: CompState) | Throws | Hangs

  /** The anchor moved to the position. */
  function Synced(st: CompState): CompState {
    st.(p0 := st.pt, init := true)
  }

  /** The tag in the comment of an arc's lines. */
  function ArcTag(m: Motion): string {
    if m == ArcCW then "G2 " else "G3 "
  }

  /** One line of the program, in the state `st`. */
  function StepLine(plane: Lookup, st: CompState, line: string, delta: real, math: MathLib): Step
  {
    if CommentOnly(line) then Emit([Copied(Trim(line))], st)
    else
      var s := StripComments(line);
      if s == [] then Emit([Copied(line)], st)
      else
        var m := Modes(st, s);
        var cur := m.(pt := Target(m, s));
        if PassThrough(s) then Emit([Copied(line)], if HasMove(s) then Synced(cur) else cur)
        else MotionStep(plane, cur, s, line, HasMove(s), delta, math)
  }

  /**
    * The motion part of a line, once its modes and target are in `st`: straight
    * absolute moves are split and rewritten, arcs with an anchor are turned into
    * `G1` lines, everything else is copied; a probe move forgets the anchor.
    */
  function MotionStep(plane: Lookup, st: CompState, s: string, line: string, moved: bool, delta: real, math: MathLib): Step
  {
    if st.motion == Rapid || st.motion == Linear then
      if !moved then Emit([Copied(line)], st)
      else if !st.abs then Emit([Copied(line)], Synced(st))
      else
        var segs := if st.init then Segments.Split(st.p0, st.pt, MaxSegment(delta, st.units), math) else Some([]);
        if segs.None? then Hangs
        else
          var base := Trim(RemoveCoords(s));
          var out := Rewrites(plane, if segs.value == [] then [st.pt] else segs.value, st.units, base, "");
          if out.None? then Throws else Emit(out.value, Synced(st))
    else if st.motion == ArcCW || st.motion == ArcCCW then
      if !moved then Emit([Copied(line)], st)
      else if !st.init then Emit([Copied(line)], Synced(st))
      else
        var args := ArcArgs(Param(s, "I"), Param(s, "J"), Param(s, "R"));
        var pts := ArcSegments(st.p0, st.pt, args, st.motion == ArcCW, st.units, math);
        var out := Rewrites(plane, pts, st.units, "G1", ArcTag(st.motion));
        if out.None? then Throws else Emit(out.value, Synced(st))
    else
      Emit([Copied(line)], if st.motion.ProbeMove? then st.(init := false) else st)
  }

  /** The body of the pass for one line. */
  method CompensateLine(mesh: Mesh, st: CompState, line: string, delta: real, math: MathLib) returns (step: Step)
    requires mesh.Valid()
    ensures step == StepLine(MeshLookup(mesh.grid), st, line, delta, math)
  {
    if CommentOnly(line) {
      return Emit([Copied(Trim(line))], st);
    }
    var s := StripComments(line);
    if s == [] {
      return Emit([Copied(line)], st);
    }
    var modes := ReadModes(st, s);
    var target, hasMove := ReadTarget(modes, s);
    var cur := modes.(pt := target);
    if PassThrough(s) {
      if hasMove {
        cur := cur.(p0 := cur.pt, init := true);
      }
      return Emit([Copied(line)], cur);
    }
    step := MoveLine(mesh, cur, s, line, hasMove, delta, math);
  }

  /** The mode tests of the body: `G91`, then `G90`, then `G20`, `G21` and the motion word. */
  method ReadModes(st: CompState, s: string) returns (m: CompState)
    ensures m == Modes(st, s)
  {
    var abs := st.abs;
    if ContainsCI(s, "G91") { abs := false; }
    if ContainsCI(s, "G90") { abs := true; }
    var units := st.units;
    if ContainsCI(s, "G20") { units := Inches; }
    if ContainsCI(s, "G21") { units := Millimeters; }
    var motion := st.motion;
    var motionMatch := FindMotion(s);
    if motionMatch.Some? { motion := motionMatch.value; }
    m := CompState(abs, units, motion, st.pt, st.p0, st.init);
  }

  /** The X, Y and Z words of the body: the target and whether the line moves. */
  method ReadTarget(st: CompState, s: string) returns (target: Point3, hasMove: bool)
    ensures target == Target(st, s) && hasMove == HasMove(s)
  {
    var xm := Param(s, "X");
    var ym := Param(s, "Y");
    var zm := Param(s, "Z");
    target, hasMove := MoveTo(st, xm, ym, zm);
  }

  /** The target updates for the words found: absolute values, or offsets from the position. */
  method MoveTo(st: CompState, xm: Option<real>, ym: Option<real>, zm: Option<real>) returns (target: Point3, hasMove: bool)
    ensures target == Point3(Coord(xm, st.abs, st.pt.x), Coord(ym, st.abs, st.pt.y), Coord(zm, st.abs, st.pt.z))
    ensures hasMove == (xm.Some? || ym.Some? || zm.Some?)
  {
    hasMove := false;
    target := st.pt;
    if xm.Some? {
      target := target.(x := if st.abs then xm.value else st.pt.x + xm.value);
      hasMove := true;
    }
    if ym.Some? {
      target := target.(y := if st.abs then ym.value else st.pt.y + ym.value);
      hasMove := true;
    }
    if zm.Some? {
      target := target.(z := if st.abs then zm.value else st.pt.z + zm.value);
      hasMove := true;
    }
  }

  /** The motion part of the body, once the modes and the target are known. */
  method MoveLine(mesh: Mesh, st: CompState, s: string, line: string, hasMove: bool, delta: real, math: MathLib)
      returns (step: Step)
    requires mesh.Valid()
    ensures step == MotionStep(MeshLookup(mesh.grid), st, s, line, hasMove, delta, math)
  {
    if st.motion == Rapid || st.motion == Linear {
      if !hasMove {
        return Emit([Copied(line)], st);
      }
      if !st.abs {
        return Emit([Copied(line)], Synced(st));
      }
      var baseCommand := Trim(RemoveCoords(s));
      var segs: seq<Point3> := [];
      if st.init {
        var split := SplitToSegments(st.p0, st.pt, delta, st.units, math);
        if split.None? {
          return Hangs;
        }
        segs := split.value;
      }
      var out;
      if |segs| == 0 {
        out := RewritePoints(mesh, [st.pt], st.units, baseCommand, "");
      } else {
        out := RewritePoints(mesh, segs, st.units, baseCommand, "");
      }
      if out.None? {
        return Throws;
      }
      return Emit(out.value, Synced(st));
    } else if st.motion == ArcCW || st.motion == ArcCCW {
      if !hasMove {
        return Emit([Copied(line)], st);
      }
      if !st.init {
        return Emit([Copied(line)], Synced(st));
      }
      var args := ArcArgs(Param(s, "I"), Param(s, "J"), Param(s, "R"));
      var points := InterpolateArc(st.p0, st.pt, args, st.motion == ArcCW, st.units, math);
      var out := RewritePoints(mesh, points, st.units, "G1", ArcTag(st.motion));
      if out.None? {
        return Throws;
      }
      return Emit(out.value, Synced(st));
    } else {
      if st.motion.ProbeMove? {
        return Emit([Copied(line)], st.(init := false));
      }
      return Emit([Copied(line)], st);
    }
  }

  // ---------------------------------------------------------------- the whole program

  /** The pass over the lines so far: still running, or stopped at a line that threw or never ends. */
  datatype Progress = Running(result: seq<OutLine>, st: CompState) | Failed(at: nat) | Stuck(at: nat)

  /** The pass over `lines`, line after line from the start state. */
  function Fold(plane: Lookup, lines: seq<string>, delta: real, math: MathLib): Progress
  {
    if lines == [] then Running([], Start)
    else
      match Fold(plane, lines[..|lines| - 1], delta, math)
      case Running(result, st) =>
        (match StepLine(plane, st, lines[|lines| - 1], delta, math)
         case Emit(out, next) => Running(result + out, next)
         case Throws => Failed(|lines| - 1)
         case Hangs => Stuck(|lines| - 1))
      case other => other
  }

  /** How many lines the pass reached: all of them, or up to the one where it stopped. */
  function Reached(p: Progress, total: nat): nat {
    match p
    case Running(_, _) => total
    case Failed(i) => i + 1
    case Stuck(i) => i + 1
  }

  /** What the extension sends to the controller or asks it to load. */
  datatype Outgoing =
    | Send(text: string)                // sendGcode
    | Load(name: string, text: string)  // loadGcode
    | Failure                           // (AL: error occurred ...), the text of the exception

  /** A progress note is sent before every thousandth line. */
  const ProgressEvery: nat := 1000

  function Note(lc: nat, total: nat): string {
    "(AL: progress ...  " + NatToString(lc) + "/" + NatToString(total) + ")"
  }

  /** The progress notes sent before the first `k` lines are handled. */
  function Notes(k: nat, total: nat): seq<Outgoing> {
    if k == 0 then []
    else Notes(k - 1, total) + (if (k - 1) % ProgressEvery == 0 then [Send(Note(k - 1, total))] else [])
  }

  /** One note for every started thousand lines: lines 0, 1000, 2000, ... */
  lemma {:induction false} NotesCount(k: nat, total: nat)
    ensures |Notes(k, total)| == (k + ProgressEvery - 1) / ProgressEvery
  {
    if k > 0 {
      NotesCount(k - 1, total);
    }
  }

  /** Once the pass has stopped, later lines change nothing. */
  lemma {:induction false} FoldStopped(plane: Lookup, lines: seq<string>, k: nat, delta: real, math: MathLib)
    requires k <= |lines|
    requires !Fold(plane, lines[..k], delta, math).Running?
    ensures Fold(plane, lines, delta, math) == Fold(plane, lines[..k], delta, math)
    decreases |lines| - k
  {
    if k < |lines| {
      assert lines[..k + 1][..k] == lines[..k];
      FoldStopped(plane, lines, k + 1, delta, math);
    } else {
      assert lines[..k] == lines;
    }
  }

  /** One more line of the pass. */
  lemma FoldNext(plane: Lookup, lines: seq<string>, k: nat, delta: real, math: MathLib, result: seq<OutLine>, st: CompState,
                 step: Step)
    requires k < |lines| && Fold(plane, lines[..k], delta, math) == Running(result, st)
    requires step == StepLine(plane, st, lines[k], delta, math)
    ensures Fold(plane, lines[..k + 1], delta, math) ==
      if step.Emit? then Running(result + step.lines, step.next) else if step.Throws? then Failed(k) else Stuck(k)
  {
    assert lines[..k + 1][..k] == lines[..k];
  }

  /** The body of the `forEach` for line `k`, as one more step of the pass. */
  method PassLine(mesh: Mesh, lines: seq<string>, k: nat, delta: real, math: MathLib, ghost result: seq<OutLine>,
                  st: CompState) returns (step: Step)
    requires mesh.Valid()
    requires k < |lines| && Fold(MeshLookup(mesh.grid), lines[..k], delta, math) == Running(result, st)
    ensures Fold(MeshLookup(mesh.grid), lines[..k + 1], delta, math) ==
      if step.Emit? then Running(result + step.lines, step.next) else if step.Throws? then Failed(k) else Stuck(k)
  {
    step := CompensateLine(mesh, st, lines[k], delta, math);
    FoldNext(MeshLookup(mesh.grid), lines, k, delta, math, result, st, step);
  }

  /** The `forEach` of the pass: the progress notes and the line bodies, stopping at an exception. */
  method CompensateLines(mesh: Mesh, lines: seq<string>, delta: real, math: MathLib)
      returns (p: Progress, notes: seq<Outgoing>)
    requires mesh.Valid()
    ensures p == Fold(MeshLookup(mesh.grid), lines, delta, math)
    ensures notes == Notes(Reached(p, |lines|), |lines|)
  {
    ghost var plane := MeshLookup(mesh.grid);
    var result: seq<OutLine> := [];
    var st := Start;
    var lc: nat := 0;
    notes := [];
    while lc < |lines|
      invariant lc <= |lines|
      invariant Fold(plane, lines[..lc], delta, math) == Running(result, st)
      invariant notes == Notes(lc, |lines|)
    {
      if lc % ProgressEvery == 0 {
        notes := notes + [Send(Note(lc, |lines|))];
      }
      assert notes == Notes(lc + 1, |lines|);
      var step := PassLine(mesh, lines, lc, delta, math, result, st);
      lc := lc + 1;
      if step.Throws? {
        FoldStopped(plane, lines, lc, delta, math);
        return Failed(lc - 1), notes;
      } else if step.Hangs? {
        FoldStopped(plane, lines, lc, delta, math);
        return Stuck(lc - 1), notes;
      }
      result, st := result + step.lines, step.next;
    }
    assert lines[..lc] == lines;
    p := Running(result, st);
  }

  // ---------------------------------------------------------------- the messages of the pass

  /** The name under which the compensated program is loaded. */
  const Prefix: string := "#AL:"

  /** The messages of a pass, and whether it returns at all. */
  datatype Applied = Applied(sent: seq<Outgoing>, halts: bool)

  /**
    * `applyCompensation` for the probed `points`: the opening note, the progress
    * notes, then either the new program loaded under `#AL:` + the file name and
    * `(AL: finished)`, or the error note; a pass whose split never ends sends
    * nothing more and never returns.
    */
  function Apply(points: seq<Point3>, gcode: string, name: string, delta: real, math: MathLib): Applied {
    var plane := MeshLookup(Rows(SortPoints(points)));
    var lines := GcodeText.Split(gcode, '\n');
    var p := Fold(plane, lines, delta, math);
    var opening := [Send("(AL: applying ...)\n")] + Notes(Reached(p, |lines|), |lines|);
    match p
    case Running(result, _) =>
      Applied(opening + [Send("(AL: loading new gcode " + Prefix + name + " ...)"),
                         Load(Prefix + name, Join(Texts(result), '\n')),
                         Send("(AL: finished)")], true)
    case Failed(_) => Applied(opening + [Failure], true)
    case Stuck(_) => Applied(opening, false)
  }
}
