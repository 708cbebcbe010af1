/**
  * Properties of the compensation pass: what happens to one point, which lines
  * are copied and which are rewritten, and what the pass does to a program that
  * has nothing to compensate.
  */
module CompensationProperties {
  import opened Common
  import opened Geometry
  import opened Units
  import opened JsNumber
  import opened GcodeText
  import opened HeightMesh
  import opened Segments
  import opened Arcs
  import opened ArcProperties
  import GcodeBounds
  import opened Compensation

  // ---------------------------------------------------------------- one point

  /**
    * Compensating a point keeps its x and y (millimetres and inches convert back
    * exactly) and adds the height at its position, converted to the program's
    * units, to its z; it fails exactly when the lookup fails.
    */
  lemma CompensateShape(plane: Lookup, pt: Point3, units: Unit)
    ensures var h := plane(Convert(pt.x, units, Millimeters), Convert(pt.y, units, Millimeters));
      var c := CompensateZ(plane, pt, units);
      (c.None? <==> h.None?) &&
      (c.Some? ==> c.value.x == pt.x && c.value.y == pt.y && c.value.z == pt.z + Convert(h.value, Millimeters, units))
  {
    var h := plane(Convert(pt.x, units, Millimeters), Convert(pt.y, units, Millimeters));
    if h.Some? {
      ConvertRoundTrip(pt.x, units, Millimeters);
      ConvertRoundTrip(pt.y, units, Millimeters);
      ConvertAdditive(Convert(pt.z, units, Millimeters), h.value, Millimeters, units);
      ConvertRoundTrip(pt.z, units, Millimeters);
    }
  }

  /** With no probed points the mesh is empty, its height is 0, and every point is kept as it is. */
  lemma NoPointsNoChange(points: seq<Point3>, pt: Point3, units: Unit)
    requires |points| == 0
    ensures CompensateZ(MeshLookup(Rows(SortPoints(points))), pt, units) == Some(pt)
  {
    var g := Rows(SortPoints(points));
    assert |g| == 0;
    var plane := MeshLookup(g);
    assert plane(Convert(pt.x, units, Millimeters), Convert(pt.y, units, Millimeters)) == Some(0.0);
    CompensateShape(plane, pt, units);
  }

  // ---------------------------------------------------------------- one line

  /** A line that is only a parenthesised comment is written trimmed; the state does not change. */
  lemma CommentLine(plane: Lookup, st: CompState, line: string, delta: real, math: MathLib)
    requires CommentOnly(line)
    ensures StepLine(plane, st, line, delta, math) == Emit([Copied(Trim(line))], st)
  {
  }

  /** A line with nothing left once comments and white space are removed is copied; the state does not change. */
  lemma BlankLine(plane: Lookup, st: CompState, line: string, delta: real, math: MathLib)
    requires !CommentOnly(line) && StripComments(line) == []
    ensures StepLine(plane, st, line, delta, math) == Emit([Copied(line)], st)
  {
  }

  /** The line is neither a comment nor blank, so its words are read. */
  predicate Worded(line: string) {
    !CommentOnly(line) && StripComments(line) != []
  }

  /**
    * A line with an offset, dwell, machine-coordinate, work-system or M word is
    * copied verbatim; the position follows its coordinates and, when it has any,
    * the anchor moves there.
    */
  lemma PassThroughLine(plane: Lookup, st: CompState, line: string, delta: real, math: MathLib)
    requires Worded(line) && PassThrough(StripComments(line))
    ensures var s := StripComments(line);
      var step := StepLine(plane, st, line, delta, math);
      step.Emit? && step.lines == [Copied(line)] &&
      step.next.pt == Target(Modes(st, s), s) &&
      (HasMove(s) ==> step.next.init && step.next.p0 == step.next.pt) &&
      (!HasMove(s) ==> step.next.init == st.init && step.next.p0 == st.p0)
  {
  }

  /** The state in which the motion part of a worded line is decided: its modes and its target. */
  function Current(st: CompState, s: string): CompState {
    var m := Modes(st, s);
    m.(pt := Target(m, s))
  }

  /** Any other worded line is decided by its motion, in the state after its modes and target. */
  lemma MotionLine(plane: Lookup, st: CompState, line: string, delta: real, math: MathLib)
    requires Worded(line) && !PassThrough(StripComments(line))
    ensures var s := StripComments(line);
      StepLine(plane, st, line, delta, math) == MotionStep(plane, Current(st, s), s, line, HasMove(s), delta, math)
  {
  }

  /** The motion part of every line gives at least one line of the new program. */
  lemma MotionWrites(plane: Lookup, cur: CompState, s: string, line: string, moved: bool, delta: real, math: MathLib)
    ensures var step := MotionStep(plane, cur, s, line, moved, delta, math);
      step.Emit? ==> |step.lines| >= 1
  {
    if (cur.motion == ArcCW || cur.motion == ArcCCW) && moved && cur.init {
      var args := ArcArgs(Param(s, "I"), Param(s, "J"), Param(s, "R"));
      assert |ArcSegments(cur.p0, cur.pt, args, cur.motion == ArcCW, cur.units, math)| >= 1;
    }
  }

  /** Every line gives at least one line of the new program. */
  lemma StepWrites(plane: Lookup, st: CompState, line: string, delta: real, math: MathLib)
    ensures var step := StepLine(plane, st, line, delta, math);
      step.Emit? ==> |step.lines| >= 1
  {
    var s := StripComments(line);
    if Worded(line) && !PassThrough(s) {
      MotionLine(plane, st, line, delta, math);
      MotionWrites(plane, Current(st, s), s, line, HasMove(s), delta, math);
    }
  }

  /** A relative `G0`/`G1` move is copied verbatim (uncompensated) and the anchor follows it. */
  lemma RelativeMove(plane: Lookup, cur: CompState, s: string, line: string, delta: real, math: MathLib)
    requires !cur.abs && (cur.motion == Rapid || cur.motion == Linear)
    ensures MotionStep(plane, cur, s, line, true, delta, math) == Emit([Copied(line)], cur.(p0 := cur.pt, init := true))
  {
  }

  /** After a probe move (`G38.x`) the anchor is no longer valid; the line is copied. */
  lemma ProbeForgetsAnchor(plane: Lookup, cur: CompState, s: string, line: string, moved: bool, delta: real, math: MathLib)
    requires cur.motion.ProbeMove?
    ensures var step := MotionStep(plane, cur, s, line, moved, delta, math);
      step.Emit? && step.lines == [Copied(line)] && !step.next.init && step.next.pt == cur.pt
  {
  }

  /** A line without coordinates is copied, whatever its motion. */
  lemma NoMoveCopied(plane: Lookup, cur: CompState, s: string, line: string, delta: real, math: MathLib)
    ensures var step := MotionStep(plane, cur, s, line, false, delta, math);
      step.Emit? && step.lines == [Copied(line)] && step.next.pt == cur.pt && step.next.p0 == cur.p0
  {
  }

  /**
    * An absolute `G0`/`G1` move without an anchor gives one rewritten line: the
    * command without its coordinates, then the compensated target, and the
    * target's own z in the comment.
    */
  lemma FirstAbsoluteMove(plane: Lookup, cur: CompState, s: string, line: string, delta: real, math: MathLib)
    requires cur.abs && !cur.init && (cur.motion == Rapid || cur.motion == Linear)
    ensures var c := CompensateZ(plane, cur.pt, cur.units);
      var step := MotionStep(plane, cur, s, line, true, delta, math);
      (c.None? <==> step.Throws?) &&
      (c.Some? ==> step == Emit([Moved(Trim(RemoveCoords(s)), c.value, "", cur.pt.z)], cur.(p0 := cur.pt, init := true)))
  {
    var r := Rewrites(plane, [cur.pt], cur.units, Trim(RemoveCoords(s)), "");
    if r.Some? {
      assert r.value == [r.value[0]];
    }
  }

  /**
    * An absolute `G0`/`G1` move from an anchor is written as one line per piece
    * of the split move (or one line for the target when the move is too short to
    * split), each with the command without its coordinates; a split that would
    * never end is the only way the line hangs.
    */
  lemma SplitMove(plane: Lookup, cur: CompState, s: string, line: string, delta: real, math: MathLib)
    requires cur.abs && cur.init && (cur.motion == Rapid || cur.motion == Linear)
    ensures var segs := Segments.Split(cur.p0, cur.pt, MaxSegment(delta, cur.units), math);
      var pts := if segs.Some? && segs.value != [] then segs.value else [cur.pt];
      var step := MotionStep(plane, cur, s, line, true, delta, math);
      (segs.None? <==> step.Hangs?) &&
      (step.Emit? ==> |step.lines| == |pts| && step.next.p0 == cur.pt && step.next.init) &&
      (step.Emit? ==> forall k :: 0 <= k < |pts| ==>
        step.lines[k].Moved? && step.lines[k].prefix == Trim(RemoveCoords(s)) && step.lines[k].z == pts[k].z)
  {
    var segs := Segments.Split(cur.p0, cur.pt, MaxSegment(delta, cur.units), math);
    var step := MotionStep(plane, cur, s, line, true, delta, math);
    if segs.Some? {
      var pts := if segs.value != [] then segs.value else [cur.pt];
      var out := Rewrites(plane, pts, cur.units, Trim(RemoveCoords(s)), "");
      assert step == if out.None? then Throws else Emit(out.value, Synced(cur));
      if out.Some? {
        forall k | 0 <= k < |pts|
          ensures out.value[k].Moved? && out.value[k].prefix == Trim(RemoveCoords(s)) && out.value[k].z == pts[k].z
        {
          assert out.value[k] == Moved(Trim(RemoveCoords(s)), CompensateZ(plane, pts[k], cur.units).value, "", pts[k].z);
        }
      }
    }
  }

  /**
    * An arc from an anchor is written only as `G1` lines, one per point of the
    * linearised arc, tagged `G2` or `G3`; the last one carries the arc's end z.
    */
  lemma ArcAsLines(plane: Lookup, cur: CompState, s: string, line: string, delta: real, math: MathLib)
    requires cur.init && (cur.motion == ArcCW || cur.motion == ArcCCW)
    ensures var step := MotionStep(plane, cur, s, line, true, delta, math);
      !step.Hangs? &&
      (step.Emit? ==> |step.lines| >= 1 && step.lines[|step.lines| - 1].z == cur.pt.z) &&
      (step.Emit? ==> forall k :: 0 <= k < |step.lines| ==>
        step.lines[k].Moved? && step.lines[k].prefix == "G1" && step.lines[k].tag == ArcTag(cur.motion))
  {
    var args := ArcArgs(Param(s, "I"), Param(s, "J"), Param(s, "R"));
    ArcHeights(cur.p0, cur.pt, args, cur.motion == ArcCW, cur.units, math);
  }

  /** The text of a rewritten arc line starts with `G1 X`. */
  lemma ArcLineText(c: Point3, tag: string, z: real)
    ensures var t := Text(Moved("G1", c, tag, z)); |t| >= 4 && t[..4] == "G1 X"
  {
    var u := "G1" + " X" + Fixed3(c.x) + " Y" + Fixed3(c.y) + " Z" + Fixed3(c.z) + " ; " + tag + "Z" + Fixed3(z);
    var f := Fixed3(z);
    assert u[|u| - 1] == f[|f| - 1];
    assert IsDigit(f[|f| - 1]);
    assert TrimStart(u) == u;
    assert TrimEnd(u) == u;
    assert u[..4] == "G1 X";
  }

  /**
    * A line holding both `G90` and `G91` leaves the pass absolute, while the
    * bounds scan reads the same line as relative.
    */
  lemma ModeOrderDiffers(st: CompState, bst: GcodeBounds.ScanState, s: string)
    requires ContainsCI(s, "G90") && ContainsCI(s, "G91")
    ensures Modes(st, s).abs
    ensures !GcodeBounds.Modes(bst, s).abs
  {
  }

  // ---------------------------------------------------------------- the whole program

  /** One more line: the pass so far, then that line. */
  lemma FoldLast(plane: Lookup, lines: seq<string>, delta: real, math: MathLib)
    requires lines != []
    ensures var p := Fold(plane, lines[..|lines| - 1], delta, math);
      var step := if p.Running? then StepLine(plane, p.st, lines[|lines| - 1], delta, math) else Throws;
      p.Running? && step.Emit? ==> Fold(plane, lines, delta, math) == Running(p.result + step.lines, step.next)
  {
  }

  /** The new program has at least as many lines as the lines handled. */
  lemma {:induction false} FoldWrites(plane: Lookup, lines: seq<string>, delta: real, math: MathLib)
    ensures var p := Fold(plane, lines, delta, math); p.Running? ==> |p.result| >= |lines|
  {
    if lines != [] {
      var init := lines[..|lines| - 1];
      FoldWrites(plane, init, delta, math);
      var p := Fold(plane, init, delta, math);
      if p.Running? {
        StepWrites(plane, p.st, lines[|lines| - 1], delta, math);
        FoldLast(plane, lines, delta, math);
      }
    }
  }

  /**
    * A line the pass leaves alone: it has no X, Y or Z word, and if it is a
    * comment-only line it is already trimmed.
    */
  predicate Untouched(line: string) {
    (CommentOnly(line) ==> Trim(line) == line) && !HasMove(StripComments(line))
  }

  /** An untouched line is copied as it is. */
  lemma UntouchedStep(plane: Lookup, st: CompState, line: string, delta: real, math: MathLib)
    requires Untouched(line)
    ensures StepLine(plane, st, line, delta, math).Emit?
    ensures StepLine(plane, st, line, delta, math).lines == [Copied(line)]
  {
    var s := StripComments(line);
    if Worded(line) && !PassThrough(s) {
      MotionLine(plane, st, line, delta, math);
      NoMoveCopied(plane, Current(st, s), s, line, delta, math);
    }
  }

  lemma TextsSnoc(ls: seq<OutLine>, l: OutLine)
    ensures Texts(ls + [l]) == Texts(ls) + [Text(l)]
  {
  }

  /** A program of untouched lines comes out line for line the same. */
  lemma {:induction false} FoldUntouched(plane: Lookup, lines: seq<string>, delta: real, math: MathLib)
    requires forall i :: 0 <= i < |lines| ==> Untouched(lines[i])
    ensures var p := Fold(plane, lines, delta, math); p.Running? && Texts(p.result) == lines
  {
    if lines != [] {
      var init := lines[..|lines| - 1];
      var last := lines[|lines| - 1];
      assert forall i :: 0 <= i < |init| ==> init[i] == lines[i];
      FoldUntouched(plane, init, delta, math);
      var p := Fold(plane, init, delta, math);
      CopiedLast(plane, lines, delta, math, p.result, p.st);
      TextsSnoc(p.result, Copied(last));
      LastSplit(lines);
    }
  }

  lemma LastSplit<T>(s: seq<T>)
    requires s != []
    ensures s[..|s| - 1] + [s[|s| - 1]] == s
  {
  }

  /** An untouched last line adds itself to the new program. */
  lemma CopiedLast(plane: Lookup, lines: seq<string>, delta: real, math: MathLib, result: seq<OutLine>, st: CompState)
    requires lines != [] && Untouched(lines[|lines| - 1])
    requires Fold(plane, lines[..|lines| - 1], delta, math) == Running(result, st)
    ensures Fold(plane, lines, delta, math).Running?
    ensures Fold(plane, lines, delta, math).result == result + [Copied(lines[|lines| - 1])]
  {
    UntouchedStep(plane, st, lines[|lines| - 1], delta, math);
    FoldLast(plane, lines, delta, math);
  }

  /**
    * Compensating a program whose lines all are untouched loads, under the
    * `#AL:` name, exactly the text of the program.
    */
  lemma ApplyUntouched(points: seq<Point3>, gcode: string, name: string, delta: real, math: MathLib)
    requires forall i :: 0 <= i < |GcodeText.Split(gcode, '\n')| ==> Untouched(GcodeText.Split(gcode, '\n')[i])
    ensures Apply(points, gcode, name, delta, math).halts
    ensures Load(Prefix + name, gcode) in Apply(points, gcode, name, delta, math).sent
  {
    var lines := GcodeText.Split(gcode, '\n');
    var plane := MeshLookup(Rows(SortPoints(points)));
    FoldUntouched(plane, lines, delta, math);
    JoinSplit(gcode, '\n');
    var a := Apply(points, gcode, name, delta, math);
    assert a.sent[|a.sent| - 2] == Load(Prefix + name, gcode);
  }
}
