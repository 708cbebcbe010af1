/**
  * The extent of a loaded program (`gcodeBounds`), computed when a program is
  * loaded: every X and Y word met while the program is in absolute mode widens
  * the range of its axis, converted to millimetres.
  */
module GcodeBounds {
  import opened Common
  import opened Units
  import opened GcodeText

  /** The smallest and the largest value seen on one axis. */
  datatype Range = Range(lo: real, hi: real)

  /**
    * `gcodeBounds`. An axis on which no word was seen is None: the source leaves
    * it at its start values `min = Infinity`, `max = -Infinity`.
    */
  datatype Bounds = Bounds(x: Option<Range>, y: Option<Range>)

  /** The modal state of the scan and the ranges found so far. */
  datatype ScanState = ScanState(abs: bool, units: Unit, x: Option<Range>, y: Option<Range>)

  /** Absolute mode, millimetres, nothing seen. */
  const Start: ScanState := ScanState(true, Millimeters, None, None)

  /** `v` is within the range `r`. */
  predicate InRange(r: Option<Range>, v: real) {
    r.Some? && r.value.lo <= v <= r.value.hi
  }

  /** The range after meeting `v`: the `min`/`max` updates of the scan. */
  function Widen(r: Option<Range>, v: real): Option<Range> {
    match r
    case None => Some(Range(v, v))
    case Some(q) => Some(Range(if v < q.lo then v else q.lo, if v > q.hi then v else q.hi))
  }

  /**
    * The modes after a line: `G90` sets absolute mode and then `G91` sets relative
    * mode, so a line holding both leaves the scan relative; `G20` selects inches and
    * then `G21` millimetres.
    */
  function Modes(st: ScanState, s: string): (r: ScanState)
    ensures r.x == st.x && r.y == st.y
  {
    var abs := if ContainsCI(s, "G91") then false else if ContainsCI(s, "G90") then true else st.abs;
    var units := if ContainsCI(s, "G21") then Millimeters else if ContainsCI(s, "G20") then Inches else st.units;
    ScanState(abs, units, st.x, st.y)
  }

  /**
    * The value (in millimetres) that a line records on the axis `key`, given the
    * state after its mode words: the first `key` word of an absolute line.
    */
  function Recorded(st: ScanState, s: string, key: string): Option<real> {
    if st.abs && (ContainsCI(s, "X") || ContainsCI(s, "Y")) then
      match Param(s, key)
      case None => None
      case Some(v) => Some(Convert(v, st.units, Millimeters))
    else None
  }

  function WidenBy(r: Option<Range>, v: Option<real>): Option<Range> {
    if v.Some? then Widen(r, v.value) else r
  }

  /** One line of the scan, on its comment-free text. */
  function ScanLine(st: ScanState, line: string): ScanState {
    var s := StripComments(line);
    var m := Modes(st, s);
    ScanState(m.abs, m.units, WidenBy(m.x, Recorded(m, s, "X")), WidenBy(m.y, Recorded(m, s, "Y")))
  }

  /** The scan over the first lines of a program. */
  function Scan(lines: seq<string>): ScanState {
    if lines == [] then Start else ScanLine(Scan(lines[..|lines| - 1]), lines[|lines| - 1])
  }

  /** The bounds of a scanned program: None when no X or Y word was recorded (`hasMoves` false). */
  function Finish(st: ScanState): Option<Bounds> {
    if st.x.None? && st.y.None? then None else Some(Bounds(st.x, st.y))
  }

  /** `gcodeBounds` for the program text `gc`. */
  function BoundsOf(gc: string): Option<Bounds> {
    Finish(Scan(Split(gc, '\n')))
  }

  // ------------------------------------------------------------ the values the scan records

  /** The state in which the scan reads line `i`. */
  function Before(lines: seq<string>, i: nat): ScanState
    requires i <= |lines|
  {
    Scan(lines[..i])
  }

  /** The value that line `i` records on the axis `key`, if any. */
  function RecordedAt(lines: seq<string>, i: nat, key: string): Option<real>
    requires i < |lines|
  {
    var s := StripComments(lines[i]);
    Recorded(Modes(Before(lines, i), s), s, key)
  }

  function Listed(v: Option<real>): seq<real> {
    if v.Some? then [v.value] else []
  }

  /** The values recorded on the axis `key` by the lines of the program, in order. */
  function Values(lines: seq<string>, key: string): seq<real> {
    if lines == [] then [] else Values(lines[..|lines| - 1], key) + Listed(RecordedAt(lines, |lines| - 1, key))
  }

  // ------------------------------------------------------------------ the loop

  /**
    * The `gcode:load` scan: walks the lines once, updating the modes, the
    * ranges and `hasMoves`.
    */
  method ScanBounds(gc: string) returns (bounds: Option<Bounds>)
    ensures bounds == BoundsOf(gc)
  {
    var lines := Split(gc, '\n');
    var abs := true;
    var units := Millimeters;
    var x: Option<Range> := None;
    var y: Option<Range> := None;
    var hasMoves := false;
    var i := 0;
    assert lines[..0] == [];
    while i < |lines|
      invariant 0 <= i <= |lines|
      invariant ScanState(abs, units, x, y) == Scan(lines[..i])
      invariant hasMoves <==> x.Some? || y.Some?
    {
      ScanNext(lines, i);
      abs, units, x, y, hasMoves := ScanStep(abs, units, x, y, hasMoves, lines[i]);
      i := i + 1;
    }
    assert lines[..|lines|] == lines;
    if !hasMoves {
      bounds := None;
    } else {
      bounds := Some(Bounds(x, y));
    }
  }

  lemma ScanNext(lines: seq<string>, i: nat)
    requires i < |lines|
    ensures Scan(lines[..i + 1]) == ScanLine(Scan(lines[..i]), lines[i])
  {
    assert lines[..i + 1][..i] == lines[..i];
  }

  /** The body of the scan for one line. */
  method ScanStep(abs0: bool, units0: Unit, x0: Option<Range>, y0: Option<Range>, hasMoves0: bool, line: string)
      returns (abs: bool, units: Unit, x: Option<Range>, y: Option<Range>, hasMoves: bool)
    ensures ScanState(abs, units, x, y) == ScanLine(ScanState(abs0, units0, x0, y0), line)
    ensures var s := StripComments(line); var m := Modes(ScanState(abs0, units0, x0, y0), s);
      hasMoves <==> hasMoves0 || Recorded(m, s, "X").Some? || Recorded(m, s, "Y").Some?
    ensures (hasMoves0 <==> x0.Some? || y0.Some?) ==> (hasMoves <==> x.Some? || y.Some?)
  {
    var s := StripComments(line);
    abs, units := ScanModes(abs0, units0, s);
    x, y, hasMoves := ScanWords(abs, units, x0, y0, hasMoves0, s);
  }

  /** The mode words of a line, in the order the scan tests them. */
  method ScanModes(abs0: bool, units0: Unit, s: string) returns (abs: bool, units: Unit)
    ensures var m := Modes(ScanState(abs0, units0, None, None), s); abs == m.abs && units == m.units
  {
    abs, units := abs0, units0;
    if ContainsCI(s, "G90") { abs := true; }
    if ContainsCI(s, "G91") { abs := false; }
    if ContainsCI(s, "G20") { units := Inches; }
    if ContainsCI(s, "G21") { units := Millimeters; }
  }

  /** The X and Y words of a line, recorded in millimetres when the line is absolute. */
  method ScanWords(abs: bool, units: Unit, x0: Option<Range>, y0: Option<Range>, hasMoves0: bool, s: string)
      returns (x: Option<Range>, y: Option<Range>, hasMoves: bool)
    ensures var m := ScanState(abs, units, x0, y0);
      x == WidenBy(x0, Recorded(m, s, "X")) && y == WidenBy(y0, Recorded(m, s, "Y")) &&
      (hasMoves <==> hasMoves0 || Recorded(m, s, "X").Some? || Recorded(m, s, "Y").Some?) &&
      ((hasMoves0 <==> x0.Some? || y0.Some?) ==> (hasMoves <==> x.Some? || y.Some?))
  {
    x, y, hasMoves := x0, y0, hasMoves0;
    if abs && (ContainsCI(s, "X") || ContainsCI(s, "Y")) {
      var xm := Param(s, "X");
      var ym := Param(s, "Y");
      if xm.Some? {
        x := Widen(x, Convert(xm.value, units, Millimeters));
        hasMoves := true;
      }
      if ym.Some? {
        y := Widen(y, Convert(ym.value, units, Millimeters));
        hasMoves := true;
      }
    }
  }

  // ---------------------------------------------------------------- properties

  /** The range the scan keeps for the axis `key`. */
  function Axis(st: ScanState, key: string): Option<Range> {
    if key == "X" then st.x else st.y
  }

  /**
    * `r` is exactly the span of the values `vs`: missing when there are none,
    * otherwise holding every one of them and having one of them at each end.
    */
  predicate Spans(r: Option<Range>, vs: seq<real>) {
    (r.None? <==> |vs| == 0) &&
    (r.Some? ==> (forall v :: v in vs ==> r.value.lo <= v <= r.value.hi) && r.value.lo in vs && r.value.hi in vs)
  }

  /** Widening by a recorded value keeps the range the span of the values. */
  lemma WidenSpans(r: Option<Range>, vs: seq<real>, v: Option<real>)
    requires Spans(r, vs)
    ensures Spans(WidenBy(r, v), vs + Listed(v))
  {
    if v.Some? {
      var ws := vs + [v.value];
      assert forall w :: w in ws <==> w in vs || w == v.value;
    } else {
      assert vs + [] == vs;
    }
  }

  /** The last line of the scan, as the step from the scan of the lines before it. */
  lemma ScanLast(lines: seq<string>, key: string)
    requires key == "X" || key == "Y"
    requires lines != []
    ensures Axis(Scan(lines), key) == WidenBy(Axis(Scan(lines[..|lines| - 1]), key), RecordedAt(lines, |lines| - 1, key))
  {
    var init := lines[..|lines| - 1];
    assert lines[..|lines| - 1] == init;
    var s := StripComments(lines[|lines| - 1]);
    var m := Modes(Scan(init), s);
    assert Axis(m, key) == Axis(Scan(init), key);
  }

  /** The range of an axis is exactly the span of the values recorded on it. */
  lemma {:induction false} ScanSpan(lines: seq<string>, key: string)
    requires key == "X" || key == "Y"
    ensures Spans(Axis(Scan(lines), key), Values(lines, key))
  {
    if lines != [] {
      var init := lines[..|lines| - 1];
      ScanSpan(init, key);
      ScanLast(lines, key);
      WidenSpans(Axis(Scan(init), key), Values(init, key), RecordedAt(lines, |lines| - 1, key));
    }
  }

  /** Every value a line records is among the values of the program. */
  lemma {:induction false} RecordedInValues(lines: seq<string>, i: nat, key: string)
    requires i < |lines|
    requires RecordedAt(lines, i, key).Some?
    ensures RecordedAt(lines, i, key).value in Values(lines, key)
  {
    var init := lines[..|lines| - 1];
    var v := RecordedAt(lines, |lines| - 1, key);
    assert Values(lines, key) == Values(init, key) + Listed(v);
    if i < |lines| - 1 {
      assert init[..i] == lines[..i];
      assert init[i] == lines[i];
      assert RecordedAt(init, i, key) == RecordedAt(lines, i, key);
      RecordedInValues(init, i, key);
    }
  }

  /**
    * Every X and Y word of an absolute line lies within the bounds, in
    * millimetres, and no bounds are reported for a program without such words.
    */
  lemma BoundsContain(gc: string, i: nat, key: string)
    requires key == "X" || key == "Y"
    requires i < |Split(gc, '\n')|
    ensures var lines := Split(gc, '\n'); var v := RecordedAt(lines, i, key);
      v.Some? ==> BoundsOf(gc).Some? && InRange(Axis(Scan(lines), key), v.value)
  {
    var lines := Split(gc, '\n');
    if RecordedAt(lines, i, key).Some? {
      RecordedInValues(lines, i, key);
      ScanSpan(lines, key);
    }
  }

  /** The bounds are missing exactly when neither axis recorded a value. */
  lemma BoundsMissing(gc: string)
    ensures var lines := Split(gc, '\n');
      BoundsOf(gc).None? <==> |Values(lines, "X")| == 0 && |Values(lines, "Y")| == 0
  {
    ScanSpan(Split(gc, '\n'), "X");
    ScanSpan(Split(gc, '\n'), "Y");
  }

  /** A line holding both `G90` and `G91` leaves the scan in relative mode, whatever came before. */
  lemma RelativeWins(st: ScanState, line: string)
    requires ContainsCI(StripComments(line), "G91")
    ensures !ScanLine(st, line).abs
    ensures Recorded(Modes(st, StripComments(line)), StripComments(line), "X").None?
  {
  }
}
