/**
  * Three runs of the planner worked through: `#autolevel GRID3 X10 Y10 M0 P1` on a
  * 10 x 10 area plans 9 points (0, 5 and 10 on each axis), and `GRID2` plans 4
  * (the corners) even when a step `D2` is given; `X5 Y5` with the default step
  * leaves a rectangle of one point and probes it alone.
  */
module PlannerExamples {
  import opened Common
  import opened JsNumber
  import opened GcodeText
  import opened Segments
  import opened Planner
  import opened PlannerProperties

  // ---------------------------------------------------------------- reading words

  /** A whole number written in decimal digits is read as its value. */
  lemma ParseWhole(ds: string)
    requires |ds| > 0 && AllDigits(ds)
    ensures ParseFloat(ds) == DigitsValue(ds) as real
  {
    assert ds + [] == ds;
    DigitRunOfDigits(ds, []);
    assert ds[|ds|..] == [];
  }

  lemma NumRunPrefix(t: string, n: nat)
    requires n <= |t| && forall i :: 0 <= i < n ==> IsNumChar(t[i])
    requires n < |t| ==> !IsNumChar(t[n])
    ensures NumRun(t) == t[..n]
  {
  }

  /** Neither case of the letter `c` (upper case) and `lc` (its lower case) occurs in `s`. */
  lemma LetterAbsent(s: string, c: char, lc: char)
    requires 'A' <= c <= 'Z' && lc as int == c as int + 32
    requires c !in s && lc !in s
    ensures forall j :: 0 <= j < |s| ==> Upper(s[j]) != c
  {
  }

  /** The first match of `key` is at `k` when no earlier character could start it. */
  lemma LeftmostIs(s: string, key: string, k: nat)
    requires |key| > 0 && ParamAt(s, key, k)
    requires forall j :: 0 <= j < k ==> Upper(s[j]) != key[0]
    ensures Param(s, key) == Some(ParseFloat(FieldAfter(s, key, k)))
  {
    var m := ParamIndexFrom(s, key, 0);
    assert m != -1;
  }

  /** A field of `n` digits, ended by the end of `s` or by a character outside `[.+\-0-9]`. */
  lemma FieldIs(s: string, key: string, k: nat, n: nat)
    requires k + |key| + n <= |s| && 0 < n
    requires forall i :: k + |key| <= i < k + |key| + n ==> IsDigit(s[i])
    requires k + |key| + n < |s| ==> !IsNumChar(s[k + |key| + n])
    ensures ParseFloat(FieldAfter(s, key, k)) == DigitsValue(s[k + |key|..k + |key| + n]) as real
  {
    var t := s[k + |key|..];
    NumRunPrefix(t, n);
    assert t[..n] == s[k + |key|..k + |key| + n];
    ParseWhole(t[..n]);
  }

  /** The word `key ds` written after `pre` matches at the end of `pre`. */
  lemma WordAt(pre: string, key: string, ds: string, post: string)
    requires |key| > 0 && (forall i :: 0 <= i < |key| ==> Upper(key[i]) == key[i])
    requires |ds| > 0 && AllDigits(ds)
    ensures ParamAt(pre + key + ds + post, key, |pre|)
    ensures (pre + key + ds + post)[|pre| + |key|..|pre| + |key| + |ds|] == ds
  {
    var s := pre + key + ds + post;
    assert s[|pre|..][..|key|] == key;
  }

  /**
    * The value of the word `key` written as `key ds` after the text `pre`, in which
    * the key's first letter does not occur, and followed by a character that
    * cannot continue a number (or by nothing).
    */
  lemma WordValue(pre: string, key: string, lc: char, ds: string, post: string)
    requires |key| > 0 && (forall i :: 0 <= i < |key| ==> Upper(key[i]) == key[i])
    requires 'A' <= key[0] <= 'Z' && lc as int == key[0] as int + 32
    requires key[0] !in pre && lc !in pre
    requires |ds| > 0 && AllDigits(ds)
    requires post == [] || !IsNumChar(post[0])
    ensures Param(pre + key + ds + post, key) == Some(DigitsValue(ds) as real)
  {
    var s := pre + key + ds + post;
    var k := |pre|;
    LetterAbsent(pre, key[0], lc);
    assert forall j :: 0 <= j < k ==> s[j] == pre[j];
    WordAt(pre, key, ds, post);
    LeftmostIs(s, key, k);
    DigitsAt(s, k + |key|, ds);
    if post != [] {
      assert s[k + |key| + |ds|] == post[0];
    }
    FieldIs(s, key, k, |ds|);
  }

  lemma DigitsAt(s: string, from: nat, ds: string)
    requires from + |ds| <= |s| && s[from..from + |ds|] == ds && AllDigits(ds)
    ensures forall i :: from <= i < from + |ds| ==> IsDigit(s[i])
  {
    forall i | from <= i < from + |ds| ensures IsDigit(s[i]) {
      assert s[i] == ds[i - from];
    }
  }

  /** A word whose first letter appears nowhere in `s` is absent. */
  lemma ParamAbsent(s: string, key: string, c: char, lc: char)
    requires |key| > 0 && key[0] == c && 'A' <= c <= 'Z' && lc as int == c as int + 32
    requires c !in s && lc !in s
    ensures Param(s, key) == None
  {
    LetterAbsent(s, c, lc);
  }

  lemma DigitValues()
    ensures DigitsValue("0") == 0 && DigitsValue("1") == 1 && DigitsValue("2") == 2 && DigitsValue("3") == 3
    ensures DigitsValue("10") == 10
  {
    assert "10"[..1] == "1";
    assert "1"[..0] == "";
  }

  // ---------------------------------------------------------------- GRID3

  const Grid3Command: string := "#autolevel GRID3 X10 Y10 M0 P1"

  /**
    * The words of the command. `D` matches the `D3` inside `GRID3`, so the stored
    * step becomes 3 as a side effect.
    */
  lemma Grid3Words()
    ensures ParseRequest(Grid3Command) == Grid3Request
  {
    DigitValues();
    Grid3P();
    Grid3D();
    Grid3Absent();
    Grid3M();
    Grid3X();
    Grid3Y();
    Grid3Grid();
  }

  lemma Grid3Absent() ensures Param(Grid3Command, "H") == None && Param(Grid3Command, "F") == None {
    Grid3H();
    Grid3F();
  }

  lemma Grid3H() ensures Param(Grid3Command, "H") == None {
    var s := Grid3Command;
    assert 'H' !in s;
    assert 'h' !in s;
    ParamAbsent(s, "H", 'H', 'h');
  }

  lemma Grid3F() ensures Param(Grid3Command, "F") == None {
    var s := Grid3Command;
    assert 'F' !in s;
    assert 'f' !in s;
    ParamAbsent(s, "F", 'F', 'f');
  }

  lemma Grid3P() ensures Param(Grid3Command, "P") == Some(DigitsValue("1") as real) {
    assert Grid3Command == "#autolevel GRID3 X10 Y10 M0 " + "P" + "1" + "";
    assert 'P' !in "#autolevel GRID3 X10 Y10 M0 " && 'p' !in "#autolevel GRID3 X10 Y10 M0 ";
    WordValue("#autolevel GRID3 X10 Y10 M0 ", "P", 'p', "1", "");
  }

  lemma Grid3D() ensures Param(Grid3Command, "D") == Some(DigitsValue("3") as real) {
    assert Grid3Command == "#autolevel GRI" + "D" + "3" + " X10 Y10 M0 P1";
    assert 'D' !in "#autolevel GRI" && 'd' !in "#autolevel GRI";
    WordValue("#autolevel GRI", "D", 'd', "3", " X10 Y10 M0 P1");
  }

  lemma Grid3M() ensures Param(Grid3Command, "M") == Some(DigitsValue("0") as real) {
    assert Grid3Command == "#autolevel GRID3 X10 Y10 " + "M" + "0" + " P1";
    assert 'M' !in "#autolevel GRID3 X10 Y10 " && 'm' !in "#autolevel GRID3 X10 Y10 ";
    WordValue("#autolevel GRID3 X10 Y10 ", "M", 'm', "0", " P1");
  }

  lemma Grid3X() ensures Param(Grid3Command, "X") == Some(DigitsValue("10") as real) {
    assert Grid3Command == "#autolevel GRID3 " + "X" + "10" + " Y10 M0 P1";
    assert 'X' !in "#autolevel GRID3 " && 'x' !in "#autolevel GRID3 ";
    WordValue("#autolevel GRID3 ", "X", 'x', "10", " Y10 M0 P1");
  }

  lemma Grid3Y() ensures Param(Grid3Command, "Y") == Some(DigitsValue("10") as real) {
    assert Grid3Command == "#autolevel GRID3 X10 " + "Y" + "10" + " M0 P1";
    assert 'Y' !in "#autolevel GRID3 X10 " && 'y' !in "#autolevel GRID3 X10 ";
    WordValue("#autolevel GRID3 X10 ", "Y", 'y', "10", " M0 P1");
  }

  lemma Grid3Grid() ensures Param(Grid3Command, "GRID") == Some(DigitsValue("3") as real) {
    assert Grid3Command == "#autolevel " + "GRID" + "3" + " X10 Y10 M0 P1";
    assert 'G' !in "#autolevel " && 'g' !in "#autolevel ";
    WordValue("#autolevel ", "GRID", 'g', "3", " X10 Y10 M0 P1");
  }

  // ---------------------------------------------------------------- the GRID3 plan

  /** GRID 3 on the 10 mm axis: the positions 0, 5 and 10. */
  lemma Grid3Axis()
    ensures AxisValues(0.0, 10.0, 5.0) == Some([0.0, 5.0, 10.0])
  {
    assert (10.0 - 0.0) / (3 - 1) as real == 5.0;
    GridAxis(0.0, 10.0, 3);
    var vs := AxisValues(0.0, 10.0, 5.0).value;
    assert vs[0] == 0.0 + Multiple(0, 5.0) == 0.0;
    assert vs[1] == 0.0 + Multiple(1, 5.0) == 5.0;
    assert vs == [vs[0], vs[1], vs[2]];
  }

  /** The first row skips the initial point; the other two probe all three positions. */
  lemma Grid3Targets()
    ensures |Targets([0.0, 5.0, 10.0], [0.0, 5.0, 10.0], 0.0)| == 8
  {
    var xs := [0.0, 5.0, 10.0];
    assert |Row(xs, 0.0, 0, 0.0)| == 2 by {
      assert Row(xs[..1], 0.0, 0, 0.0) == [] by { assert xs[..1][..0] == []; }
      assert Row(xs[..2], 0.0, 0, 0.0) == [(5.0, 0.0)] by { assert xs[..2][..1] == xs[..1]; }
      assert xs[..|xs| - 1] == xs[..2];
    }
    RowLength(Oriented(xs, 1), 5.0, 1, 0.0);
    RowLength(Oriented(xs, 2), 10.0, 2, 0.0);
    assert |Targets(xs, xs[..1], 0.0)| == 2 by { assert xs[..1][..0] == []; }
    assert |Targets(xs, xs[..2], 0.0)| == 5 by { assert xs[..2][..1] == xs[..1]; }
    assert xs[..|xs| - 1] == xs[..2];
  }

  lemma Grid3Spacing(delta: real)
    ensures Spacing(0.0, 10.0, Some(3.0), delta) == Some(5.0)
  {
    assert GridPoints(3.0) == 3.0;
    assert (10.0 - 0.0) / (3.0 - 1.0) == 5.0;
  }

  /** The words of `#autolevel GRID3 X10 Y10 M0 P1`. */
  const Grid3Request: Request :=
    Request(Some(1.0), Some(3.0), None, None, Some(0.0), Some(10.0), Some(10.0), Some(3.0))

  const Area: Context := Context(0.0, 10.0, 0.0, 10.0)

  lemma Grid3Planned(st: Settings)
    ensures var p := PlanFor(Grid3Request, Update(st, Grid3Request), None, Area);
      p.Planned? && p.count == 9
  {
    var req := Grid3Request;
    var st' := Update(st, req);
    assert Margin(st', req) == 0.0;
    assert AxisRange(req.xSize, None, "X", 0.0, 10.0, 0.0) == Some((0.0, 10.0));
    assert AxisRange(req.ySize, None, "Y", 0.0, 10.0, 0.0) == Some((0.0, 10.0));
    Grid3Spacing(st'.delta);
    assert PlanFor(req, st', None, Area) == Plan(0.0, 10.0, 5.0, 0.0, 10.0, 5.0, st');
    Grid3Axis();
    Grid3Targets();
  }

  /**
    * `#autolevel GRID3 X10 Y10 M0 P1` on a 10 x 10 area with no program loaded
    * plans 9 points: the initial one and the 8 others of the 3 x 3 grid.
    */
  lemma Grid3Plan(st: Settings)
    ensures var req := ParseRequest(Grid3Command);
      var p := PlanFor(req, Update(st, req), None, Area);
      p.Planned? && p.count == 9
  {
    Grid3Words();
    Grid3Planned(st);
  }

  // ---------------------------------------------------------------- GRID2 with a step

  const Grid2Command: string := "#autolevel GRID2 D2 X10 Y10 M0 P1"

  /** The words of `#autolevel GRID2 D2 X10 Y10 M0 P1`: `D` matches inside `GRID2`. */
  const Grid2Request: Request :=
    Request(Some(1.0), Some(2.0), None, None, Some(0.0), Some(10.0), Some(10.0), Some(2.0))

  lemma Grid2Words()
    ensures ParseRequest(Grid2Command) == Grid2Request
  {
    DigitValues();
    Grid2P();
    Grid2D();
    Grid2Absent();
    Grid2M();
    Grid2X();
    Grid2Y();
    Grid2Grid();
  }

  lemma Grid2Absent() ensures Param(Grid2Command, "H") == None && Param(Grid2Command, "F") == None {
    Grid2H();
    Grid2F();
  }

  lemma Grid2H() ensures Param(Grid2Command, "H") == None {
    var s := Grid2Command;
    assert 'H' !in s;
    assert 'h' !in s;
    ParamAbsent(s, "H", 'H', 'h');
  }

  lemma Grid2F() ensures Param(Grid2Command, "F") == None {
    var s := Grid2Command;
    assert 'F' !in s;
    assert 'f' !in s;
    ParamAbsent(s, "F", 'F', 'f');
  }

  lemma Grid2P() ensures Param(Grid2Command, "P") == Some(DigitsValue("1") as real) {
    assert Grid2Command == "#autolevel GRID2 D2 X10 Y10 M0 " + "P" + "1" + "";
    assert 'P' !in "#autolevel GRID2 D2 X10 Y10 M0 " && 'p' !in "#autolevel GRID2 D2 X10 Y10 M0 ";
    WordValue("#autolevel GRID2 D2 X10 Y10 M0 ", "P", 'p', "1", "");
  }

  lemma Grid2D() ensures Param(Grid2Command, "D") == Some(DigitsValue("2") as real) {
    assert Grid2Command == "#autolevel GRI" + "D" + "2" + " D2 X10 Y10 M0 P1";
    assert 'D' !in "#autolevel GRI" && 'd' !in "#autolevel GRI";
    WordValue("#autolevel GRI", "D", 'd', "2", " D2 X10 Y10 M0 P1");
  }

  lemma Grid2M() ensures Param(Grid2Command, "M") == Some(DigitsValue("0") as real) {
    assert Grid2Command == "#autolevel GRID2 D2 X10 Y10 " + "M" + "0" + " P1";
    assert 'M' !in "#autolevel GRID2 D2 X10 Y10 " && 'm' !in "#autolevel GRID2 D2 X10 Y10 ";
    WordValue("#autolevel GRID2 D2 X10 Y10 ", "M", 'm', "0", " P1");
  }

  lemma Grid2X() ensures Param(Grid2Command, "X") == Some(DigitsValue("10") as real) {
    assert Grid2Command == "#autolevel GRID2 D2 " + "X" + "10" + " Y10 M0 P1";
    assert 'X' !in "#autolevel GRID2 D2 " && 'x' !in "#autolevel GRID2 D2 ";
    WordValue("#autolevel GRID2 D2 ", "X", 'x', "10", " Y10 M0 P1");
  }

  lemma Grid2Y() ensures Param(Grid2Command, "Y") == Some(DigitsValue("10") as real) {
    assert Grid2Command == "#autolevel GRID2 D2 X10 " + "Y" + "10" + " M0 P1";
    assert 'Y' !in "#autolevel GRID2 D2 X10 " && 'y' !in "#autolevel GRID2 D2 X10 ";
    WordValue("#autolevel GRID2 D2 X10 ", "Y", 'y', "10", " M0 P1");
  }

  lemma Grid2Grid() ensures Param(Grid2Command, "GRID") == Some(DigitsValue("2") as real) {
    assert Grid2Command == "#autolevel " + "GRID" + "2" + " D2 X10 Y10 M0 P1";
    assert 'G' !in "#autolevel " && 'g' !in "#autolevel ";
    WordValue("#autolevel ", "GRID", 'g', "2", " D2 X10 Y10 M0 P1");
  }

  lemma Grid2Spacing(delta: real)
    ensures Spacing(0.0, 10.0, Some(2.0), delta) == Some(10.0)
  {
    assert GridPoints(2.0) == 2.0;
    assert (10.0 - 0.0) / (2.0 - 1.0) == 10.0;
  }

  /** GRID 2 on the 10 mm axis: the two ends. */
  lemma Grid2Axis()
    ensures AxisValues(0.0, 10.0, 10.0) == Some([0.0, 10.0])
  {
    assert (10.0 - 0.0) / (2 - 1) as real == 10.0;
    GridAxis(0.0, 10.0, 2);
    var vs := AxisValues(0.0, 10.0, 10.0).value;
    assert vs[0] == 0.0 + Multiple(0, 10.0) == 0.0;
    assert vs == [vs[0], vs[1]];
  }

  lemma Grid2Targets()
    ensures |Targets([0.0, 10.0], [0.0, 10.0], 0.0)| == 3
  {
    var xs := [0.0, 10.0];
    assert |Row(xs, 0.0, 0, 0.0)| == 1 by {
      assert Row(xs[..1], 0.0, 0, 0.0) == [] by { assert xs[..1][..0] == []; }
      assert xs[..|xs| - 1] == xs[..1];
    }
    RowLength(Oriented(xs, 1), 10.0, 1, 0.0);
    assert |Targets(xs, xs[..1], 0.0)| == 1 by { assert xs[..1][..0] == []; }
    assert xs[..|xs| - 1] == xs[..1];
  }

  lemma Grid2Planned(st: Settings)
    ensures var p := PlanFor(Grid2Request, Update(st, Grid2Request), None, Area);
      p.Planned? && p.count == 4
  {
    var req := Grid2Request;
    var st' := Update(st, req);
    assert Margin(st', req) == 0.0;
    assert AxisRange(req.xSize, None, "X", 0.0, 10.0, 0.0) == Some((0.0, 10.0));
    assert AxisRange(req.ySize, None, "Y", 0.0, 10.0, 0.0) == Some((0.0, 10.0));
    Grid2Spacing(st'.delta);
    assert PlanFor(req, st', None, Area) == Plan(0.0, 10.0, 10.0, 0.0, 10.0, 10.0, st');
    Grid2Axis();
    Grid2Targets();
  }

  /**
    * `#autolevel GRID2 D2 X10 Y10 M0 P1` on the same area plans 4 points, the corners: the number of
    * points wins over the step.
    */
  lemma Grid2Plan(st: Settings)
    ensures var req := ParseRequest(Grid2Command);
      var p := PlanFor(req, Update(st, req), None, Area);
      p.Planned? && p.count == 4
  {
    Grid2Words();
    Grid2Planned(st);
  }

  // ---------------------------------------------------------------- a square as small as its margins

  /** The words of `#autolevel X5 Y5`. */
  const SquareRequest: Request := Request(None, None, None, None, None, Some(5.0), Some(5.0), None)

  /**
    * `#autolevel X5 Y5` with the default step of 10 has margins of 2.5, so the
    * rectangle is the single point (2.5, 2.5). Both spacings are 0 / 0, which is
    * NaN, and only the initial point is probed.
    */
  lemma SquarePlan()
    ensures PlanFor(SquareRequest, Update(Defaults, SquareRequest), None, Area)
      == Planned(Initial(2.5, 2.5, Defaults), 1)
  {
    var st := Update(Defaults, SquareRequest);
    assert st == Defaults;
    assert Margin(st, SquareRequest) == 2.5;
    NaNRowStepProbesInitialOnly(SquareRequest, st, None, Area, 2.5, 2.5, 2.5, 2.5);
  }
}
