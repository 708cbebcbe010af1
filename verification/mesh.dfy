/**
  * The height mesh built from probed points: the points are sorted into raster
  * order, grouped into rows of (nearly) equal y, and the height at any (x, y) is
  * read off by bilinear interpolation in the cell the search picks.
  */
module HeightMesh {
  import opened Common
  import opened Geometry

  /** Points whose y values differ by at most this much belong to the same row. */
  const RowTolerance: real := 0.001

  /** Spans shorter than this are treated as degenerate by the interpolation. */
  const SpanTolerance: real := 0.000000001

  // ---------------------------------------------------------------- sorting

  /**
    * The sort comparator: a negative value puts `a` first. Rows are ordered by y
    * unless the two y values are within the row tolerance, then by x.
    */
  function Cmp(a: Point3, b: Point3): real {
    if Abs(a.y - b.y) > RowTolerance then a.y - b.y else a.x - b.x
  }

  /** Neighbouring points are in comparator order. */
  predicate AdjacentSorted(s: seq<Point3>) {
    forall k :: 0 <= k < |s| - 1 ==> Cmp(s[k], s[k + 1]) <= 0.0
  }

  /** Inserts `p` in front of the first point that sorts strictly after it. */
  function Insert(p: Point3, s: seq<Point3>): (r: seq<Point3>)
    requires AdjacentSorted(s)
    ensures AdjacentSorted(r)
    ensures multiset(r) == multiset(s) + multiset{p}
    ensures |r| > 0 && (r[0] == p || (|s| > 0 && r[0] == s[0]))
  {
    if s == [] then [p]
    else if Cmp(s[0], p) <= 0.0 then
      var rest := Insert(p, s[1..]);
      assert s == [s[0]] + s[1..];
      SortedCons(s[0], rest);
      [s[0]] + rest
    else
      CmpAntisymmetric(s[0], p);
      SortedCons(p, s);
      [p] + s
  }

  /** Putting a point in front of a sorted sequence whose head does not sort before it keeps it sorted. */
  lemma SortedCons(p: Point3, s: seq<Point3>)
    requires AdjacentSorted(s)
    requires |s| > 0 ==> Cmp(p, s[0]) <= 0.0
    ensures AdjacentSorted([p] + s)
  {
    var r := [p] + s;
    forall k | 0 <= k < |r| - 1
      ensures Cmp(r[k], r[k + 1]) <= 0.0
    {
      if k > 0 {
        assert r[k] == s[k - 1] && r[k + 1] == s[k];
      }
    }
  }

  /** Swapping the arguments of the comparator negates its value. */
  lemma CmpAntisymmetric(a: Point3, b: Point3)
    ensures Cmp(a, b) == -Cmp(b, a)
  {
    assert Abs(a.y - b.y) == Abs(b.y - a.y);
  }

  /**
    * A copy of the points sorted with the comparator. The sort is stable: points
    * the comparator ranks equal keep the order in which they were probed.
    */
  function SortPoints(s: seq<Point3>): (r: seq<Point3>)
    ensures AdjacentSorted(r)
    ensures multiset(r) == multiset(s)
  {
    if s == [] then []
    else
      var init := s[..|s| - 1];
      assert s == init + [s[|s| - 1]];
      Insert(s[|s| - 1], SortPoints(init))
  }

  // ---------------------------------------------------------------- rows

  /** The y value a row is matched against: that of its first point. */
  function Anchor(row: seq<Point3>): real
    requires |row| > 0
  {
    row[0].y
  }

  predicate RowsNonEmpty(g: seq<seq<Point3>>) {
    forall k :: 0 <= k < |g| ==> |g[k]| > 0
  }

  /**
    * Groups sorted points into rows, scanning in order: a point joins the current
    * row when its y is within the tolerance of the row's first point, otherwise it
    * starts a new row.
    */
  function Rows(s: seq<Point3>): (g: seq<seq<Point3>>)
    ensures RowsNonEmpty(g)
    ensures |g| == 0 <==> |s| == 0
  {
    if s == [] then []
    else
      var g := Rows(s[..|s| - 1]);
      var p := s[|s| - 1];
      if g != [] && Abs(p.y - Anchor(g[|g| - 1])) <= RowTolerance then
        g[..|g| - 1] + [g[|g| - 1] + [p]]
      else
        g + [[p]]
  }

  /** The grouping scan's first point opens the first row. */
  lemma RowsFirst(s: seq<Point3>)
    requires |s| > 0
    ensures Rows(s[..1]) == [[s[0]]]
  {
    assert s[..1][..0] == [];
  }

  /** A point within the tolerance of the last row's first point joins that row. */
  lemma RowsJoin(s: seq<Point3>, i: nat, done: seq<seq<Point3>>, row: seq<Point3>)
    requires i < |s| && |row| > 0
    requires Rows(s[..i]) == done + [row]
    requires Abs(s[i].y - row[0].y) <= RowTolerance
    ensures Rows(s[..i + 1]) == done + [row + [s[i]]]
  {
    assert s[..i + 1][..i] == s[..i];
    var g := done + [row];
    assert g[..|g| - 1] == done && g[|g| - 1] == row;
  }

  /** A point outside that tolerance starts a new row after the last one. */
  lemma RowsBreak(s: seq<Point3>, i: nat, done: seq<seq<Point3>>, row: seq<Point3>)
    requires i < |s| && |row| > 0
    requires Rows(s[..i]) == done + [row]
    requires Abs(s[i].y - row[0].y) > RowTolerance
    ensures Rows(s[..i + 1]) == (done + [row]) + [[s[i]]]
  {
    assert s[..i + 1][..i] == s[..i];
    var g := done + [row];
    assert g[|g| - 1] == row;
  }

  // ---------------------------------------------------------------- lookup

  /** The first row interval at or after `i` whose anchors enclose `y`, or -1 when there is none. */
  function RowSearch(g: seq<seq<Point3>>, y: real, i: nat): (r: int)
    requires RowsNonEmpty(g)
    ensures r == -1 || (i <= r < |g| - 1 && Anchor(g[r]) <= y <= Anchor(g[r + 1]))
    ensures forall k :: i <= k < |g| - 1 && (r == -1 || k < r) ==> !(Anchor(g[k]) <= y <= Anchor(g[k + 1]))
    decreases |g| - i
  {
    if i + 1 >= |g| then -1
    else if Anchor(g[i]) <= y <= Anchor(g[i + 1]) then i
    else RowSearch(g, y, i + 1)
  }

  /**
    * The row interval `[r, r + 1]` the interpolation uses for `y`: the first one
    * whose anchors enclose `y`, the first or last interval beyond the ends, and
    * the first when no interval encloses `y`.
    */
  function RowIndex(g: seq<seq<Point3>>, y: real): (r: nat)
    requires RowsNonEmpty(g) && |g| >= 2
    ensures r <= |g| - 2
  {
    if y <= Anchor(g[0]) then 0
    else if y >= Anchor(g[|g| - 1]) then |g| - 2
    else
      var k := RowSearch(g, y, 0);
      if k < 0 then 0 else k
  }

  /** The first column interval at or after `i` whose x values enclose `x`, or -1 when there is none. */
  function ColSearch(row: seq<Point3>, x: real, i: nat): (c: int)
    ensures c == -1 || (i <= c < |row| - 1 && row[c].x <= x <= row[c + 1].x)
    ensures forall k :: i <= k < |row| - 1 && (c == -1 || k < c) ==> !(row[k].x <= x <= row[k + 1].x)
    decreases |row| - i
  {
    if i + 1 >= |row| then -1
    else if row[i].x <= x <= row[i + 1].x then i
    else ColSearch(row, x, i + 1)
  }

  /**
    * The column interval `[c, c + 1]` of the lower row the interpolation uses for
    * `x`, forced into `0 .. |row| - 2` (just 0 for a row of one point).
    */
  function ColIndex(row: seq<Point3>, x: real): (c: nat)
    requires |row| > 0
    ensures c == 0 || c + 1 < |row|
  {
    var c: int :=
      if x <= row[0].x then 0
      else if x >= row[|row| - 1].x then |row| - 2
      else
        var k := ColSearch(row, x, 0);
        if k < 0 then 0 else k;
    var c' := if c >= |row| - 1 then |row| - 2 else c;
    if c' < 0 then 0 else c'
  }

  /** Linear interpolation from `a` (t = 0) to `b` (t = 1), extrapolating outside. */
  function Lerp(a: real, b: real, t: real): real {
    a * (1.0 - t) + b * t
  }

  /**
    * Bilinear interpolation over the corners `q11` (low x, low y), `q21` (high x),
    * `q12` (high y) and `q22`, with fallbacks when a span is degenerate: a
    * single corner, or linear interpolation along the one non-degenerate axis.
    */
  function Interp(q11: Point3, q21: Point3, q12: Point3, q22: Point3, x: real, y: real): real {
    var spanX := q21.x - q11.x;
    var spanY := q12.y - q11.y;
    if Abs(spanX) < SpanTolerance && Abs(spanY) < SpanTolerance then q11.z
    else if Abs(spanX) < SpanTolerance then Lerp(q11.z, q12.z, (y - q11.y) / spanY)
    else if Abs(spanY) < SpanTolerance then Lerp(q11.z, q21.z, (x - q11.x) / spanX)
    else
      var u := (x - q11.x) / spanX;
      var v := (y - q11.y) / spanY;
      Lerp(Lerp(q11.z, q21.z, u), Lerp(q12.z, q22.z, u), v)
  }

  /**
    * The height of the mesh at (x, y). None when the lookup fails: the lower row
    * of the chosen interval holds a single point while the upper row holds two or
    * more, so the second lower corner does not exist.
    */
  function Height(g: seq<seq<Point3>>, x: real, y: real): (h: Option<real>)
    requires RowsNonEmpty(g)
    ensures |g| == 0 ==> h == Some(0.0)
    ensures |g| == 1 ==> h == Some(g[0][0].z)
  {
    if |g| == 0 then Some(0.0)
    else if |g| == 1 then Some(g[0][0].z)
    else
      var r := RowIndex(g, y);
      var low := g[r];
      var high := g[r + 1];
      var c := ColIndex(low, x);
      if c + 1 >= |high| then Some(low[c].z)
      else if c + 1 >= |low| then None
      else Some(Interp(low[c], low[c + 1], high[c], high[c + 1], x, y))
  }

  // ---------------------------------------------------------------- the mesh object

  /** A mesh: the probed points grouped into rows. */
  class Mesh {
    var grid: seq<seq<Point3>>

    ghost predicate Valid()
      reads this
    {
      RowsNonEmpty(grid)
    }

    /** Builds the rows from a sorted copy of `points`; no points give an empty grid. */
    constructor(points: seq<Point3>)
      ensures Valid()
      ensures grid == Rows(SortPoints(points))
    {
      grid := [];
      new;
      if |points| == 0 {
        return;
      }
      var rows := GroupRows(SortPoints(points));
      grid := rows;
    }

    /** The height at (x, y), searching rows and then columns as the mesh lookup does. */
    method InterpolateZ(x: real, y: real) returns (z: Option<real>)
      requires Valid()
      ensures z == Height(grid, x, y)
    {
      if |grid| == 0 {
        return Some(0.0);
      }
      if |grid| == 1 {
        return Some(grid[0][0].z);
      }
      var r := FindRow(grid, y);
      var rowLow := grid[r];
      var rowHi := grid[r + 1];
      var c := FindColumn(rowLow, x);
      if c + 1 >= |rowHi| {
        return Some(rowLow[c].z);
      }
      if c + 1 >= |rowLow| {
        return None;
      }
      z := Some(Interp(rowLow[c], rowLow[c + 1], rowHi[c], rowHi[c + 1], x, y));
    }

    /**
      * The grouping scan of the constructor: walks the sorted points once, closing
      * the current row whenever a point's y leaves the tolerance of the row's first
      * point.
      */
    method GroupRows(sorted: seq<Point3>) returns (rows: seq<seq<Point3>>)
      requires |sorted| > 0
      ensures rows == Rows(sorted)
    {
      rows := [];
      var currentRow: seq<Point3> := [];
      var lastY := sorted[0].y;
      for i := 0 to |sorted|
        invariant i == 0 ==> rows == [] && currentRow == [] && lastY == sorted[0].y
        invariant i > 0 ==> |currentRow| > 0 && lastY == currentRow[0].y
        invariant i > 0 ==> rows + [currentRow] == Rows(sorted[..i])
      {
        var pt := sorted[i];
        if i == 0 {
          RowsFirst(sorted);
        } else if Abs(pt.y - lastY) > RowTolerance {
          RowsBreak(sorted, i, rows, currentRow);
        } else {
          RowsJoin(sorted, i, rows, currentRow);
        }
        if Abs(pt.y - lastY) > RowTolerance {
          // a new row: the current one is complete
          if |currentRow| > 0 {
            rows := rows + [currentRow];
          }
          currentRow := [];
          lastY := pt.y;
        }
        currentRow := currentRow + [pt];
        assert i == 0 || |currentRow| == 1 ==> currentRow == [pt];
      }
      assert sorted[..|sorted|] == sorted;
      if |currentRow| > 0 {
        rows := rows + [currentRow];
      }
    }

    /** The row search of the lookup: a linear scan that stops at the first enclosing interval. */
    method FindRow(g: seq<seq<Point3>>, y: real) returns (r: nat)
      requires RowsNonEmpty(g) && |g| >= 2
      ensures r == RowIndex(g, y)
    {
      r := 0;
      var startY := g[0][0].y;
      var endY := g[|g| - 1][0].y;
      if y <= startY {
        r := 0;
      } else if y >= endY {
        r := |g| - 2;
      } else {
        var k := ScanRows(g, y);
        if k >= 0 {
          r := k;
        }
      }
    }

    /** The linear scan for the first row interval enclosing `y`; -1 when the scan finds none. */
    method ScanRows(g: seq<seq<Point3>>, y: real) returns (k: int)
      requires RowsNonEmpty(g)
      ensures k == RowSearch(g, y, 0)
    {
      k := -1;
      var i := 0;
      while i < |g| - 1
        invariant 0 <= i
        invariant i <= |g| - 1 || |g| == 0
        invariant RowSearch(g, y, i) == RowSearch(g, y, 0)
      {
        if g[i][0].y <= y <= g[i + 1][0].y {
          k := i;
          break;
        }
        i := i + 1;
      }
    }

    /** The column search of the lookup, clamped to a valid interval of `row`. */
    method FindColumn(row: seq<Point3>, x: real) returns (c: nat)
      requires |row| > 0
      ensures c == ColIndex(row, x)
    {
      var k := 0;
      var startX := row[0].x;
      var endX := row[|row| - 1].x;
      if x <= startX {
        k := 0;
      } else if x >= endX {
        k := |row| - 2;
      } else {
        var found := ScanColumns(row, x);
        if found >= 0 {
          k := found;
        }
      }
      if k >= |row| - 1 {
        k := |row| - 2;
      }
      if k < 0 {
        k := 0;
      }
      c := k;
    }

    /** The linear scan for the first column interval enclosing `x`; -1 when the scan finds none. */
    method ScanColumns(row: seq<Point3>, x: real) returns (k: int)
      ensures k == ColSearch(row, x, 0)
    {
      k := -1;
      var i := 0;
      while i < |row| - 1
        invariant 0 <= i
        invariant i <= |row| - 1 || |row| == 0
        invariant ColSearch(row, x, i) == ColSearch(row, x, 0)
      {
        if row[i].x <= x <= row[i + 1].x {
          k := i;
          break;
        }
        i := i + 1;
      }
    }
  }
}
