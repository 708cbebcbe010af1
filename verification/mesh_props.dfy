/**
  * What the height mesh guarantees: the grouping keeps every point, in order, and
  * is the only grouping with its tolerance rules; the points of a grid give the
  * grid's rows whatever order they are probed in; on a regular grid the lookup
  * returns the probed height at every probed point, stays between the corner
  * heights of its cell inside the probed area, and reproduces a tilted plane
  * exactly everywhere, also outside the probed area, where it extrapolates.
  */
module MeshProperties {
  import opened Common
  import opened Geometry
  import opened HeightMesh

  // ---------------------------------------------------------------- grouping

  /** The points of all rows, row after row. */
  function Flatten(g: seq<seq<Point3>>): seq<Point3> {
    if g == [] then [] else Flatten(g[..|g| - 1]) + g[|g| - 1]
  }

  /**
    * The tolerance rules of the grouping: rows are non-empty, every point of a row
    * is within the tolerance of the row's first point, and the first point of each
    * row is outside the tolerance of the previous row's first point.
    */
  predicate WellGrouped(g: seq<seq<Point3>>) {
    RowsNonEmpty(g) &&
    (forall k, j :: 0 <= k < |g| && 0 <= j < |g[k]| ==> Abs(g[k][j].y - Anchor(g[k])) <= RowTolerance) &&
    (forall k :: 0 < k < |g| ==> Abs(Anchor(g[k]) - Anchor(g[k - 1])) > RowTolerance)
  }

  /** The last point of the scan joins the last row. */
  lemma FlattenJoin(g: seq<seq<Point3>>, p: Point3)
    requires g != []
    ensures Flatten(g[..|g| - 1] + [g[|g| - 1] + [p]]) == Flatten(g) + [p]
  {
    var front := g[..|g| - 1];
    var last := g[|g| - 1];
    FlattenSnoc(front, last + [p]);
    assert Flatten(g) == Flatten(front) + last;
    AppendAssoc(Flatten(front), last, p);
  }

  /** Flattening after adding a row adds that row's points. */
  lemma FlattenSnoc(front: seq<seq<Point3>>, row: seq<Point3>)
    ensures Flatten(front + [row]) == Flatten(front) + row
  {
    var g := front + [row];
    assert g[..|g| - 1] == front;
  }

  lemma AppendAssoc(a: seq<Point3>, b: seq<Point3>, p: Point3)
    ensures a + (b + [p]) == (a + b) + [p]
  {
  }

  lemma WellGroupedJoin(g: seq<seq<Point3>>, p: Point3)
    requires WellGrouped(g) && g != []
    requires Abs(p.y - Anchor(g[|g| - 1])) <= RowTolerance
    ensures WellGrouped(g[..|g| - 1] + [g[|g| - 1] + [p]])
  {
    var g' := g[..|g| - 1] + [g[|g| - 1] + [p]];
    assert forall k :: 0 <= k < |g| - 1 ==> g'[k] == g[k];
    assert Anchor(g'[|g| - 1]) == Anchor(g[|g| - 1]);
    forall k, j | 0 <= k < |g'| && 0 <= j < |g'[k]|
      ensures Abs(g'[k][j].y - Anchor(g'[k])) <= RowTolerance
    {
      if k < |g| - 1 {
        assert g'[k] == g[k];
      } else if j < |g[k]| {
        assert g'[k][j] == g[k][j];
      }
    }
  }

  lemma WellGroupedNew(g: seq<seq<Point3>>, p: Point3)
    requires WellGrouped(g)
    requires g != [] ==> Abs(p.y - Anchor(g[|g| - 1])) > RowTolerance
    ensures WellGrouped(g + [[p]])
  {
    var g' := g + [[p]];
    assert forall k :: 0 <= k < |g| ==> g'[k] == g[k];
  }

  /** Grouping neither drops, duplicates nor reorders points. */
  lemma {:induction false} RowsFlatten(s: seq<Point3>)
    ensures Flatten(Rows(s)) == s
    decreases |s|
  {
    if s != [] {
      var init := s[..|s| - 1];
      var p := s[|s| - 1];
      assert s == init + [p];
      RowsFlatten(init);
      var g: seq<seq<Point3>> := Rows(init);
      if g == [] {
        SingletonRows(p);
      } else {
        var done: seq<seq<Point3>> := g[..|g| - 1];
        var row: seq<Point3> := g[|g| - 1];
        assert g == done + [row];
        if Abs(p.y - row[0].y) <= RowTolerance {
          RowsAppendJoin(init, p, done, row);
          FlattenJoinRow(done, row, p);
        } else {
          RowsAppendBreak(init, p, done, row);
          FlattenSnoc(g, [p]);
        }
      }
    }
  }

  /** A single point makes a single row. */
  lemma SingletonRows(p: Point3)
    ensures Rows([p]) == [[p]] && Flatten([[p]]) == [p]
  {
    assert [p][..0] == [];
    FlattenSnoc([], [p]);
  }

  /** The grouping obeys its tolerance rules. */
  lemma {:induction false} RowsWellGrouped(s: seq<Point3>)
    ensures WellGrouped(Rows(s))
    decreases |s|
  {
    if s != [] {
      var init := s[..|s| - 1];
      RowsWellGrouped(init);
      var g := Rows(init);
      var p := s[|s| - 1];
      if g != [] && Abs(p.y - Anchor(g[|g| - 1])) <= RowTolerance {
        WellGroupedJoin(g, p);
      } else {
        WellGroupedNew(g, p);
      }
    }
  }

  /**
    * The grouping is the only one with its tolerance rules: any rows that hold the
    * sorted points in order and obey the rules are the rows the mesh builds.
    */
  lemma {:induction false} RowsUnique(s: seq<Point3>, g: seq<seq<Point3>>)
    requires WellGrouped(g) && Flatten(g) == s
    ensures g == Rows(s)
  {
    RowsOfFlatten(g);
  }

  lemma {:induction false} RowsOfFlatten(g: seq<seq<Point3>>)
    requires WellGrouped(g)
    ensures Rows(Flatten(g)) == g
    decreases |Flatten(g)|, 1
  {
    if g != [] {
      if |g[|g| - 1]| == 1 {
        RowsOfFlattenNewRow(g);
      } else {
        RowsOfFlattenJoin(g);
      }
    }
  }

  lemma {:induction false} RowsOfFlattenNewRow(g: seq<seq<Point3>>)
    requires WellGrouped(g)
    requires g != [] && |g[|g| - 1]| == 1
    ensures Rows(Flatten(g)) == g
    decreases |Flatten(g)|, 0
  {
    var front, p := SplitNewRow(g);
    RowsOfFlatten(front);
    if front == [] {
      SingletonRows(p);
    } else {
      RowsAppendBreak(Flatten(front), p, front[..|front| - 1], front[|front| - 1]);
    }
  }

  /** A well-grouped `g` whose last row holds one point, with that row split off. */
  lemma SplitNewRow(g: seq<seq<Point3>>) returns (front: seq<seq<Point3>>, p: Point3)
    requires WellGrouped(g)
    requires g != [] && |g[|g| - 1]| == 1
    ensures g == front + [[p]] && WellGrouped(front)
    ensures front != [] ==> |front[|front| - 1]| > 0 && Abs(p.y - front[|front| - 1][0].y) > RowTolerance
    ensures front != [] ==> front == front[..|front| - 1] + [front[|front| - 1]]
    ensures Flatten(g) == Flatten(front) + [p]
  {
    front := g[..|g| - 1];
    p := g[|g| - 1][0];
    assert g == front + [[p]] by {
      assert g[|g| - 1] == [p];
    }
    FlattenSnoc(front, [p]);
    WellGroupedFront(g);
  }

  lemma {:induction false} RowsOfFlattenJoin(g: seq<seq<Point3>>)
    requires WellGrouped(g)
    requires g != [] && |g[|g| - 1]| > 1
    ensures Rows(Flatten(g)) == g
    decreases |Flatten(g)|, 0
  {
    var front, shorter, p := SplitJoin(g);
    RowsOfFlatten(front + [shorter]);
    RowsAppendJoin(Flatten(front + [shorter]), p, front, shorter);
  }

  /** A well-grouped `g` whose last row holds several points, with that row's last point split off. */
  lemma SplitJoin(g: seq<seq<Point3>>) returns (front: seq<seq<Point3>>, shorter: seq<Point3>, p: Point3)
    requires WellGrouped(g)
    requires g != [] && |g[|g| - 1]| > 1
    ensures g == front + [shorter + [p]] && |shorter| > 0
    ensures WellGrouped(front + [shorter])
    ensures Abs(p.y - shorter[0].y) <= RowTolerance
    ensures Flatten(g) == Flatten(front + [shorter]) + [p]
  {
    var last := g[|g| - 1];
    front := g[..|g| - 1];
    p := last[|last| - 1];
    shorter := last[..|last| - 1];
    SplitLastPoint(g);
    FlattenJoinRow(front, shorter, p);
    WellGroupedShorten(g);
  }

  /** The last row of `g` is its shorter self plus its last point. */
  lemma SplitLastPoint(g: seq<seq<Point3>>)
    requires g != [] && |g[|g| - 1]| > 1
    ensures var last := g[|g| - 1];
      g == g[..|g| - 1] + [last[..|last| - 1] + [last[|last| - 1]]]
  {
    var last := g[|g| - 1];
    assert last == last[..|last| - 1] + [last[|last| - 1]];
  }

  lemma FlattenJoinRow(front: seq<seq<Point3>>, row: seq<Point3>, p: Point3)
    ensures Flatten(front + [row + [p]]) == Flatten(front + [row]) + [p]
  {
    var g := front + [row + [p]];
    var h := front + [row];
    assert g[..|g| - 1] == front && h[..|h| - 1] == front;
  }

  /** A point within the tolerance of the last row's first point joins that row. */
  lemma RowsAppendJoin(init: seq<Point3>, p: Point3, done: seq<seq<Point3>>, row: seq<Point3>)
    requires |row| > 0 && Rows(init) == done + [row]
    requires Abs(p.y - row[0].y) <= RowTolerance
    ensures Rows(init + [p]) == done + [row + [p]]
  {
    var s := init + [p];
    assert s[..|init|] == init;
    RowsJoin(s, |init|, done, row);
    assert s[..|init| + 1] == s;
  }

  /** A point outside that tolerance starts a new row. */
  lemma RowsAppendBreak(init: seq<Point3>, p: Point3, done: seq<seq<Point3>>, row: seq<Point3>)
    requires |row| > 0 && Rows(init) == done + [row]
    requires Abs(p.y - row[0].y) > RowTolerance
    ensures Rows(init + [p]) == (done + [row]) + [[p]]
  {
    var s := init + [p];
    assert s[..|init|] == init;
    RowsBreak(s, |init|, done, row);
    assert s[..|init| + 1] == s;
  }

  lemma WellGroupedFront(g: seq<seq<Point3>>)
    requires WellGrouped(g) && g != []
    ensures WellGrouped(g[..|g| - 1])
    ensures |g| > 1 ==> Abs(g[|g| - 1][0].y - g[|g| - 2][0].y) > RowTolerance
  {
    var front := g[..|g| - 1];
    assert forall k :: 0 <= k < |front| ==> front[k] == g[k];
  }

  lemma WellGroupedShorten(g: seq<seq<Point3>>)
    requires WellGrouped(g) && g != [] && |g[|g| - 1]| > 1
    ensures var last := g[|g| - 1]; WellGrouped(g[..|g| - 1] + [last[..|last| - 1]])
    ensures var last := g[|g| - 1]; Abs(last[|last| - 1].y - last[0].y) <= RowTolerance
  {
    var last := g[|g| - 1];
    var shorter := last[..|last| - 1];
    var g' := g[..|g| - 1] + [shorter];
    assert forall k :: 0 <= k < |g| - 1 ==> g'[k] == g[k];
    assert g'[|g| - 1] == shorter && shorter[0] == last[0];
    assert RowsNonEmpty(g');
    forall k, j | 0 <= k < |g'| && 0 <= j < |g'[k]|
      ensures Abs(g'[k][j].y - Anchor(g'[k])) <= RowTolerance
    {
      if k == |g| - 1 {
        assert g'[k][j] == g[k][j] && Anchor(g'[k]) == Anchor(g[k]);
      } else {
        assert g'[k] == g[k];
      }
    }
    forall k | 0 < k < |g'|
      ensures Abs(Anchor(g'[k]) - Anchor(g'[k - 1])) > RowTolerance
    {
      assert Anchor(g'[k]) == Anchor(g[k]) && Anchor(g'[k - 1]) == Anchor(g[k - 1]);
    }
  }

  // ---------------------------------------------------------------- regular grids

  /** Consecutive values at least the span tolerance apart, hence strictly increasing. */
  predicate Spaced(v: seq<real>) {
    forall k :: 0 <= k < |v| - 1 ==> Gap(v, k) >= SpanTolerance
  }

  /** The distance from the `k`-th value to the next one. */
  function Gap(v: seq<real>, k: nat): real
    requires k + 1 < |v|
  {
    v[k + 1] - v[k]
  }

  /**
    * `g` is a full grid over the column positions `xs` and row positions `ys`:
    * row `i` holds one point per column, at (xs[j], ys[i]).
    */
  predicate IsGrid(g: seq<seq<Point3>>, xs: seq<real>, ys: seq<real>) {
    |xs| >= 2 && |ys| >= 2 && |g| == |ys| && Spaced(xs) && Spaced(ys) &&
    (forall i :: 0 <= i < |g| ==> |g[i]| == |xs|) &&
    (forall i, j {:trigger g[i][j]} :: 0 <= i < |g| && 0 <= j < |g[i]| ==> g[i][j].x == xs[j] && g[i][j].y == ys[i])
  }

  lemma {:induction false} SpacedIncreasing(v: seq<real>, a: nat, b: nat)
    requires Spaced(v) && a < b < |v|
    ensures v[a] < v[b]
    decreases b - a
  {
    assert Gap(v, a) >= SpanTolerance;
    if a + 1 < b {
      SpacedIncreasing(v, a + 1, b);
    }
  }

  /** Some interval of consecutive values encloses any value between the first and the last. */
  lemma {:induction false} IntervalExists(v: seq<real>, t: real) returns (k: nat)
    requires |v| >= 2 && v[0] <= t <= v[|v| - 1]
    ensures k < |v| - 1 && v[k] <= t <= v[k + 1]
    decreases |v|
  {
    if t <= v[1] {
      k := 0;
    } else {
      var k' := IntervalExists(v[1..], t);
      k := k' + 1;
    }
  }

  /** The positions of the grid's rows, read off the grid's anchors. */
  lemma GridAnchors(g: seq<seq<Point3>>, xs: seq<real>, ys: seq<real>)
    requires IsGrid(g, xs, ys)
    ensures RowsNonEmpty(g)
    ensures forall i :: 0 <= i < |g| ==> Anchor(g[i]) == ys[i]
  {
    forall i | 0 <= i < |g|
      ensures Anchor(g[i]) == ys[i]
    {
      assert |g[i]| == |xs| && g[i][0].y == ys[i];
    }
  }

  /** Inside the probed rows, the row interval the lookup picks encloses `y`. */
  lemma GridRowEncloses(g: seq<seq<Point3>>, xs: seq<real>, ys: seq<real>, y: real)
    requires IsGrid(g, xs, ys) && ys[0] <= y <= ys[|ys| - 1]
    ensures RowsNonEmpty(g)
    ensures var r := RowIndex(g, y); ys[r] <= y <= ys[r + 1]
  {
    GridAnchors(g, xs, ys);
    SpacedIncreasing(ys, 0, |ys| - 1);
    SpacedIncreasing(ys, |ys| - 2, |ys| - 1);
    SpacedIncreasing(ys, 0, 1);
    if ys[0] < y < ys[|ys| - 1] {
      var k := IntervalExists(ys, y);
      assert Anchor(g[k]) <= y <= Anchor(g[k + 1]);
    }
  }

  /** Inside the probed columns, the column interval the lookup picks encloses `x`. */
  lemma GridColumnEncloses(row: seq<Point3>, xs: seq<real>, x: real)
    requires |row| == |xs| >= 2 && Spaced(xs) && forall j :: 0 <= j < |row| ==> row[j].x == xs[j]
    requires xs[0] <= x <= xs[|xs| - 1]
    ensures var c := ColIndex(row, x); c + 1 < |xs| && xs[c] <= x <= xs[c + 1]
  {
    SpacedIncreasing(xs, 0, |xs| - 1);
    SpacedIncreasing(xs, |xs| - 2, |xs| - 1);
    SpacedIncreasing(xs, 0, 1);
    if xs[0] < x < xs[|xs| - 1] {
      var k := IntervalExists(xs, x);
      assert row[k].x <= x <= row[k + 1].x;
    }
  }

  /**
    * On a grid the lookup always interpolates bilinearly in some cell `[r, r+1] x
    * [c, c+1]`, for every (x, y), inside the probed area or not.
    */
  lemma GridLookup(g: seq<seq<Point3>>, xs: seq<real>, ys: seq<real>, x: real, y: real)
      returns (r: nat, c: nat)
    requires IsGrid(g, xs, ys)
    ensures RowsNonEmpty(g)
    ensures r + 1 < |ys| && c + 1 < |xs| && r == RowIndex(g, y) && c == ColIndex(g[r], x)
    ensures xs[c + 1] - xs[c] >= SpanTolerance && ys[r + 1] - ys[r] >= SpanTolerance
    ensures Height(g, x, y) == Some(Lerp(
      Lerp(g[r][c].z, g[r][c + 1].z, (x - xs[c]) / (xs[c + 1] - xs[c])),
      Lerp(g[r + 1][c].z, g[r + 1][c + 1].z, (x - xs[c]) / (xs[c + 1] - xs[c])),
      (y - ys[r]) / (ys[r + 1] - ys[r])))
  {
    GridAnchors(g, xs, ys);
    r := RowIndex(g, y);
    c := ColIndex(g[r], x);
    assert |g[r]| == |xs| && |g[r + 1]| == |xs|;
    assert c + 1 < |xs|;
    HeightInCell(g, x, y);
    assert Gap(xs, c) >= SpanTolerance && Gap(ys, r) >= SpanTolerance;
    assert g[r][c].x == xs[c] && g[r][c + 1].x == xs[c + 1];
    assert g[r][c].y == ys[r] && g[r + 1][c].y == ys[r + 1];
    CellInterp(g[r][c], g[r][c + 1], g[r + 1][c], g[r + 1][c + 1], x, y);
  }

  /**
    * When both rows of the chosen interval reach past the chosen column, the
    * lookup interpolates in the cell of that column.
    */
  lemma HeightInCell(g: seq<seq<Point3>>, x: real, y: real)
    requires RowsNonEmpty(g) && |g| >= 2
    requires ColIndex(g[RowIndex(g, y)], x) + 1 < |g[RowIndex(g, y)]|
    requires ColIndex(g[RowIndex(g, y)], x) + 1 < |g[RowIndex(g, y) + 1]|
    ensures var r := RowIndex(g, y); var c := ColIndex(g[r], x);
      Height(g, x, y) == Some(Interp(g[r][c], g[r][c + 1], g[r + 1][c], g[r + 1][c + 1], x, y))
  {
  }

  /** With both spans of a cell wide enough the lookup blends bilinearly. */
  lemma CellInterp(q11: Point3, q21: Point3, q12: Point3, q22: Point3, x: real, y: real)
    requires q21.x - q11.x >= SpanTolerance && q12.y - q11.y >= SpanTolerance
    ensures Interp(q11, q21, q12, q22, x, y) == Lerp(
      Lerp(q11.z, q21.z, (x - q11.x) / (q21.x - q11.x)),
      Lerp(q12.z, q22.z, (x - q11.x) / (q21.x - q11.x)),
      (y - q11.y) / (q12.y - q11.y))
  {
  }

  // ------------------------------------------------ interpolation arithmetic

  lemma MulNonNegative(a: real, b: real)
    requires a >= 0.0 && b >= 0.0
    ensures a * b >= 0.0
  {
  }

  /** A point between two values, as a fraction of the interval, lies in [0, 1]. */
  lemma UnitFraction(lo: real, v: real, hi: real)
    requires lo <= v <= hi && lo < hi
    ensures 0.0 <= (v - lo) / (hi - lo) <= 1.0
  {
    var w := hi - lo;
    var t := (v - lo) / w;
    assert t * w == v - lo;
    DivideBelow(v - lo, w);
  }

  /** A quotient by a positive number is non-negative and at most 1 when the dividend is at most the divisor. */
  lemma DivideBelow(n: real, w: real)
    requires 0.0 <= n <= w && w > 0.0
    ensures 0.0 <= n / w <= 1.0
  {
  }

  /** Blending two values in [lo, hi] with a weight in [0, 1] stays in [lo, hi]. */
  lemma LerpBetween(a: real, b: real, t: real, lo: real, hi: real)
    requires lo <= a <= hi && lo <= b <= hi && 0.0 <= t <= 1.0
    ensures lo <= Lerp(a, b, t) <= hi
  {
    MulNonNegative(a - lo, 1.0 - t);
    MulNonNegative(b - lo, t);
    MulNonNegative(hi - a, 1.0 - t);
    MulNonNegative(hi - b, t);
    assert Lerp(a, b, t) - lo == (a - lo) * (1.0 - t) + (b - lo) * t;
    assert hi - Lerp(a, b, t) == (hi - a) * (1.0 - t) + (hi - b) * t;
  }

  /** Blending the values of an affine function at two abscissae gives its value in between (or beyond). */
  lemma LerpAffine(p: real, q: real, x1: real, x2: real, x: real)
    requires x1 != x2
    ensures Lerp(p + q * x1, p + q * x2, (x - x1) / (x2 - x1)) == p + q * x
  {
    var t := (x - x1) / (x2 - x1);
    assert t * (x2 - x1) == x - x1;
    assert q * (t * (x2 - x1)) == q * (x - x1);
    assert (p + q * x1) * (1.0 - t) + (p + q * x2) * t == p + q * x1 + q * (t * (x2 - x1));
  }

  // ----------------------------------------------------------- grid theorems

  /** The row interval picked for a probed row position starts or ends at that row. */
  lemma GridNodeRow(g: seq<seq<Point3>>, xs: seq<real>, ys: seq<real>, i: nat)
    requires IsGrid(g, xs, ys) && i < |ys|
    ensures RowsNonEmpty(g)
    ensures RowIndex(g, ys[i]) == i || RowIndex(g, ys[i]) + 1 == i
  {
    GridAnchors(g, xs, ys);
    SpacedIncreasing(ys, 0, |ys| - 1);
    if 0 < i < |ys| - 1 {
      SpacedIncreasing(ys, 0, i);
      SpacedIncreasing(ys, i, |ys| - 1);
      SpacedIncreasing(ys, i - 1, i);
      assert Anchor(g[i - 1]) <= ys[i] <= Anchor(g[i]);
      var k := RowSearch(g, ys[i], 0);
      if k < i - 1 {
        SpacedIncreasing(ys, k + 1, i);
      }
    }
  }

  /** The column interval picked for a probed column position starts or ends at that column. */
  lemma GridNodeColumn(row: seq<Point3>, xs: seq<real>, j: nat)
    requires |row| == |xs| >= 2 && Spaced(xs) && forall k :: 0 <= k < |row| ==> row[k].x == xs[k]
    requires j < |xs|
    ensures ColIndex(row, xs[j]) == j || ColIndex(row, xs[j]) + 1 == j
  {
    SpacedIncreasing(xs, 0, |xs| - 1);
    if 0 < j < |xs| - 1 {
      SpacedIncreasing(xs, 0, j);
      SpacedIncreasing(xs, j, |xs| - 1);
      SpacedIncreasing(xs, j - 1, j);
      assert row[j - 1].x <= xs[j] <= row[j].x;
      var k := ColSearch(row, xs[j], 0);
      if k < j - 1 {
        SpacedIncreasing(xs, k + 1, j);
      }
    }
  }

  /** At every probed point the lookup returns exactly the probed height. */
  lemma GridNodeExact(g: seq<seq<Point3>>, xs: seq<real>, ys: seq<real>, i: nat, j: nat)
    requires IsGrid(g, xs, ys) && i < |ys| && j < |xs|
    ensures RowsNonEmpty(g)
    ensures Height(g, xs[j], ys[i]) == Some(g[i][j].z)
  {
    var r, c := GridLookup(g, xs, ys, xs[j], ys[i]);
    GridNodeRow(g, xs, ys, i);
    assert |g[r]| == |xs| && |g[r + 1]| == |xs|;
    GridNodeColumn(g[r], xs, j);
    var u := EndFraction(xs[c], xs[c + 1], xs[j]);
    var v := EndFraction(ys[r], ys[r + 1], ys[i]);
    var low := Lerp(g[r][c].z, g[r][c + 1].z, u);
    var high := Lerp(g[r + 1][c].z, g[r + 1][c + 1].z, u);
    LerpEnds(g[r][c].z, g[r][c + 1].z);
    LerpEnds(g[r + 1][c].z, g[r + 1][c + 1].z);
    LerpEnds(low, high);
  }

  lemma DivSelf(w: real)
    requires w != 0.0
    ensures w / w == 1.0
  {
  }

  /** Linear interpolation returns its end values at weights 0 and 1. */
  lemma LerpEnds(a: real, b: real)
    ensures Lerp(a, b, 0.0) == a && Lerp(a, b, 1.0) == b
  {
  }

  /** The fraction of an interval at either of its ends. */
  lemma EndFraction(lo: real, hi: real, v: real) returns (t: real)
    requires lo < hi && (v == lo || v == hi)
    ensures t == (v - lo) / (hi - lo)
    ensures v == lo ==> t == 0.0
    ensures v == hi ==> t == 1.0
  {
    var w := hi - lo;
    assert w / w == 1.0;
    t := (v - lo) / w;
  }

  /** The lowest of a cell's four corner heights. */
  function CornerMin(z11: real, z21: real, z12: real, z22: real): (m: real)
    ensures m <= z11 && m <= z21 && m <= z12 && m <= z22
    ensures m == z11 || m == z21 || m == z12 || m == z22
  {
    var a := if z11 <= z21 then z11 else z21;
    var b := if z12 <= z22 then z12 else z22;
    if a <= b then a else b
  }

  /** The highest of a cell's four corner heights. */
  function CornerMax(z11: real, z21: real, z12: real, z22: real): (m: real)
    ensures m >= z11 && m >= z21 && m >= z12 && m >= z22
    ensures m == z11 || m == z21 || m == z12 || m == z22
  {
    var a := if z11 >= z21 then z11 else z21;
    var b := if z12 >= z22 then z12 else z22;
    if a >= b then a else b
  }

  /**
    * Inside the probed area the height lies between the lowest and the highest of
    * the four corners of the cell the lookup picks, and that cell encloses (x, y).
    */
  lemma GridWithinProbedHeights(g: seq<seq<Point3>>, xs: seq<real>, ys: seq<real>, x: real, y: real)
      returns (r: nat, c: nat)
    requires IsGrid(g, xs, ys)
    requires xs[0] <= x <= xs[|xs| - 1] && ys[0] <= y <= ys[|ys| - 1]
    ensures RowsNonEmpty(g)
    ensures r + 1 < |g| && r == RowIndex(g, y) && |g[r]| == |g[r + 1]| == |xs|
    ensures c + 1 < |xs| && c == ColIndex(g[r], x)
    ensures xs[c] <= x <= xs[c + 1] && ys[r] <= y <= ys[r + 1]
    ensures Height(g, x, y).Some?
    ensures CornerMin(g[r][c].z, g[r][c + 1].z, g[r + 1][c].z, g[r + 1][c + 1].z)
            <= Height(g, x, y).value <=
            CornerMax(g[r][c].z, g[r][c + 1].z, g[r + 1][c].z, g[r + 1][c + 1].z)
  {
    r, c := GridLookup(g, xs, ys, x, y);
    GridRowEncloses(g, xs, ys, y);
    assert |g[r]| == |xs| && |g[r + 1]| == |xs|;
    GridColumnEncloses(g[r], xs, x);
    var lo := CornerMin(g[r][c].z, g[r][c + 1].z, g[r + 1][c].z, g[r + 1][c + 1].z);
    var hi := CornerMax(g[r][c].z, g[r][c + 1].z, g[r + 1][c].z, g[r + 1][c + 1].z);
    var u := (x - xs[c]) / (xs[c + 1] - xs[c]);
    var v := (y - ys[r]) / (ys[r + 1] - ys[r]);
    UnitFraction(xs[c], x, xs[c + 1]);
    UnitFraction(ys[r], y, ys[r + 1]);
    LerpBetween(g[r][c].z, g[r][c + 1].z, u, lo, hi);
    LerpBetween(g[r + 1][c].z, g[r + 1][c + 1].z, u, lo, hi);
    LerpBetween(Lerp(g[r][c].z, g[r][c + 1].z, u), Lerp(g[r + 1][c].z, g[r + 1][c + 1].z, u), v, lo, hi);
  }

  /**
    * A grid probed on a tilted plane reproduces that plane everywhere: inside the
    * probed area and, since the lookup extrapolates instead of clamping, outside it.
    */
  lemma GridReproducesPlane(g: seq<seq<Point3>>, xs: seq<real>, ys: seq<real>,
                            a: real, b: real, d: real, x: real, y: real)
    requires IsGrid(g, xs, ys)
    requires forall i, j :: 0 <= i < |g| && 0 <= j < |g[i]| ==> g[i][j].z == Plane(a, b, d, xs[j], ys[i])
    ensures RowsNonEmpty(g)
    ensures Height(g, x, y) == Some(Plane(a, b, d, x, y))
  {
    var r, c := GridLookup(g, xs, ys, x, y);
    assert |g[r]| == |xs| && |g[r + 1]| == |xs|;
    PlaneCell(a, b, d, xs[c], xs[c + 1], ys[r], ys[r + 1], x, y,
              g[r][c].z, g[r][c + 1].z, g[r + 1][c].z, g[r + 1][c + 1].z);
  }

  /** The height `a + b x + d y` of a tilted plane. */
  function Plane(a: real, b: real, d: real, x: real, y: real): real {
    a + b * x + d * y
  }

  /** Bilinear interpolation in one cell whose corners lie on a plane stays on that plane. */
  lemma PlaneCell(a: real, b: real, d: real, x1: real, x2: real, y1: real, y2: real, x: real, y: real,
                  z11: real, z21: real, z12: real, z22: real)
    requires x1 != x2 && y1 != y2
    requires z11 == Plane(a, b, d, x1, y1) && z21 == Plane(a, b, d, x2, y1)
    requires z12 == Plane(a, b, d, x1, y2) && z22 == Plane(a, b, d, x2, y2)
    ensures Lerp(Lerp(z11, z21, (x - x1) / (x2 - x1)), Lerp(z12, z22, (x - x1) / (x2 - x1)), (y - y1) / (y2 - y1))
            == Plane(a, b, d, x, y)
  {
    PlaneRow(a, b, d, x1, x2, y1, x);
    PlaneRow(a, b, d, x1, x2, y2, x);
    LerpAffine(a + b * x, d, y1, y2, y);
  }

  /** One row of a plane, blended along x. */
  lemma PlaneRow(a: real, b: real, d: real, x1: real, x2: real, yr: real, x: real)
    requires x1 != x2
    ensures Lerp(a + b * x1 + d * yr, a + b * x2 + d * yr, (x - x1) / (x2 - x1)) == (a + b * x) + d * yr
  {
    LerpAffine(a + d * yr, b, x1, x2, x);
  }

  // ----------------------------------------------------------- sorting facts

  /** A point that no point of `s` sorts after goes to the end. */
  lemma {:induction false} InsertAtEnd(p: Point3, s: seq<Point3>)
    requires AdjacentSorted(s)
    requires forall k :: 0 <= k < |s| ==> Cmp(s[k], p) <= 0.0
    ensures Insert(p, s) == s + [p]
  {
    if s != [] {
      assert AdjacentSorted(s[1..]) by {
        forall k | 0 <= k < |s[1..]| - 1
          ensures Cmp(s[1..][k], s[1..][k + 1]) <= 0.0
        {
          assert s[1..][k] == s[k + 1] && s[1..][k + 1] == s[k + 2];
        }
      }
      assert forall k :: 0 <= k < |s[1..]| ==> s[1..][k] == s[k + 1];
      InsertAtEnd(p, s[1..]);
      assert s == [s[0]] + s[1..];
    }
  }

  /** Sorting a sequence one longer inserts its last point into the sorted rest. */
  lemma SortPointsSnoc(s: seq<Point3>, p: Point3)
    ensures SortPoints(s + [p]) == Insert(p, SortPoints(s))
  {
    assert (s + [p])[..|s|] == s;
  }

  /** Points probed in an order the comparator already accepts, pair by pair, are kept in that order. */
  lemma {:induction false} SortPointsOfOrdered(s: seq<Point3>)
    requires forall i, j :: 0 <= i < j < |s| ==> Cmp(s[i], s[j]) <= 0.0
    ensures SortPoints(s) == s
  {
    if s != [] {
      var init := s[..|s| - 1];
      assert s == init + [s[|s| - 1]];
      SortPointsOfOrdered(init);
      SortPointsSnoc(init, s[|s| - 1]);
      InsertAtEnd(s[|s| - 1], init);
    }
  }

  // ------------------------------------------------------- order independence

  /** Every pair of points is in comparator order, not only neighbours. */
  predicate Ordered(s: seq<Point3>) {
    forall i, j :: 0 <= i < j < |s| ==> Cmp(s[i], s[j]) <= 0.0
  }

  /**
    * The comparator orders the points of `ref` strictly: any two of them lie in
    * the same row (equal y) or in rows more than the row tolerance apart, and two
    * of them at the same (x, y) are the same point.
    */
  predicate StrictlyComparable(ref: seq<Point3>) {
    forall a, b :: a in ref && b in ref ==>
      (a.y == b.y || Abs(a.y - b.y) > RowTolerance) &&
      (a.x == b.x && a.y == b.y ==> a == b)
  }

  /** On such points the comparator is the raster order: by y, then by x. */
  lemma CmpRaster(a: Point3, b: Point3)
    requires a.y == b.y || Abs(a.y - b.y) > RowTolerance
    ensures Cmp(a, b) <= 0.0 <==> a.y < b.y || (a.y == b.y && a.x <= b.x)
  {
  }

  /** The comparator is transitive on strictly comparable points. */
  lemma CmpTransitive(ref: seq<Point3>, a: Point3, b: Point3, c: Point3)
    requires StrictlyComparable(ref) && a in ref && b in ref && c in ref
    requires Cmp(a, b) <= 0.0 && Cmp(b, c) <= 0.0
    ensures Cmp(a, c) <= 0.0
  {
    CmpRaster(a, b);
    CmpRaster(b, c);
    CmpRaster(a, c);
  }

  /** Two strictly comparable points that each sort no later than the other are equal. */
  lemma CmpTies(ref: seq<Point3>, a: Point3, b: Point3)
    requires StrictlyComparable(ref) && a in ref && b in ref
    requires Cmp(a, b) <= 0.0 && Cmp(b, a) <= 0.0
    ensures a == b
  {
    CmpRaster(a, b);
    CmpRaster(b, a);
  }

  /** On strictly comparable points, neighbours in order put every pair in order. */
  lemma AdjacentToOrdered(s: seq<Point3>, ref: seq<Point3>)
    requires AdjacentSorted(s) && StrictlyComparable(ref)
    requires forall k :: 0 <= k < |s| ==> s[k] in ref
    ensures Ordered(s)
  {
    forall i, j | 0 <= i < j < |s|
      ensures Cmp(s[i], s[j]) <= 0.0
    {
      OrderedFrom(s, ref, i, j);
    }
  }

  lemma {:induction false} OrderedFrom(s: seq<Point3>, ref: seq<Point3>, i: nat, j: nat)
    requires AdjacentSorted(s) && StrictlyComparable(ref)
    requires forall k :: 0 <= k < |s| ==> s[k] in ref
    requires i < j < |s|
    ensures Cmp(s[i], s[j]) <= 0.0
    decreases j - i
  {
    if i + 1 < j {
      OrderedFrom(s, ref, i, j - 1);
      CmpTransitive(ref, s[i], s[j - 1], s[j]);
    }
  }

  /** Two orderings of the same strictly comparable points are the same sequence. */
  lemma {:induction false} OrderedUnique(r1: seq<Point3>, r2: seq<Point3>, ref: seq<Point3>)
    requires Ordered(r1) && Ordered(r2) && multiset(r1) == multiset(r2)
    requires StrictlyComparable(ref) && forall k :: 0 <= k < |r1| ==> r1[k] in ref
    ensures r1 == r2
    decreases |r1|
  {
    if r1 == [] {
      assert |r2| == |multiset(r2)| == 0;
    } else {
      OrderedHeads(r1, r2, ref);
      OrderedTails(r1, r2);
      assert forall k :: 0 <= k < |r1[1..]| ==> r1[1..][k] == r1[k + 1];
      OrderedUnique(r1[1..], r2[1..], ref);
      assert r1 == [r1[0]] + r1[1..] && r2 == [r2[0]] + r2[1..];
    }
  }

  /** Two orderings of the same strictly comparable points start with the same point. */
  lemma OrderedHeads(r1: seq<Point3>, r2: seq<Point3>, ref: seq<Point3>)
    requires Ordered(r1) && Ordered(r2) && multiset(r1) == multiset(r2) && r1 != []
    requires StrictlyComparable(ref) && forall k :: 0 <= k < |r1| ==> r1[k] in ref
    ensures r2 != [] && r1[0] == r2[0]
  {
    assert r1[0] in multiset(r2);
    var k :| 0 <= k < |r2| && r2[k] == r1[0];
    assert r2[0] in multiset(r1);
    var m :| 0 <= m < |r1| && r1[m] == r2[0];
    if k > 0 && m > 0 {
      CmpTies(ref, r1[0], r2[0]);
    }
  }

  /** Dropping equal heads keeps both orderings and equal contents. */
  lemma OrderedTails(r1: seq<Point3>, r2: seq<Point3>)
    requires Ordered(r1) && Ordered(r2) && multiset(r1) == multiset(r2)
    requires r1 != [] && r2 != [] && r1[0] == r2[0]
    ensures Ordered(r1[1..]) && Ordered(r2[1..]) && multiset(r1[1..]) == multiset(r2[1..])
  {
    OrderedTail(r1);
    OrderedTail(r2);
    TailContents(r1);
    TailContents(r2);
  }

  lemma OrderedTail(r: seq<Point3>)
    requires Ordered(r) && r != []
    ensures Ordered(r[1..])
  {
    forall i, j | 0 <= i < j < |r| - 1
      ensures Cmp(r[1..][i], r[1..][j]) <= 0.0
    {
      assert r[1..][i] == r[i + 1] && r[1..][j] == r[j + 1];
    }
  }

  lemma TailContents(r: seq<Point3>)
    requires r != []
    ensures multiset(r[1..]) == multiset(r) - multiset{r[0]}
  {
    assert r == [r[0]] + r[1..];
  }

  /**
    * The sort does not depend on the order the points arrive in, as long as the
    * comparator orders them strictly: any two arrangements of the same points
    * sort to the same sequence.
    */
  lemma SortPointsPermutation(s: seq<Point3>, t: seq<Point3>)
    requires multiset(s) == multiset(t) && StrictlyComparable(s)
    ensures SortPoints(s) == SortPoints(t)
  {
    var r1, r2 := SortPoints(s), SortPoints(t);
    forall k | 0 <= k < |r1|
      ensures r1[k] in s
    {
      assert r1[k] in multiset(r1);
    }
    forall k | 0 <= k < |r2|
      ensures r2[k] in s
    {
      assert r2[k] in multiset(r2);
    }
    AdjacentToOrdered(r1, s);
    AdjacentToOrdered(r2, s);
    OrderedUnique(r1, r2, s);
  }

  /** Grid rows more than the row tolerance apart. */
  predicate RowsApart(ys: seq<real>) {
    forall k :: 0 <= k < |ys| - 1 ==> Gap(ys, k) > RowTolerance
  }

  lemma {:induction false} ApartIncreasing(ys: seq<real>, a: nat, b: nat)
    requires RowsApart(ys) && a < b < |ys|
    ensures ys[b] - ys[a] > RowTolerance
    decreases b - a
  {
    assert Gap(ys, a) > RowTolerance;
    if a + 1 < b {
      ApartIncreasing(ys, a + 1, b);
    }
  }

  /** A point of the flattened rows is a point of one of the rows. */
  lemma {:induction false} FlattenMember(g: seq<seq<Point3>>, p: Point3) returns (i: nat, j: nat)
    requires p in Flatten(g)
    ensures i < |g| && j < |g[i]| && g[i][j] == p
  {
    var front := g[..|g| - 1];
    assert g == front + [g[|g| - 1]];
    FlattenSnoc(front, g[|g| - 1]);
    if p in Flatten(front) {
      i, j := FlattenMember(front, p);
      assert front[i] == g[i];
    } else {
      i := |g| - 1;
      j :| 0 <= j < |g[i]| && g[i][j] == p;
    }
  }

  /** The points of a grid whose rows lie apart are strictly comparable. */
  lemma GridComparable(g: seq<seq<Point3>>, xs: seq<real>, ys: seq<real>)
    requires IsGrid(g, xs, ys) && RowsApart(ys)
    ensures StrictlyComparable(Flatten(g))
  {
    forall a, b | a in Flatten(g) && b in Flatten(g)
      ensures a.y == b.y || Abs(a.y - b.y) > RowTolerance
      ensures a.x == b.x && a.y == b.y ==> a == b
    {
      var i, j := FlattenMember(g, a);
      var i', j' := FlattenMember(g, b);
      assert a.x == xs[j] && a.y == ys[i] && b.x == xs[j'] && b.y == ys[i'];
      if i < i' {
        ApartIncreasing(ys, i, i');
      } else if i' < i {
        ApartIncreasing(ys, i', i);
      }
      if j < j' {
        SpacedIncreasing(xs, j, j');
      } else if j' < j {
        SpacedIncreasing(xs, j', j);
      }
    }
  }

  /** Joining two ordered sequences, every point of the first before every point of the second, stays ordered. */
  lemma OrderedAppend(a: seq<Point3>, b: seq<Point3>)
    requires Ordered(a) && Ordered(b)
    requires forall p, q :: p in a && q in b ==> Cmp(p, q) <= 0.0
    ensures Ordered(a + b)
  {
    var s := a + b;
    forall i, j | 0 <= i < j < |s|
      ensures Cmp(s[i], s[j]) <= 0.0
    {
      if j < |a| {
        assert s[i] == a[i] && s[j] == a[j];
      } else if i >= |a| {
        assert s[i] == b[i - |a|] && s[j] == b[j - |a|];
      } else {
        assert s[i] == a[i] && s[j] == b[j - |a|];
      }
    }
  }

  /** The first `k` rows of a grid, read row by row, are in comparator order and lie at or below row `k - 1`. */
  lemma {:induction false} GridPrefixOrdered(g: seq<seq<Point3>>, xs: seq<real>, ys: seq<real>, k: nat)
    requires IsGrid(g, xs, ys) && RowsApart(ys) && 0 < k <= |g|
    ensures Ordered(Flatten(g[..k]))
    ensures forall p :: p in Flatten(g[..k]) ==> p.y <= ys[k - 1]
  {
    var row := g[k - 1];
    var front := Flatten(g[..k - 1]);
    GridRowOrdered(g, xs, ys, k - 1);
    assert g[..k] == g[..k - 1] + [row];
    FlattenSnoc(g[..k - 1], row);
    if k == 1 {
      assert front == [];
      RowsBelow(front, row, ys[0], ys[0]);
    } else {
      GridPrefixOrdered(g, xs, ys, k - 1);
      assert Gap(ys, k - 2) > RowTolerance;
      RowsBelow(front, row, ys[k - 2], ys[k - 1]);
      OrderedAppend(front, row);
    }
  }

  /**
    * Points at or below height `lo`, followed by a row at height `hi` no lower:
    * the joined points lie at or below `hi`, and when `hi` is more than the row
    * tolerance above `lo` every earlier point sorts before every point of the row.
    */
  lemma RowsBelow(a: seq<Point3>, row: seq<Point3>, lo: real, hi: real)
    requires lo <= hi
    requires forall p :: p in a ==> p.y <= lo
    requires forall q :: q in row ==> q.y == hi
    ensures forall p :: p in a + row ==> p.y <= hi
    ensures hi - lo > RowTolerance ==> forall p, q :: p in a && q in row ==> Cmp(p, q) <= 0.0
  {
  }

  /** One row of a grid is in comparator order, at its row's height. */
  lemma GridRowOrdered(g: seq<seq<Point3>>, xs: seq<real>, ys: seq<real>, i: nat)
    requires IsGrid(g, xs, ys) && i < |g|
    ensures Ordered(g[i])
    ensures forall p :: p in g[i] ==> p.y == ys[i]
  {
    var row := g[i];
    assert forall j :: 0 <= j < |row| ==> row[j].y == ys[i] && row[j].x == xs[j];
    forall a, b | 0 <= a < b < |row|
      ensures Cmp(row[a], row[b]) <= 0.0
    {
      SpacedIncreasing(xs, a, b);
    }
  }

  /** A grid read row by row is in comparator order, and its rows obey the grouping rules. */
  lemma GridRaster(g: seq<seq<Point3>>, xs: seq<real>, ys: seq<real>)
    requires IsGrid(g, xs, ys) && RowsApart(ys)
    ensures Ordered(Flatten(g)) && WellGrouped(g)
  {
    GridPrefixOrdered(g, xs, ys, |g|);
    assert g[..|g|] == g;
    GridAnchors(g, xs, ys);
    forall k | 0 < k < |g|
      ensures Abs(Anchor(g[k]) - Anchor(g[k - 1])) > RowTolerance
    {
      assert Gap(ys, k - 1) > RowTolerance;
    }
  }

  /**
    * Probing order does not matter: the points of a grid whose rows lie more than
    * the row tolerance apart, arriving in any order, are grouped into the grid's
    * own rows, so every lookup reads the grid.
    */
  lemma AnyOrderGivesGrid(g: seq<seq<Point3>>, xs: seq<real>, ys: seq<real>, points: seq<Point3>)
    requires IsGrid(g, xs, ys) && RowsApart(ys)
    requires multiset(points) == multiset(Flatten(g))
    ensures SortPoints(points) == Flatten(g)
    ensures Rows(SortPoints(points)) == g
    ensures forall x, y :: Height(Rows(SortPoints(points)), x, y) == Height(g, x, y)
  {
    GridComparable(g, xs, ys);
    GridRaster(g, xs, ys);
    SortPointsPermutation(Flatten(g), points);
    SortPointsOfOrdered(Flatten(g));
    RowsOfFlatten(g);
  }

  /** The points of a grid in the serpentine order they are probed in: odd rows right to left. */
  function Serpentine(g: seq<seq<Point3>>): seq<Point3> {
    if g == [] then []
    else
      var last := g[|g| - 1];
      Serpentine(g[..|g| - 1]) + (if (|g| - 1) % 2 != 0 then Reverse(last) else last)
  }

  /** The serpentine walk visits the points of the raster walk, each once. */
  lemma {:induction false} SerpentinePermutes(g: seq<seq<Point3>>)
    ensures multiset(Serpentine(g)) == multiset(Flatten(g))
  {
    if g != [] {
      SerpentinePermutes(g[..|g| - 1]);
    }
  }

  /**
    * The serpentine probing path gives the same mesh as the raster path: the sort
    * turns it back into the grid's rows, and every lookup agrees.
    */
  lemma SerpentineGivesGrid(g: seq<seq<Point3>>, xs: seq<real>, ys: seq<real>)
    requires IsGrid(g, xs, ys) && RowsApart(ys)
    ensures Rows(SortPoints(Serpentine(g))) == Rows(SortPoints(Flatten(g))) == g
  {
    SerpentinePermutes(g);
    AnyOrderGivesGrid(g, xs, ys, Serpentine(g));
    AnyOrderGivesGrid(g, xs, ys, Flatten(g));
  }

  /**
    * The comparator is not transitive on points whose y values drift by less than
    * the row tolerance from neighbour to neighbour: here c sorts before b, b
    * before a, yet a before c.
    */
  lemma CmpChain()
    ensures var a, b, c := Point3(3.0, 0.0, 0.0), Point3(2.0, 0.0008, 0.0), Point3(1.0, 0.0016, 0.0);
      Cmp(c, b) < 0.0 && Cmp(b, a) < 0.0 && Cmp(a, c) < 0.0
  {
  }

  // ---------------------------------------------------------- lookup failure

  /**
    * The lookup fails exactly when the lower row of the chosen interval holds a
    * single point and the upper row holds more.
    */
  lemma HeightFailure(g: seq<seq<Point3>>, x: real, y: real)
    requires RowsNonEmpty(g)
    ensures Height(g, x, y).None? <==>
      |g| >= 2 && |g[RowIndex(g, y)]| == 1 && |g[RowIndex(g, y) + 1]| >= 2
  {
    if |g| >= 2 {
      var r := RowIndex(g, y);
      var c := ColIndex(g[r], x);
      assert |g[r]| == 1 ==> c == 0;
    }
  }

  /** Rows of equal length never make the lookup fail. */
  lemma HeightDefinedOnEqualRows(g: seq<seq<Point3>>, x: real, y: real)
    requires RowsNonEmpty(g)
    requires forall i :: 0 <= i < |g| ==> |g[i]| == |g[0]|
    ensures Height(g, x, y).Some?
  {
    HeightFailure(g, x, y);
  }

  /** A cell collapsed to a point reads that point's height, wherever the query is. */
  lemma InterpPointCell(q11: Point3, q21: Point3, q12: Point3, q22: Point3, x: real, y: real)
    requires Abs(q21.x - q11.x) < SpanTolerance && Abs(q12.y - q11.y) < SpanTolerance
    ensures Interp(q11, q21, q12, q22, x, y) == q11.z
  {
  }

  /**
    * A cell collapsed along x interpolates along y between its two left corners,
    * whatever x is: it reads `q11.z` on the lower row and `q12.z` on the upper one.
    */
  lemma InterpColumnCell(q11: Point3, q21: Point3, q12: Point3, q22: Point3, x: real, y: real)
    requires Abs(q21.x - q11.x) < SpanTolerance && Abs(q12.y - q11.y) >= SpanTolerance
    ensures Interp(q11, q21, q12, q22, x, y) == Lerp(q11.z, q12.z, (y - q11.y) / (q12.y - q11.y))
    ensures Interp(q11, q21, q12, q22, x, q11.y) == q11.z
    ensures Interp(q11, q21, q12, q22, x, q12.y) == q12.z
  {
    DivSelf(q12.y - q11.y);
    LerpEnds(q11.z, q12.z);
  }

  /**
    * A cell collapsed along y interpolates along x between its two lower corners,
    * whatever y is: it reads `q11.z` on the left and `q21.z` on the right.
    */
  lemma InterpRowCell(q11: Point3, q21: Point3, q12: Point3, q22: Point3, x: real, y: real)
    requires Abs(q21.x - q11.x) >= SpanTolerance && Abs(q12.y - q11.y) < SpanTolerance
    ensures Interp(q11, q21, q12, q22, x, y) == Lerp(q11.z, q21.z, (x - q11.x) / (q21.x - q11.x))
    ensures Interp(q11, q21, q12, q22, q11.x, y) == q11.z
    ensures Interp(q11, q21, q12, q22, q21.x, y) == q21.z
  {
    DivSelf(q21.x - q11.x);
    LerpEnds(q11.z, q21.z);
  }

  /**
    * When the upper row has no point above the chosen column's right neighbour,
    * the lookup does not interpolate: it reads the lower row's point of that column.
    */
  lemma HeightShortUpperRow(g: seq<seq<Point3>>, x: real, y: real)
    requires RowsNonEmpty(g) && |g| >= 2
    requires |g[RowIndex(g, y) + 1]| <= ColIndex(g[RowIndex(g, y)], x) + 1
    ensures Height(g, x, y) == Some(g[RowIndex(g, y)][ColIndex(g[RowIndex(g, y)], x)].z)
  {
  }

  // ------------------------------------------------------- worked examples

  /** The 3 x 3 grid of the mesh tests: height 10 everywhere except 20 at the centre. */
  function PeakGrid(): seq<seq<Point3>> {
    [[Point3(0.0, 0.0, 10.0), Point3(10.0, 0.0, 10.0), Point3(20.0, 0.0, 10.0)],
     [Point3(0.0, 10.0, 10.0), Point3(10.0, 10.0, 20.0), Point3(20.0, 10.0, 10.0)],
     [Point3(0.0, 20.0, 10.0), Point3(10.0, 20.0, 10.0), Point3(20.0, 20.0, 10.0)]]
  }

  /**
    * The peak itself, half-way up its slope, and the middle of the cell beyond
    * it, where the four corners 20, 10, 10, 10 blend to 12.5.
    */
  lemma PeakHeights()
    ensures Height(PeakGrid(), 10.0, 10.0) == Some(20.0)
    ensures Height(PeakGrid(), 5.0, 10.0) == Some(15.0)
    ensures Height(PeakGrid(), 15.0, 15.0) == Some(12.5)
  {
    PeakCentre();
    PeakSlope();
    PeakCell();
  }

  lemma PeakCentre()
    ensures Height(PeakGrid(), 10.0, 10.0) == Some(20.0)
  {
    PeakIsGrid();
    GridNodeExact(PeakGrid(), [0.0, 10.0, 20.0], [0.0, 10.0, 20.0], 1, 1);
  }

  lemma PeakIsGrid()
    ensures IsGrid(PeakGrid(), [0.0, 10.0, 20.0], [0.0, 10.0, 20.0])
  {
    var v := [0.0, 10.0, 20.0];
    assert Gap(v, 0) == 10.0 && Gap(v, 1) == 10.0;
  }

  lemma PeakSlope()
    ensures Height(PeakGrid(), 5.0, 10.0) == Some(15.0)
  {
    var g := PeakGrid();
    assert RowIndex(g, 10.0) == 0;
    assert ColIndex(g[0], 5.0) == 0;
    assert Interp(g[0][0], g[0][1], g[1][0], g[1][1], 5.0, 10.0) == Lerp(10.0, 15.0, 1.0);
  }

  lemma PeakCell()
    ensures Height(PeakGrid(), 15.0, 15.0) == Some(12.5)
  {
    var g := PeakGrid();
    assert RowIndex(g, 15.0) == 1;
    assert ColIndex(g[1], 15.0) == 1;
    assert Interp(g[1][1], g[1][2], g[2][1], g[2][2], 15.0, 15.0) == Lerp(15.0, 10.0, 0.5);
  }

  /** A 2 x 2 mesh probed on the slope z = x. */
  function SlopeGrid(): seq<seq<Point3>> {
    [[Point3(0.0, 0.0, 0.0), Point3(10.0, 0.0, 10.0)],
     [Point3(0.0, 10.0, 0.0), Point3(10.0, 10.0, 10.0)]]
  }

  /**
    * The slope mesh is extrapolated, not clamped, beyond its edge: five units
    * outside it reads -5 although every probed height is 0 or 10.
    */
  lemma ExtrapolatesBeyondEdge()
    ensures RowsNonEmpty(SlopeGrid()) && Height(SlopeGrid(), -5.0, 5.0) == Some(-5.0)
  {
    SlopeIsGrid();
    GridReproducesPlane(SlopeGrid(), [0.0, 10.0], [0.0, 10.0], 0.0, 1.0, 0.0, -5.0, 5.0);
  }

  lemma SlopeIsGrid()
    ensures IsGrid(SlopeGrid(), [0.0, 10.0], [0.0, 10.0])
    ensures forall i, j :: 0 <= i < 2 && 0 <= j < 2 ==>
      SlopeGrid()[i][j].z == Plane(0.0, 1.0, 0.0, [0.0, 10.0][j], [0.0, 10.0][i])
  {
    assert Gap([0.0, 10.0], 0) == 10.0;
  }

  /**
    * A mesh whose first row holds one point and whose second row holds two: the
    * lookup between them fails.
    */
  lemma ShortLowerRowFails()
    ensures var g := [[Point3(0.0, 0.0, 0.0)], [Point3(0.0, 10.0, 0.0), Point3(10.0, 10.0, 0.0)]];
            RowsNonEmpty(g) && Height(g, 5.0, 5.0) == None
  {
  }

  // ------------------------------------------------- the cases of the mesh tests

  /** The 2 x 2 mesh of the first mesh test: the slope z = y. */
  function RampGrid(): seq<seq<Point3>> {
    [[Point3(0.0, 0.0, 0.0), Point3(10.0, 0.0, 0.0)],
     [Point3(0.0, 10.0, 10.0), Point3(10.0, 10.0, 10.0)]]
  }

  /** The ramp is a regular grid probed on the plane z = y. */
  lemma RampIsGrid()
    ensures IsGrid(RampGrid(), [0.0, 10.0], [0.0, 10.0])
    ensures forall i, j :: 0 <= i < 2 && 0 <= j < 2 ==>
      RampGrid()[i][j].z == Plane(0.0, 0.0, 1.0, [0.0, 10.0][j], [0.0, 10.0][i])
  {
    assert Gap([0.0, 10.0], 0) == 10.0;
  }

  /** The ramp reads 5 at its centre, 5 on its left edge and 2 at (2, 2). */
  lemma RampHeights()
    ensures Height(RampGrid(), 5.0, 5.0) == Some(5.0)
    ensures Height(RampGrid(), 0.0, 5.0) == Some(5.0)
    ensures Height(RampGrid(), 2.0, 2.0) == Some(2.0)
  {
    RampIsGrid();
    GridReproducesPlane(RampGrid(), [0.0, 10.0], [0.0, 10.0], 0.0, 0.0, 1.0, 5.0, 5.0);
    GridReproducesPlane(RampGrid(), [0.0, 10.0], [0.0, 10.0], 0.0, 0.0, 1.0, 0.0, 5.0);
    GridReproducesPlane(RampGrid(), [0.0, 10.0], [0.0, 10.0], 0.0, 0.0, 1.0, 2.0, 2.0);
  }

  /** The ramp's points as the second mesh test gives them: the upper row right to left. */
  function ZigzagPoints(): seq<Point3> {
    [Point3(0.0, 0.0, 0.0), Point3(10.0, 0.0, 0.0), Point3(10.0, 10.0, 10.0), Point3(0.0, 10.0, 10.0)]
  }

  /** Sorting puts the reversed row back in order, so the zigzag points group into the ramp. */
  lemma ZigzagRows()
    ensures Rows(SortPoints(ZigzagPoints())) == RampGrid()
  {
    ZigzagSorted();
  }

  /** The ramp's rows read in order: the zigzag points with the upper row turned round. */
  lemma RampFlatten()
    ensures var s := ZigzagPoints(); Flatten(RampGrid()) == [s[0], s[1], s[3], s[2]]
  {
    var g := RampGrid();
    assert Flatten(g[..1]) == g[0];
  }

  /** The zigzag points are the serpentine walk of the ramp. */
  lemma ZigzagIsSerpentine()
    ensures Serpentine(RampGrid()) == ZigzagPoints()
  {
    var g := RampGrid();
    SerpentineTwoRows(g);
    var w := g[0] + Reverse(g[1]);
    var z := ZigzagPoints();
    assert |w| == 4 && w[0] == z[0] && w[1] == z[1] && w[2] == z[2] && w[3] == z[3];
  }

  /** Two rows are walked as the first row, then the second backwards. */
  lemma SerpentineTwoRows(g: seq<seq<Point3>>)
    requires |g| == 2
    ensures Serpentine(g) == g[0] + Reverse(g[1])
  {
    assert g[..1][..0] == [];
    assert Serpentine(g[..1]) == g[0];
  }

  /** The sorted zigzag points: the last point moves in front of the third. */
  lemma ZigzagSorted()
    ensures var s := ZigzagPoints(); SortPoints(s) == [s[0], s[1], s[3], s[2]]
    ensures Rows(SortPoints(ZigzagPoints())) == RampGrid()
  {
    RampIsGrid();
    assert RowsApart([0.0, 10.0]) by {
      assert Gap([0.0, 10.0], 0) == 10.0;
    }
    ZigzagIsSerpentine();
    SerpentinePermutes(RampGrid());
    AnyOrderGivesGrid(RampGrid(), [0.0, 10.0], [0.0, 10.0], ZigzagPoints());
    RampFlatten();
  }

  /** The mesh built from the zigzag points reads 5 at its centre. */
  lemma ZigzagCentre()
    ensures Height(Rows(SortPoints(ZigzagPoints())), 5.0, 5.0) == Some(5.0)
  {
    ZigzagRows();
    RampHeights();
  }

  /**
    * Left of the peak grid and above it the lookup reads 10, the height of the
    * edge it leaves: the edge cells are level across the query, so extrapolating
    * reads the edge height.
    */
  lemma PeakOffLeft()
    ensures Height(PeakGrid(), -5.0, 0.0) == Some(10.0)
  {
    var g := PeakGrid();
    PeakIsGrid();
    assert Anchor(g[0]) == 0.0 && g[0][0].x == 0.0;
    var r, c := GridLookup(g, [0.0, 10.0, 20.0], [0.0, 10.0, 20.0], -5.0, 0.0);
    assert r == 0 && c == 0;
    assert (-5.0 - 0.0) / (10.0 - 0.0) == -0.5 && (0.0 - 0.0) / (10.0 - 0.0) == 0.0;
    assert Lerp(Lerp(10.0, 10.0, -0.5), Lerp(10.0, 20.0, -0.5), 0.0) == 10.0;
  }

  lemma PeakOffTop()
    ensures Height(PeakGrid(), 0.0, 30.0) == Some(10.0)
  {
    var g := PeakGrid();
    PeakIsGrid();
    assert Anchor(g[2]) == 20.0 && g[1][0].x == 0.0;
    var r, c := GridLookup(g, [0.0, 10.0, 20.0], [0.0, 10.0, 20.0], 0.0, 30.0);
    assert r == 1 && c == 0;
    assert (0.0 - 0.0) / (10.0 - 0.0) == 0.0 && (30.0 - 10.0) / (20.0 - 10.0) == 2.0;
    assert Lerp(Lerp(10.0, 20.0, 0.0), Lerp(10.0, 10.0, 0.0), 2.0) == 10.0;
  }
}
