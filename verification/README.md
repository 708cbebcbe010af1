# Auto-levelling extension for cncjs, modelled in Dafny

This project models the core of `cncjs-kt-ext`, a cncjs extension that levels a
G-code program against a warped work surface. Its command `#autolevel` plans a
serpentine grid of probe points and sends the controller the G-code that probes
them. The controller's `[PRB:x,y,z:s]` reports come back over the serial port.
They are cut out of the incoming text, turned into work-space points, and
counted against the planned number. Once the last point arrives, the extension
builds a height mesh (`Mesh`) from the points. It then rewrites the loaded
program. Every straight move is split into short pieces and every arc into
short `G1` lines. Each Z is raised by the bilinearly interpolated height of the
mesh. The new program is loaded under the name `#AL:` + the original name.

The modules follow the source:

- `Units`, `Geometry` and `Common`: the `Units` table, points and the distance
  helpers.
- `GcodeText` and `JsNumber`: the regular expressions, `trim`, `split` and
  `join`, `parseFloat` and `toFixed(3)`. They are written out with
  JavaScript's matching rules: leftmost match, greedy runs, the `i` flag and
  `\s`.
- `HeightMesh` (`mesh.js`, with `class Mesh`) and `MeshProperties`.
- `Segments` (`splitToSegments`, `appendPointSkipDuplicate`) and
  `SegmentProperties`.
- `Arcs` (`interpolateArc`) and `ArcProperties`.
- `GcodeBounds`: the bounds scan of `gcode:load`.
- `Planner`, `PlannerProperties` and `PlannerExamples`: the planning half of
  `start`.
- `ProbeStream` and `ProbeStreamProperties`: the `serialport:read` handler.
- `Compensation` and `CompensationProperties`: `compensateZCoord` and
  `applyCompensation`.
- `Extension`: `class Autolevel`, with the fields the handlers update.
  `outbox` holds every message sent to the controller (`sendGcode`,
  `loadGcode`), in order.

Each loop of the source is a `method` with a `while` loop. Each method is
proved equal to a function that states the same computation on values. The
properties are proved about those functions. Floating-point numbers are
modelled as reals. `Math.sqrt`, `Math.atan2`, `Math.cos`, `Math.sin` and
`Math.PI` are supplied by the caller as a `MathLib`. Only the facts
`Sound`/`TrigSound` are assumed of them, and only by the lemmas that say so.
JavaScript's text of a number inside a template string is a parameter `show`.
Two behaviours of the source are not a value: a loop that never ends, and an
exception. Both are modelled as explicit outcomes (`None`, `Diverges`,
`Throws`/`Failed`, `Stuck`, `halts == false`).

Behaviours of the code worth knowing, which the model follows:

- `Mesh.interpolateZ` does not clamp a query outside the probed area. The
  interpolation factors leave `[0, 1]`, so it extrapolates linearly
  (`MeshProperties.ExtrapolatesBeyondEdge`, `MeshProperties.GridReproducesPlane`).
- The step mode of the planner divides the span by `parseInt(span / D)`. That
  truncates; it does not round (`Planner.Trunc`, `PlannerProperties.StepSpacing`).
- In step mode, `D0` or a span of zero makes the spacing NaN (`Planner.StepOf`).
  The loop over that axis then never runs, and the program probes the initial
  point alone (`PlannerProperties.NaNRowStepProbesInitialOnly`,
  `PlannerProperties.NaNColumnStepProbesInitialOnly`, `PlannerExamples.SquarePlan`).
- An exception in one line (a mesh lookup on a row of one point under a row of
  two or more) aborts the whole compensation pass. One `(AL: error occurred ...)`
  note is sent and nothing is loaded (`Compensation.Fold`, `Compensation.Apply`).
- `gcode:unload` keeps the bounds of the unloaded program.
- A mesh is built from any number of points. With no points every height
  is 0; nothing fails.
- Only `#autolevel reapply` checks for fewer than three points. The end of
  a probing run compensates with whatever it has.
- A line holding both `G90` and `G91` is absolute for the compensation pass
  (it checks `G91` first) but relative for the bounds scan (it checks `G90`
  first) (`CompensationProperties.ModeOrderDiffers`).
- The `D` word of a command also matches inside `GRID3`. So
  `#autolevel GRID3 ...` sets the stored step to 3
  (`PlannerExamples.Grid3Words`).

`tests/test_mesh.js:55` expects 15 at (15, 15) on the 3 x 3 peak grid. The code
gives 12.5, which is what the next check of the same test, at line 67, expects.
The model gives 12.5 (`MeshProperties.PeakHeights`). The "clamping" checks of
that test (lines 69-72) hold only because the grid's edge cells are level
across the queries; the lookup extrapolates there too
(`MeshProperties.PeakOffLeft`, `MeshProperties.PeakOffTop`).

## Model

| member | source | states |
|---|---|---|
| Units.Convert | src/extension/autolevel.js:15-25 | the converted value is the input times the factor of the two units: 1, 1/25.4 or 25.4 |
| Units.ConvertRoundTrip | src/extension/autolevel.js:15-25 | converting to another unit and back returns the value unchanged |
| Units.ConvertAdditive | src/extension/autolevel.js:15-25 | conversion is linear: a sum converts term by term |
| Geometry.Sub3 | src/extension/autolevel.js:492-498 | adding the difference back to `p2` gives `p1` |
| Geometry.DistanceSquared2 | src/extension/autolevel.js:476-478 | a squared planar distance is never negative |
| Geometry.DistanceSquared3 | src/extension/autolevel.js:472-474 | a squared distance is never negative, and it is zero between equal points |
| GcodeText.TrimStart | src/extension/autolevel.js:769 | the result is a suffix of the text: everything removed is white space, and the result does not start with white space |
| GcodeText.TrimEnd | src/extension/autolevel.js:769 | the result is a prefix of the text: everything removed is white space, and the result does not end with white space |
| GcodeText.Trim | src/extension/autolevel.js:769 | `trim` leaves no white space at either end |
| GcodeText.TrimNoSpace | src/extension/autolevel.js:850 | a text without white space is its own trim |
| GcodeText.IndexOfChar | src/extension/autolevel.js:190 | `indexOf` of a character is its first position, or -1 exactly when the character is absent |
| GcodeText.IndexOfFrom | src/extension/autolevel.js:187-190 | `indexOf(pat, from)` is the first occurrence at or after `from`; -1 means there is none |
| GcodeText.DropParenComments | src/extension/autolevel.js:466 | removing `(...)` comments only deletes characters, and no `(` is left before a `)` |
| GcodeText.DropSemicolonComments | src/extension/autolevel.js:467 | removing `;` comments only deletes characters, and no `;` is left |
| GcodeText.RemoveSpaces | src/extension/autolevel.js:468 | removing white space only deletes characters, and no white space is left |
| GcodeText.StripComments | src/extension/autolevel.js:465-470 | `stripComments` only deletes characters, and leaves no white space, no `;` and no `(` before a `)` |
| GcodeText.StripCommentsPlain | src/extension/autolevel.js:465-470 | a line without `(` and `;` loses only its white space |
| GcodeText.DropParenPlain | src/extension/autolevel.js:466 | a text without `(` has no parenthesised comment to remove |
| GcodeText.DropSemicolonPlain | src/extension/autolevel.js:467 | a text without `;` has no `;` comment to remove |
| GcodeText.NumRun | src/extension/autolevel.js:139 | the captured number field is the longest prefix of number characters |
| GcodeText.ParamIndexFrom | src/extension/autolevel.js:304 | the search returns the first position at or after `from` where the word matches, or -1 when there is none |
| GcodeText.Param | src/extension/autolevel.js:304-346 | a word is missing exactly when it matches nowhere; otherwise its value is `parseFloat` of the field at the leftmost match |
| GcodeText.MotionAt | src/extension/autolevel.js:789-792 | a motion word starts with `G` or `g` |
| GcodeText.MotionIndexFrom | src/extension/autolevel.js:789 | the search returns the first position at or after `from` where the motion pattern matches, or -1 |
| GcodeText.FindMotion | src/extension/autolevel.js:789-794 | there is no motion word exactly when the pattern matches nowhere; otherwise it is the word at the leftmost match |
| GcodeText.RemoveCoords | src/extension/autolevel.js:850 | removing the coordinate words only deletes characters |
| GcodeText.RemoveCoordsNoAxis | src/extension/autolevel.js:850 | a line with no X, Y or Z letter keeps all its text |
| GcodeText.Split | src/extension/autolevel.js:749 | `split` gives at least one piece, and no piece holds the separator |
| GcodeText.JoinSplit | src/extension/autolevel.js:749 | joining the pieces of `split` with the same separator gives back the text |
| JsNumber.DigitRun | src/extension/autolevel.js:802 | `parseFloat` reads the longest digit prefix |
| JsNumber.ParseUnsignedDecimal | src/extension/autolevel.js:802 | `digits.digits` reads as its integer part plus its fraction |
| JsNumber.ParseSigned | src/extension/autolevel.js:802 | a leading `-` negates the value |
| JsNumber.NatToString | src/extension/autolevel.js:861 | the digits written for a whole number read back as that number |
| JsNumber.Pad3 | src/extension/autolevel.js:861 | the three fraction digits of `toFixed(3)` read back as the thousandths |
| JsNumber.Round3Error | src/extension/autolevel.js:861 | rounding to thousandths moves a value by at most half a thousandth |
| JsNumber.ParseFixed3 | src/extension/autolevel.js:861 | reading back what `toFixed(3)` wrote gives the rounded value |
| JsNumber.Fixed3Precision | src/extension/autolevel.js:861-869 | a written coordinate reads back within half a thousandth of the value |
| HeightMesh.Insert | src/extension/mesh.js:17-22 | inserting into a sorted sequence keeps it sorted and adds exactly that point |
| HeightMesh.CmpAntisymmetric | src/extension/mesh.js:17-22 | the comparator is antisymmetric |
| HeightMesh.SortPoints | src/extension/mesh.js:17-22 | the sorted copy is in comparator order and is a permutation of the points |
| HeightMesh.Rows | src/extension/mesh.js:24-46 | every row is non-empty, and there are no rows exactly when there are no points |
| HeightMesh.RowsFirst | src/extension/mesh.js:26-28 | the first point opens the first row |
| HeightMesh.RowsJoin | src/extension/mesh.js:33-41 | a point within 0.001 of the current row's first y joins that row |
| HeightMesh.RowsBreak | src/extension/mesh.js:33-41 | a point farther than 0.001 from it starts a new row |
| HeightMesh.RowSearch | src/extension/mesh.js:85-93 | the scan returns the first row interval whose anchors enclose y, or -1 when none does |
| HeightMesh.RowIndex | src/extension/mesh.js:74-94 | the chosen row interval always exists: its lower row is at most the next-to-last row |
| HeightMesh.ColSearch | src/extension/mesh.js:114-121 | the scan returns the first column interval that encloses x, or -1 when none does |
| HeightMesh.ColIndex | src/extension/mesh.js:105-126 | the chosen column is 0 or has a right neighbour in the lower row |
| HeightMesh.Height | src/extension/mesh.js:68-187 | an empty mesh gives 0, and a mesh of one row gives its first point's z |
| HeightMesh.Mesh.constructor | src/extension/mesh.js:3-63 | the grid holds the rows of the sorted copy of the points; `MeshProperties.AnyOrderGivesGrid` shows that for a grid this does not depend on the probe order |
| HeightMesh.Mesh.InterpolateZ | src/extension/mesh.js:68-187 | the row scan, the column scan and the interpolation give the height of the mesh, or fail where it fails |
| HeightMesh.Mesh.GroupRows | src/extension/mesh.js:25-46 | the loop over the sorted points builds exactly the rows of the grouping |
| HeightMesh.Mesh.FindRow | src/extension/mesh.js:74-94 | the clamps and the scan of the lookup pick the row interval of the mesh |
| HeightMesh.Mesh.ScanRows | src/extension/mesh.js:86-93 | the loop finds the first enclosing row interval |
| HeightMesh.Mesh.FindColumn | src/extension/mesh.js:105-126 | the clamps, the scan and the short-row guards pick the column interval of the mesh |
| HeightMesh.Mesh.ScanColumns | src/extension/mesh.js:114-121 | the loop finds the first enclosing column interval |
| MeshProperties.RowsFlatten | src/extension/mesh.js:24-46 | grouping neither drops, duplicates nor reorders points: the rows read in order are the sorted points |
| MeshProperties.RowsWellGrouped | src/extension/mesh.js:28-42 | every point of a row lies within 0.001 of the row's first y, and each row starts more than 0.001 from the previous row's first y |
| MeshProperties.RowsUnique | src/extension/mesh.js:24-46 | any rows that hold the sorted points in order and obey those rules are the rows the mesh builds |
| MeshProperties.RowsOfFlatten | src/extension/mesh.js:24-46 | grouping the points of well-grouped rows gives those rows back |
| MeshProperties.SortPointsSnoc | src/extension/mesh.js:17-22 | sorting one more point inserts it into the sorted rest |
| MeshProperties.InsertAtEnd | src/extension/mesh.js:17-22 | a point no point sorts after goes to the end |
| MeshProperties.SortPointsOfOrdered | src/extension/mesh.js:17-22 | points already in comparator order keep their order: the sort is stable |
| MeshProperties.CmpRaster | src/extension/mesh.js:17-22 | on points in equal rows or rows more than 0.001 apart, the comparator is the raster order: by y, then by x |
| MeshProperties.CmpTransitive | src/extension/mesh.js:17-22 | on strictly comparable points the comparator is transitive |
| MeshProperties.CmpTies | src/extension/mesh.js:17-22 | two strictly comparable points that each sort no later than the other are the same point |
| MeshProperties.AdjacentToOrdered | src/extension/mesh.js:17-22 | on strictly comparable points, neighbours in order put every pair in order |
| MeshProperties.OrderedUnique | src/extension/mesh.js:17-22 | two orderings of the same strictly comparable points are the same sequence |
| MeshProperties.SortPointsPermutation | src/extension/mesh.js:15-22 | two arrangements of the same strictly comparable points sort to the same sequence: the sort does not depend on the arrival order |
| MeshProperties.GridComparable | src/extension/mesh.js:17-22 | the points of a grid whose rows lie more than 0.001 apart are strictly comparable |
| MeshProperties.GridRaster | src/extension/mesh.js:17-46 | such a grid read row by row is in comparator order, and its rows obey the grouping rules |
| MeshProperties.AnyOrderGivesGrid | src/extension/mesh.js:3-46 | the points of such a grid, arriving in any order, are grouped into the grid's own rows, so every lookup reads the grid |
| MeshProperties.SerpentinePermutes | src/extension/autolevel.js:421-447 | the serpentine walk visits the points of the raster walk, each once |
| MeshProperties.SerpentineTwoRows | src/extension/autolevel.js:421-447 | two rows are walked as the first row, then the second backwards |
| MeshProperties.SerpentineGivesGrid | tests/test_mesh.js:29-37 | the serpentine probing path gives the same rows as the raster path: the grid itself |
| MeshProperties.CmpChain | src/extension/mesh.js:17-22 | the comparator is not transitive on points whose y drifts by less than 0.001 from neighbour to neighbour |
| MeshProperties.InterpPointCell | src/extension/mesh.js:161 | a cell with both spans below 1e-9 reads its first corner's height |
| MeshProperties.InterpColumnCell | src/extension/mesh.js:162-166 | a cell with an x span below 1e-9 interpolates along y between its left corners, reading each at its own row |
| MeshProperties.InterpRowCell | src/extension/mesh.js:167-171 | a cell with a y span below 1e-9 interpolates along x between its lower corners, reading each at its own column |
| MeshProperties.HeightInCell | src/extension/mesh.js:139-186 | when both rows of the chosen interval reach past the chosen column, the lookup interpolates in that column's cell |
| MeshProperties.HeightShortUpperRow | src/extension/mesh.js:139-143 | when the upper row has no point above the chosen column's right neighbour, the lookup reads the lower row's point without interpolating |
| MeshProperties.GridAnchors | src/extension/mesh.js:77-78 | on a regular grid each row is matched against its own y |
| MeshProperties.GridRowEncloses | src/extension/mesh.js:74-94 | inside the probed rows the chosen row interval encloses y |
| MeshProperties.GridColumnEncloses | src/extension/mesh.js:105-126 | inside the probed columns the chosen column interval encloses x |
| MeshProperties.GridLookup | src/extension/mesh.js:96-186 | on a regular grid every lookup is a bilinear interpolation in one cell, inside the probed area or not |
| MeshProperties.LerpBetween | src/extension/mesh.js:180-184 | a blend with a weight in [0, 1] stays between its ends |
| MeshProperties.LerpAffine | src/extension/mesh.js:169-170 | blending an affine function's values gives its value in between or beyond |
| MeshProperties.GridNodeRow | src/extension/mesh.js:80-94 | a probed row's y picks an interval that starts or ends at that row |
| MeshProperties.GridNodeColumn | src/extension/mesh.js:109-122 | a probed column's x picks an interval that starts or ends at that column |
| MeshProperties.GridNodeExact | src/extension/mesh.js:68-187 | at every probed point the lookup returns exactly the probed height |
| MeshProperties.GridWithinProbedHeights | src/extension/mesh.js:173-186 | inside the probed area the chosen cell encloses (x, y), and the height lies between the lowest and the highest of that cell's four corners |
| MeshProperties.GridReproducesPlane | src/extension/mesh.js:68-187 | a grid probed on a tilted plane reproduces the plane everywhere, inside and outside the probed area |
| MeshProperties.PlaneCell | src/extension/mesh.js:176-184 | bilinear interpolation in a cell whose corners lie on a plane stays on the plane |
| MeshProperties.HeightFailure | src/extension/mesh.js:124-152 | the lookup fails exactly when the lower row of its interval has one point and the upper row has more |
| MeshProperties.HeightDefinedOnEqualRows | src/extension/mesh.js:124-152 | rows of equal length never make the lookup fail |
| MeshProperties.PeakHeights | tests/test_mesh.js:39-67 | on the 3 x 3 peak grid the lookup gives 20 at the peak, 15 half-way up its slope, and 12.5 at (15, 15) |
| MeshProperties.PeakIsGrid | tests/test_mesh.js:44-51 | the peak points form a regular 3 x 3 grid |
| MeshProperties.PeakCentre | tests/test_mesh.js:53 | the height at the peak is 20 |
| MeshProperties.PeakSlope | tests/test_mesh.js:54 | the height at (5, 10) is 15 |
| MeshProperties.PeakCell | tests/test_mesh.js:55-67 | the height at (15, 15) is 12.5 |
| MeshProperties.ExtrapolatesBeyondEdge | src/extension/mesh.js:109-112 | five units beyond the edge of the slope z = x the lookup reads -5: it extrapolates and does not clamp |
| MeshProperties.ShortLowerRowFails | src/extension/mesh.js:139-152 | a row of one point under a row of two makes the lookup fail |
| MeshProperties.RampIsGrid | tests/test_mesh.js:13-24 | the first test's four points form a 2 x 2 grid probed on the plane z = y |
| MeshProperties.RampHeights | tests/test_mesh.js:24-27 | that mesh reads 5 at (5, 5), 5 at (0, 5) and 2 at (2, 2) |
| MeshProperties.ZigzagSorted | tests/test_mesh.js:29-36 | sorting the zigzag points moves the last point in front of the one it shares its row with |
| MeshProperties.ZigzagIsSerpentine | tests/test_mesh.js:29-35 | the test's zigzag points are the serpentine walk of the ramp |
| MeshProperties.ZigzagRows | tests/test_mesh.js:29-36 | the zigzag points, the upper row right to left, group into the same rows as the ordered ones |
| MeshProperties.ZigzagCentre | tests/test_mesh.js:36-37 | the mesh built from the zigzag points reads 5 at its centre |
| MeshProperties.PeakOffLeft | tests/test_mesh.js:69-71 | left of the peak grid, at (-5, 0), the lookup reads 10 |
| MeshProperties.PeakOffTop | tests/test_mesh.js:69-72 | above the peak grid, at (0, 30), the lookup reads 10 |
| Segments.AppendSkipDuplicate | src/extension/autolevel.js:511-521 | the point is appended to a non-empty list only when it lies farther than the tolerance from the last point; nothing kept changes, and spread lists stay spread |
| Segments.AppendAll | src/extension/autolevel.js:550-561 | offering points only appends some of them, keeps the first point and keeps the list spread |
| Segments.AppendAllSnoc | src/extension/autolevel.js:550-561 | offering one more point is one more duplicate check |
| Segments.Samples | src/extension/autolevel.js:550-556 | there is one sample per step |
| Segments.SampleCountExact | src/extension/autolevel.js:550 | the loop runs for exactly the multiples of the step that lie below the length |
| Segments.Split | src/extension/autolevel.js:530-563 | a move shorter than 1e-10 gives no points; the loop never ends exactly when the move is longer and the step is not positive |
| Segments.SplitToSegments | src/extension/autolevel.js:530-563 | the method computes the split of the move |
| Segments.SampleLoop | src/extension/autolevel.js:550-556 | the `for` loop offers, after the start, every multiple of the step below the length |
| Segments.SplitStep | src/extension/autolevel.js:550-556 | one turn of the loop offers the next multiple |
| SegmentProperties.AppendAllKeeps | src/extension/autolevel.js:511-521 | every point kept was already there or was offered |
| SegmentProperties.SkipDuplicateKeeps | src/extension/autolevel.js:511-521 | the duplicate check adds no point but the one offered |
| SegmentProperties.SplitShape | src/extension/autolevel.js:530-563 | a split starts at the start point, repeats no point, ends at or within the tolerance of the end point, and has at most the samples plus two points |
| SegmentProperties.AtLength | src/extension/autolevel.js:539-561 | walking the full length along the direction reaches the end point |
| SegmentProperties.SampleAt | src/extension/autolevel.js:550-555 | the `j`-th sample is `j + 1` steps along the move |
| SegmentProperties.SplitOnMove | src/extension/autolevel.js:539-561 | every point of the split lies on the segment from the start to the end point |
| SegmentProperties.SampleOnMove | src/extension/autolevel.js:550-555 | every sample lies on the move |
| SegmentProperties.UnitDirection | src/extension/autolevel.js:539-543 | the direction vector has length 1 |
| SegmentProperties.DistanceAlong | src/extension/autolevel.js:551-555 | two points along one direction are as far apart as their parameters, scaled by the direction's length |
| SegmentProperties.SpreadAllKept | src/extension/autolevel.js:511-521 | points that are already spread pass the duplicate check unchanged |
| SegmentProperties.KeptStep | src/extension/autolevel.js:517-519 | a point farther than the tolerance is appended |
| SegmentProperties.TickSpacing | src/extension/autolevel.js:550-555 | consecutive multiples of the step are one step apart |
| SegmentProperties.SamplesAllKept | src/extension/autolevel.js:550-556 | with a step longer than the tolerance no sample is dropped |
| SegmentProperties.LastGap | src/extension/autolevel.js:550-561 | the end point is at most one step beyond the last sample |
| SegmentProperties.LastSampleGap | src/extension/autolevel.js:550 | the last multiple below the length falls short of it by more than 0 and at most one step |
| SegmentProperties.SplitSpacing | src/extension/autolevel.js:530-563 | when the step is longer than the duplicate tolerance, no two consecutive points of a split are farther apart than the step |
| Arcs.ArcMaxSegment | src/extension/autolevel.js:616-617 | the arc resolution is always positive |
| Arcs.ArcCentre | src/extension/autolevel.js:620-680 | the move stays a straight line exactly when there is no I or J, and R is missing, the chord is shorter than 1e-9 or abs(R) is below half the chord |
| Arcs.SideCentre | src/extension/autolevel.js:659-671 | the R centre is `h` along or against the chord's normal from its midpoint |
| Arcs.Sweep | src/extension/autolevel.js:683-693 | the sweep differs from the angle difference by 0 or one full turn, and it is negative for G2 and positive for G3 |
| Arcs.ArcSegmentCount | src/extension/autolevel.js:696-698 | the piece count is the fewest pieces no longer than the resolution that cover the arc, at least 1 |
| Arcs.PiecesCover | src/extension/autolevel.js:697-698 | `Math.ceil` of the length over the resolution, at least 1, covers the arc with the fewest pieces |
| Arcs.ArcPoints | src/extension/autolevel.js:703-710 | the loop gives one point per piece |
| Arcs.ArcLength | src/extension/autolevel.js:696 | an arc length is never negative |
| Arcs.ArcPieces | src/extension/autolevel.js:696-698 | an arc has at least one piece |
| Arcs.ArcAround | src/extension/autolevel.js:683-712 | an arc around a centre gives at least one point |
| Arcs.ArcSegments | src/extension/autolevel.js:600-713 | an arc move is always replaced by at least one point |
| Arcs.InterpolateArc | src/extension/autolevel.js:600-713 | the method computes the arc split |
| Arcs.SplitArc | src/extension/autolevel.js:683-712 | the angles, the piece count and the steps give the points around the centre |
| Arcs.ArcLoop | src/extension/autolevel.js:703-710 | the loop gives the points 1 to `n` |
| ArcProperties.ArcPointsAt | src/extension/autolevel.js:703-710 | the `k`-th point is `k + 1` steps along the arc |
| ArcProperties.ArcPointsHeights | src/extension/autolevel.js:701-710 | with equal height steps every height lies between the start and the end, and the last is the end |
| ArcProperties.ArcHeights | src/extension/autolevel.js:600-713 | every point of an arc split lies between the start and end heights, and the last is at the end height |
| ArcProperties.ArcPointsOnCircle | src/extension/autolevel.js:703-710 | every point lies on the circle |
| ArcProperties.ArcOnCircle | src/extension/autolevel.js:683-712 | when the move is split as an arc, every point lies on its circle |
| ArcProperties.OffsetCircle | src/extension/autolevel.js:623-629 | with I or J, the centre is the start plus (I, J), a missing word counting as 0, and the circle passes through the start |
| ArcProperties.StepWithinResolution | src/extension/autolevel.js:696-700 | every angle step covers at most the arc resolution along the circle |
| ArcProperties.RadiusCentreOffset | src/extension/autolevel.js:637-676 | with R, the centre is the signed offset along the chord's unit normal from the midpoint, and the radius is abs(R) |
| ArcProperties.RadiusCircle | src/extension/autolevel.js:637-676 | with R, the centre is abs(R) away from both ends of the move |
| ArcProperties.ArcRadiusCircle | src/extension/autolevel.js:631-676 | an R arc whose centre is found passes through both ends with radius abs(R) |
| GcodeBounds.Modes | src/extension/autolevel.js:132-135 | the mode words leave the ranges alone |
| GcodeBounds.ScanBounds | src/extension/autolevel.js:114-162 | the `forEach` over the lines computes the bounds of the program |
| GcodeBounds.ScanNext | src/extension/autolevel.js:128-155 | the scan of one more line is one more step |
| GcodeBounds.ScanStep | src/extension/autolevel.js:128-154 | one line updates the modes and ranges; `hasMoves` is set exactly when a value was recorded, so it tells whether a range exists |
| GcodeBounds.ScanModes | src/extension/autolevel.js:132-135 | the four mode tests compute the modes of the scan |
| GcodeBounds.ScanWords | src/extension/autolevel.js:138-153 | the X and Y words of an absolute line widen their ranges in millimetres and set `hasMoves` |
| GcodeBounds.WidenSpans | src/extension/autolevel.js:144-151 | the `min`/`max` update keeps a range exactly the span of the values seen |
| GcodeBounds.ScanLast | src/extension/autolevel.js:128-155 | the last line widens its axis by the value it records |
| GcodeBounds.ScanSpan | src/extension/autolevel.js:128-155 | each axis's range is exactly the span of the values recorded on it: it holds all of them and has one at each end |
| GcodeBounds.RecordedInValues | src/extension/autolevel.js:138-153 | every value a line records is among the program's values |
| GcodeBounds.BoundsContain | src/extension/autolevel.js:114-162 | every X or Y word of an absolute line lies within the bounds, in millimetres |
| GcodeBounds.BoundsMissing | src/extension/autolevel.js:157-159 | the bounds are null exactly when no X or Y value was recorded |
| GcodeBounds.RelativeWins | src/extension/autolevel.js:132-133 | a line with `G91` leaves the scan relative and records no X value |
| Planner.OrElse | src/extension/autolevel.js:303-305 | a given word wins over the default |
| Planner.Update | src/extension/autolevel.js:322-329 | a missing `D`, `H` or `F` word keeps the stored setting |
| Planner.AxisRange | src/extension/autolevel.js:369-398 | a truthy size gives `[margin, size - margin]`; otherwise the program's bounds shrunk by the margin, none when the bounds hold no value on the axis; without bounds the context shrunk by the margin |
| Planner.Trunc | src/extension/autolevel.js:406 | `parseInt` of a quotient written in plain decimal notation truncates toward zero |
| Planner.GridPoints | src/extension/autolevel.js:402 | the GRID count is at least 2 |
| Planner.Spacing | src/extension/autolevel.js:400-408 | GRID mode gives span / (count - 1); step mode has no finite spacing exactly when `D` is 0 or no whole step fits |
| Planner.StepOf | src/extension/autolevel.js:400-408 | the spacing is finite exactly when `Spacing` gives one; it is NaN exactly when step mode meets `D` 0 or a zero span; an infinite one has the sign of `D` |
| Planner.Clamp | src/extension/autolevel.js:424 | a position beyond the edge is pulled back onto it; others are kept |
| Planner.AxisValues | src/extension/autolevel.js:427-432 | the loop never ends exactly when the step is not positive and the loop starts |
| Planner.AxisPrefix | src/extension/autolevel.js:427-432 | the `i`-th position is `lo + i * d`, pulled back onto `hi` |
| Planner.AxisCountExact | src/extension/autolevel.js:428 | the loop runs one more turn exactly while fewer positions than the count are visited |
| Planner.AxisStart | src/extension/autolevel.js:427 | the loop starts one step before `lo` |
| Planner.AxisStep | src/extension/autolevel.js:428-431 | one turn visits the next position |
| Planner.AxisLoop | src/extension/autolevel.js:426-432 | the loop visits the positions of the axis |
| Common.Reverse | src/extension/autolevel.js:435 | the reversed row is the row backwards, holding the same points |
| Planner.Visits | src/extension/autolevel.js:442-446 | every probed point adds four lines |
| Planner.RenderAll | src/extension/autolevel.js:450 | every line is rendered in order |
| Planner.VisitsAppend | src/extension/autolevel.js:438-447 | the lines of two runs of points are those of the first, then those of the second, numbered on |
| Planner.TargetsStep | src/extension/autolevel.js:422-449 | the targets of one more row follow the targets so far |
| Planner.RowsStep | src/extension/autolevel.js:438-447 | appending a row's lines keeps the program the visits of all targets so far |
| Planner.PlanProbes | src/extension/autolevel.js:409-449 | the initial point and the nested loops give the plan of the rectangle |
| Planner.RowLoop | src/extension/autolevel.js:419-449 | the row loop gives the plan for the row positions |
| Planner.RowsStart | src/extension/autolevel.js:419-420 | the row loop starts one step before `ymin`, after the initial point |
| Planner.RowsEnd | src/extension/autolevel.js:422 | when the row loop ends, its lines and count are the plan |
| Planner.NextRow | src/extension/autolevel.js:422-449 | one turn of the row loop keeps the loop state, unless the column loop never ends |
| Planner.ProbeRow | src/extension/autolevel.js:426-447 | one row probes its oriented positions and counts them |
| Planner.EmitRow | src/extension/autolevel.js:438-447 | the inner loop appends four lines per probed point and counts it |
| PlannerProperties.AxisShape | src/extension/autolevel.js:427-432 | the positions start at `lo`, climb strictly by one step, never pass `hi`, and the last is within 0.01 of `hi` |
| PlannerProperties.GridAxis | src/extension/autolevel.js:401-432 | GRID `n` gives exactly `n` positions, `lo + i * d`, the last exactly `hi` |
| PlannerProperties.GridSpacing | src/extension/autolevel.js:401-404 | GRID `n` spaces the span into `n - 1` equal steps |
| PlannerProperties.StepSpacing | src/extension/autolevel.js:405-408 | step mode divides the span evenly, into steps of at least `D` and less than twice `D` |
| PlannerProperties.StepBounds | src/extension/autolevel.js:406 | the span over the truncated number of steps lies in `[D, 2D)` |
| PlannerProperties.RowMembers | src/extension/autolevel.js:438-447 | a row probes exactly its positions at its y, less the skipped one |
| PlannerProperties.RowLength | src/extension/autolevel.js:438-447 | every row after the first probes all its positions |
| PlannerProperties.OrientedMembers | src/extension/autolevel.js:434-436 | reversing a row keeps its positions |
| PlannerProperties.TargetIsNode | src/extension/autolevel.js:419-449 | every point probed is a grid node |
| PlannerProperties.NodeIsTarget | src/extension/autolevel.js:419-449 | every grid node is probed |
| PlannerProperties.TargetsLast | src/extension/autolevel.js:419-449 | the last row's points come after the earlier rows |
| PlannerProperties.NodeInRow | src/extension/autolevel.js:434-447 | a node of a row is probed in that row, whichever way it runs |
| PlannerProperties.TargetsAreNodes | src/extension/autolevel.js:419-449 | the program probes exactly the grid nodes but the initial point's first-row duplicates |
| PlannerProperties.RenderProbe | src/extension/autolevel.js:414 | only a probing move renders to a `G38.2` line |
| PlannerProperties.CountRendered | src/extension/autolevel.js:450 | the `G38.2` lines of the text are the probing moves |
| PlannerProperties.ProbesAppend | src/extension/autolevel.js:409-449 | probing moves add up over concatenation |
| PlannerProperties.VisitProbes | src/extension/autolevel.js:442-446 | a point's four lines probe once |
| PlannerProperties.InitialProbes | src/extension/autolevel.js:409-417 | the opening lines probe once |
| PlannerProperties.VisitsProbes | src/extension/autolevel.js:438-447 | the lines of `n` points probe `n` times |
| PlannerProperties.PlannedCountIsProbeLines | src/extension/autolevel.js:409-450 | `planedPointCount` equals the number of `G38.2` lines sent |
| PlannerProperties.StepsCountIsProbeLines | src/extension/autolevel.js:400-450 | whatever the spacings, finite or not, `planedPointCount` equals the number of `G38.2` lines sent |
| PlannerProperties.NaNRowStepProbesInitialOnly | src/extension/autolevel.js:400-422 | in step mode, `D0` or a rectangle of zero height sends the initial point alone, with a count of 1 |
| PlannerProperties.NaNColumnStepProbesInitialOnly | src/extension/autolevel.js:400-432 | in step mode a rectangle of zero width sends the initial point alone, with a count of 1, unless a negative `D` makes the row loop endless |
| PlannerProperties.StepSign | src/extension/autolevel.js:406-407 | the step-mode spacing is positive exactly when `D` is |
| PlannerExamples.ParseWhole | src/extension/autolevel.js:305 | a whole decimal number reads as its value |
| PlannerExamples.NumRunPrefix | src/extension/autolevel.js:304 | the field ends at the first non-number character |
| PlannerExamples.LetterAbsent | src/extension/autolevel.js:304 | a letter absent in both cases never matches |
| PlannerExamples.LeftmostIs | src/extension/autolevel.js:304-305 | a match with no earlier candidate is the leftmost |
| PlannerExamples.FieldIs | src/extension/autolevel.js:304-305 | a digit field ended by a non-number character reads as its digits |
| PlannerExamples.WordAt | src/extension/autolevel.js:304 | a word written after a text matches there |
| PlannerExamples.WordValue | src/extension/autolevel.js:304-346 | the value of a word after a text without its letter is its digits |
| PlannerExamples.ParamAbsent | src/extension/autolevel.js:325-329 | a word whose letter is absent is missing |
| PlannerExamples.Grid3Words | reproduce_grid.js:48-49 | the command's words: GRID 3, X 10, Y 10, M 0, P 1 and D 3 (inside `GRID3`) |
| PlannerExamples.Grid3Axis | reproduce_grid.js:43-46 | GRID 3 on the 10 mm axis probes 0, 5 and 10 |
| PlannerExamples.Grid3Targets | reproduce_grid.js:43-46 | eight points follow the initial one |
| PlannerExamples.Grid3Spacing | reproduce_grid.js:43-46 | GRID 3 spaces the 10 mm axis by 5 |
| PlannerExamples.Grid3Planned | reproduce_grid.js:43-49 | the request plans 9 points |
| PlannerExamples.Grid3Plan | reproduce_grid.js:43-49 | `#autolevel GRID3 X10 Y10 M0 P1` on a 10 x 10 area plans 9 points |
| PlannerExamples.Grid2Words | reproduce_grid.js:54-55 | the command's words: GRID 2, D 2, X 10, Y 10, M 0, P 1 |
| PlannerExamples.Grid2Spacing | reproduce_grid.js:51-53 | GRID 2 spaces the 10 mm axis by 10 |
| PlannerExamples.Grid2Axis | reproduce_grid.js:51-53 | GRID 2 on the 10 mm axis probes its two ends |
| PlannerExamples.Grid2Targets | reproduce_grid.js:51-53 | three points follow the initial one |
| PlannerExamples.Grid2Planned | reproduce_grid.js:51-55 | the request plans 4 points |
| PlannerExamples.Grid2Plan | reproduce_grid.js:51-55 | `#autolevel GRID2 D2 X10 Y10 M0 P1` plans the 4 corners: the count wins over the step |
| PlannerExamples.SquarePlan | src/extension/autolevel.js:331-422 | `#autolevel X5 Y5` with the default step has margins of 2.5 and sends the initial point (2.5, 2.5) alone |
| ProbeStream.TrimBuffer | src/extension/autolevel.js:181-184 | a buffer over 5000 characters is cut back to its last 2000; a shorter one is kept |
| ProbeStream.NextChunk | src/extension/autolevel.js:186-195 | what is left after a record is a strictly shorter tail of the buffer |
| ProbeStream.ReportIndexFrom | src/extension/autolevel.js:199 | the search returns the first position at or after `i` where the report pattern matches, or -1 |
| ProbeStream.FirstReport | src/extension/autolevel.js:199 | a record gives no report exactly when the pattern matches nowhere in it |
| ProbeStreamProperties.ChunkShape | src/extension/autolevel.js:186-195 | a record runs from the first `[PRB:` to the first `]` after it, and the rest of the buffer is what follows |
| ProbeStreamProperties.ChunkMissing | src/extension/autolevel.js:186-191 | no record is cut out exactly when there is no `[PRB:`, or no `]` after the first one |
| ProbeStreamProperties.DrainStops | src/extension/autolevel.js:186-191 | the extraction loop stops only when no complete record is left |
| ProbeStreamProperties.DrainLeavesTail | src/extension/autolevel.js:186-195 | what the loop leaves is a tail of the buffer |
| ProbeStreamProperties.ReportAccepted | src/extension/autolevel.js:199-201 | every report `x,y,z:d]` or `x,y,z,w:d]` is accepted with its first three numbers as coordinates |
| ProbeStreamProperties.StatusRequired | src/extension/autolevel.js:199-200 | a record without the `:d` status gives no point |
| ProbeStreamProperties.StatsAppend | src/extension/autolevel.js:213-220 | the update for one more point keeps the minimum, maximum and sum of z exact |
| ProbeStreamProperties.HandleStats | src/extension/autolevel.js:212-221 | handling a record keeps the statistics exact |
| ProbeStreamProperties.HandleEvents | src/extension/autolevel.js:200-245 | outside a run or without a report nothing changes; otherwise the point (machine position less `wco`) is appended and echoed, and the last planned point sends the summary, then compensates or finishes, and resets the count and `wco` |
| ProbeStreamProperties.ProbedAppend | src/extension/autolevel.js:222-223 | the echoed points add up over concatenation |
| ProbeStreamProperties.HandleProbed | src/extension/autolevel.js:222-223 | a record appends exactly the point it echoes |
| ProbeStreamProperties.DrainStats | src/extension/autolevel.js:186-247 | reading keeps the statistics exact |
| ProbeStreamProperties.DrainPoints | src/extension/autolevel.js:212-223 | the points recorded while reading are exactly those echoed with `(AL: PROBED ...)`, in order |
| ProbeStreamProperties.ProbedChain | src/extension/autolevel.js:222-223 | the echoed points of two reads chain |
| ProbeStreamProperties.DrainWithinPlan | src/extension/autolevel.js:212-242 | a run never records more points than planned, and it ends on the planned count exactly |
| ProbeStreamProperties.DrainIdle | src/extension/autolevel.js:243-245 | outside a run every record is consumed and dropped |
| ProbeStreamProperties.HandleProbeOnly | src/extension/autolevel.js:233-239 | a record of a probe-only run never asks for a compensation |
| ProbeStreamProperties.NoCompensationAppend | src/extension/autolevel.js:233-239 | events without a compensation stay so when joined |
| ProbeStreamProperties.DrainProbeOnly | src/extension/autolevel.js:186-247 | a probe-only run never compensates |
| Compensation.CompensateZCoord | src/extension/autolevel.js:715-736 | the method compensates a point with the mesh's height |
| Compensation.Texts | src/extension/autolevel.js:947 | one text per line, in order |
| Compensation.Rewrites | src/extension/autolevel.js:866-871 | the loop fails exactly when a point's lookup fails; otherwise there is one rewritten line per point, holding its compensated point and its own z |
| Compensation.RewritePoints | src/extension/autolevel.js:866-871 | the loop over the points rewrites them |
| Compensation.RewritesNext | src/extension/autolevel.js:866-871 | one more point adds its line or fails |
| Compensation.RewritesStop | src/extension/autolevel.js:866-871 | a failing point fails the whole loop |
| Compensation.Modes | src/extension/autolevel.js:780-794 | the mode words leave the position and the anchor alone |
| Compensation.CompensateLine | src/extension/autolevel.js:761-942 | the body of the `forEach` is one step of the pass |
| Compensation.ReadModes | src/extension/autolevel.js:780-794 | the mode tests compute the modes |
| Compensation.ReadTarget | src/extension/autolevel.js:796-823 | the X, Y and Z words give the target and `hasMove` |
| Compensation.MoveTo | src/extension/autolevel.js:800-819 | each word is absolute or added to the position; `hasMove` is set exactly when a word is present |
| Compensation.MoveLine | src/extension/autolevel.js:825-940 | the motion part of the body is the motion step of the pass |
| Compensation.NotesCount | src/extension/autolevel.js:762-765 | one progress note is sent per started thousand lines |
| Compensation.FoldStopped | src/extension/autolevel.js:744-760 | once a line throws or hangs, later lines change nothing |
| Compensation.FoldNext | src/extension/autolevel.js:761-942 | one more line extends the result, or stops the pass at that line |
| Compensation.PassLine | src/extension/autolevel.js:761-942 | one pass of the body extends the pass by its line |
| Compensation.CompensateLines | src/extension/autolevel.js:758-942 | the `forEach` computes the pass over all lines, and the progress notes of the lines it reached |
| CompensationProperties.CompensateShape | src/extension/autolevel.js:715-736 | a compensated point keeps x and y, and gets its z raised by the mesh height converted to the program's units; it fails exactly when the lookup fails |
| CompensationProperties.NoPointsNoChange | src/extension/autolevel.js:723-735 | with no probed points the mesh reads 0 everywhere, so every point comes out unchanged |
| CompensationProperties.CommentLine | src/extension/autolevel.js:768-771 | a comment-only line is written trimmed and changes nothing |
| CompensationProperties.BlankLine | src/extension/autolevel.js:773-778 | a line with nothing left after stripping is copied and changes nothing |
| CompensationProperties.PassThroughLine | src/extension/autolevel.js:829-843 | a `G10`/`G92`/`G4`/`G53`/`G54`-`G59`/`M` line is copied verbatim; the position follows it, and the anchor moves there when it has coordinates |
| CompensationProperties.MotionLine | src/extension/autolevel.js:825-940 | any other worded line is decided by its motion, after its modes and target |
| CompensationProperties.MotionWrites | src/extension/autolevel.js:846-940 | every motion step writes at least one line |
| CompensationProperties.StepWrites | src/extension/autolevel.js:761-942 | every line writes at least one line |
| CompensationProperties.RelativeMove | src/extension/autolevel.js:878-886 | a relative `G0`/`G1` move is copied uncompensated and the anchor follows it |
| CompensationProperties.ProbeForgetsAnchor | src/extension/autolevel.js:931-937 | after a `G38.x` line the anchor is invalid and the line is copied |
| CompensationProperties.NoMoveCopied | src/extension/autolevel.js:887-890 | a line without coordinates is copied, whatever its motion |
| CompensationProperties.FirstAbsoluteMove | src/extension/autolevel.js:849-864 | an absolute move without an anchor writes one line: the command without its coordinates, the compensated target, and its own z in the comment |
| CompensationProperties.SplitMove | src/extension/autolevel.js:849-877 | an absolute move from an anchor writes one line per piece of its split (or one when too short), and hangs exactly when the split would never end |
| CompensationProperties.ArcAsLines | src/extension/autolevel.js:906-920 | an arc from an anchor becomes only `G1` lines tagged `G2` or `G3`, the last at the arc's end z, and never hangs |
| CompensationProperties.ArcLineText | src/extension/autolevel.js:913 | an arc line's text starts with `G1 X` |
| CompensationProperties.ModeOrderDiffers | src/extension/autolevel.js:781-782 | a line with both `G90` and `G91` is absolute for the pass but relative for the bounds scan |
| CompensationProperties.FoldLast | src/extension/autolevel.js:761-942 | the last line extends the pass so far |
| CompensationProperties.FoldWrites | src/extension/autolevel.js:761-942 | the new program has at least as many lines as the lines handled |
| CompensationProperties.UntouchedStep | src/extension/autolevel.js:768-778 | a line without X, Y or Z words is copied as it is |
| CompensationProperties.TextsSnoc | src/extension/autolevel.js:947 | one more line adds its text |
| CompensationProperties.FoldUntouched | src/extension/autolevel.js:761-942 | a program of untouched lines comes out line for line the same |
| CompensationProperties.CopiedLast | src/extension/autolevel.js:761-942 | an untouched last line adds itself |
| CompensationProperties.ApplyUntouched | src/extension/autolevel.js:738-955 | compensating a program of untouched lines returns and loads exactly the program under the `#AL:` name |
| Extension.TellAppend | src/extension/autolevel.js:186-247 | the messages of two runs of events are those of the first, then the second, while the first returns |
| Extension.TellNext | src/extension/autolevel.js:186-247 | one more event adds its messages |
| Extension.TellStops | src/extension/autolevel.js:233-235 | nothing is sent after a compensation that never returns |
| Extension.TellEach | src/extension/autolevel.js:222-239 | events of one message each are sent in order, one message each |
| Extension.NotesOnly | src/extension/autolevel.js:222-239 | a read without a compensation returns and sends one note per event, each the event's note |
| Extension.ProbeOnlyReturns | src/extension/autolevel.js:172-248 | a read in a probe-only run always returns, with one note per event |
| Extension.DrainEnds | src/extension/autolevel.js:186-191 | without a complete record the loop ends at once |
| Extension.DrainTakes | src/extension/autolevel.js:186-247 | the loop is one record, then the rest |
| Extension.Dump | src/extension/autolevel.js:273-283 | no points send `(AL: no mesh data)`; otherwise a start note, one `(AL: PROBED ...)` per point in order, and `(AL: finished)` |
| Extension.ProbedNotes | src/extension/autolevel.js:279-281 | one note per point, in order |
| Extension.Opening | src/extension/autolevel.js:307-321 | without a program `(AL: no gcode loaded)` comes first; `(AL: auto-leveling started)` comes last |
| Extension.Program | src/extension/autolevel.js:450 | a plan sends exactly one message, its program |
| Extension.PlannedCount | src/extension/autolevel.js:417-446 | the count is the plan's point count, or 0 without a plan |
| Extension.Autolevel.constructor | src/extension/autolevel.js:31-53 | a fresh extension has no program, the default settings, no points and zero offsets |
| Extension.Autolevel.OnControllerState | src/extension/autolevel.js:56-75 | reported `mpos` and `wco` are stored; with both, `pos` is their difference; otherwise the old values stay |
| Extension.Autolevel.OnGcodeLoad | src/extension/autolevel.js:107-164 | a `#AL:` program is ignored; any other is stored with its bounds |
| Extension.Autolevel.OnGcodeUnload | src/extension/autolevel.js:166-170 | the program and its name are forgotten |
| Extension.Autolevel.OnSerialRead | src/extension/autolevel.js:172-248 | the handler returns exactly when the read's messages do; it sends the messages of the read's events in order, and leaves the read's buffer and probe fields; the statistics stay exact |
| Extension.Autolevel.DrainBuffer | src/extension/autolevel.js:186-247 | the loop handles every complete record and sends its messages |
| Extension.Autolevel.DrainTurn | src/extension/autolevel.js:186-247 | one turn shortens the buffer and keeps the loop on course, or ends it |
| Extension.Autolevel.TakeRecord | src/extension/autolevel.js:187-199 | one record is cut out and handled; without one nothing changes |
| Extension.Autolevel.Record | src/extension/autolevel.js:200-245 | a report updates the probe fields as the stream does |
| Extension.Autolevel.Perform | src/extension/autolevel.js:222-239 | the events' messages are sent in order |
| Extension.Autolevel.Say | src/extension/autolevel.js:222-239 | one event sends its messages |
| Extension.Autolevel.ApplyCompensation | src/extension/autolevel.js:738-962 | the pass sends the opening note, the progress notes, then the new program and `(AL: finished)`, or the error note; it may never return |
| Extension.Autolevel.Start | src/extension/autolevel.js:297-451 | `P` is stored; with no program and `P` 0 it only sends `(AL: no gcode loaded)`; otherwise the settings are updated, the points forgotten, the opening notes and the plan sent and its count stored |
| Extension.Autolevel.StartWith | src/extension/autolevel.js:303-451 | the same for the words of the command |
| Extension.Autolevel.Probing | src/extension/autolevel.js:322-450 | the settings, the reset, the plan and its program |
| Extension.Autolevel.PlanGrid | src/extension/autolevel.js:331-449 | the rectangle, spacing and loops give the plan of the request |
| Extension.Autolevel.Reapply | src/extension/autolevel.js:285-295 | without a program, or with fewer than three points, it reports; otherwise it compensates again |
| Extension.DumpNoteByNote | src/extension/autolevel.js:278-282 | the start note, the point notes and the end note, sent one by one, make up the dump |
| Extension.Autolevel.DumpMesh | src/extension/autolevel.js:273-283 | it sends the mesh dump |

## Left out

- Files are not modelled: the probe file written during a run (`fileOpen`,
  `fileClose`, `fs.writeSync`), its reload at start-up, and the compensated
  program written to `outDir`. So are the `(AL: Opened probe file ...)`,
  `(AL: Could not open probe file ...)` and `(AL: output file written to ...)`
  notes. `outDir` is taken as unset.
- Console logging is not modelled: it has no effect on the state or on
  what is sent.
- The socket is not modelled. Its events are the handler methods of
  `Extension.Autolevel`, and what it is sent is the `outbox` field.
- `updateContext`, `isColinear`, `crossProduct3`, `formatPt` and
  `getThreeClosestPoints` are not modelled: nothing in the core calls them.
- `widget/script.js` is not part of this model (browser UI).
- Floating point is modelled as real arithmetic. IEEE rounding, overflow
  and `Infinity` are not modelled, except for the non-finite spacings of the
  planner (`Planner.StepOf`). `Math.sqrt`, `atan2`, `cos`, `sin` and
  `PI` are parameters.
- JsNumber.ParseFloat: `NaN` from a field with no digits is read as 0. The two
  agree wherever the source only tests truthiness; elsewhere the NaN arithmetic
  is not modelled.
- HeightMesh.SortPoints: the comparator is not transitive when y values drift
  by less than 0.001 from point to point while spanning more
  (`MeshProperties.CmpChain`). For such inputs the order JavaScript's `sort`
  produces is left to the engine. The model fixes one order, that of a stable
  insertion sort, and the grouping into rows may then differ from the engine's.
  On points that the comparator orders strictly, every correct sort gives the
  same result (`MeshProperties.SortPointsPermutation`).
- Planner.Trunc: `parseInt` reads the text of the quotient. When
  `|span / D|` is below 1e-6 or at least 1e21 that text is in exponent form,
  and `parseInt` reads its leading digits (`5e-7` gives 5, `1e21` gives 1).
  The model truncates the value instead, giving 0 and an infinite spacing for
  the small quotients.
- Planner.AxisRange: bounds missing on one axis (the source computes with
  `Infinity`) give no range. The planner then plans nothing.
- Extension.Autolevel.Start: the outcome is `NonFinite` when the rectangle is
  not finite (`Planner.AxisRange` has none), or when a positive-infinite
  spacing puts a NaN position or height into the text of a probed point. That
  spacing comes from a span shorter than a positive `D` in step mode. The
  source then sends a program with `NaN` or `Infinity` text. The model sends no
  program and leaves the count at 0. When a loop never ends
  (`Diverges`), the source hangs, and the model returns without a program.
- Loops that never end in the source are explicit outcomes: planning
  (`Diverges`), a move split with a non-positive step (`Split` is None), and
  a compensation pass containing one (`Stuck`, `halts == false`).
- Extension.Autolevel.ApplyCompensation: the text of the caught exception in
  `(AL: error occurred ...)` is not modelled (`Failure`). The `mesh` field is
  not stored: every pass builds its mesh from the probed points.
- The text of numbers in template strings (`${pt.x}`) is a parameter `show`.
  Only `toFixed(3)` is written out.
