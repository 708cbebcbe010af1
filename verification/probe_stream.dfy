/**
  * The probe results read from the controller (`serialport:read`): the text is
  * gathered in a buffer, `[PRB:...]` records are cut out of it one at a time, and
  * each record that matches the probe-report pattern gives a probed point while a
  * probing run is in progress.
  */
module ProbeStream {
  import opened Common
  import opened Geometry
  import opened JsNumber
  import opened GcodeText

  /** A buffer longer than this is cut back ... */
  const MaxBuffer: nat := 5000

  /** ... to its last this many characters. */
  const KeptBuffer: nat := 2000

  const Opener: string := "[PRB:"

  // ---------------------------------------------------------------- the buffer

  /** The buffer after new text is appended, cut back to its tail when it grows too long. */
  function TrimBuffer(b: string): (r: string)
    ensures |b| > MaxBuffer ==> |r| == KeptBuffer && b == b[..|b| - KeptBuffer] + r
    ensures |b| <= MaxBuffer ==> r == b
  {
    if |b| > MaxBuffer then b[|b| - KeptBuffer..] else b
  }

  /**
    * The next record of the buffer: the text from the first `[PRB:` to the first `]`
    * after it, and what follows that `]`. None when there is no opener, or no `]`
    * after the first one (the record is incomplete and waits for more text).
    */
  function NextChunk(b: string): (r: Option<(string, string)>)
    ensures r.Some? ==> |r.value.1| < |b| && r.value.1 == b[|b| - |r.value.1|..]
  {
    var start := IndexOfFrom(b, Opener, 0);
    if start < 0 then None
    else
      var end := IndexOfFrom(b, "]", start);
      if end < 0 then None
      else Some((b[start..end + 1], b[end + 1..]))
  }

  // ---------------------------------------------------------------- the record pattern

  /** The three coordinates of a probe report, machine coordinates. */
  datatype Report = Report(x: real, y: real, z: real)

  /** `:d]`, a status digit and the closing bracket, at the start of `v`. */
  predicate StatusTail(v: string) {
    |v| >= 3 && v[0] == ':' && IsDigit(v[1]) && v[2] == ']'
  }

  /**
    * What may follow the third number: `:d]` directly, or a comma, an optional
    * fourth number and then `:d]`.
    */
  predicate ReportTail(r: string) {
    StatusTail(r) ||
    (|r| > 0 && r[0] == ',' && StatusTail(r[1 + |NumRun(r[1..])|..]))
  }

  /** A number field followed by `sep`: the field and what follows the separator. */
  function Field(u: string, sep: char): Option<(string, string)> {
    var a := NumRun(u);
    if |a| > 0 && |a| < |u| && u[|a|] == sep then Some((a, u[|a| + 1..])) else None
  }

  /**
    * `(n),(n),(n),?(n)?:(\d)\]` matched at the start of `u`, the text after `[PRB:`.
    * The number fields are maximal runs of `[.+\-0-9]`: a shorter run would leave a
    * number character where the pattern needs a separator.
    */
  function ReportBody(u: string): Option<Report> {
    match Field(u, ',')
    case None => None
    case Some((a1, u1)) =>
      match Field(u1, ',')
      case None => None
      case Some((a2, u2)) =>
        var a3 := NumRun(u2);
        if |a3| > 0 && ReportTail(u2[|a3|..]) then
          Some(Report(ParseFloat(a1), ParseFloat(a2), ParseFloat(a3)))
        else None
  }

  /** The pattern matched at position `i` of `t`. */
  function ReportAt(t: string, i: nat): Option<Report> {
    if OccursAt(t, Opener, i) then ReportBody(t[i + |Opener|..]) else None
  }

  /** The position of the leftmost match at or after `i`, or -1. */
  function ReportIndexFrom(t: string, i: nat): (k: int)
    ensures k == -1 || (i <= k <= |t| && ReportAt(t, k).Some?)
    ensures forall j :: i <= j <= |t| && (k == -1 || j < k) ==> ReportAt(t, j).None?
    decreases |t| + 1 - i
  {
    if i > |t| then -1
    else if ReportAt(t, i).Some? then i
    else ReportIndexFrom(t, i + 1)
  }

  /** `exec` on a record: the report matched at the leftmost position where the pattern matches. */
  function FirstReport(t: string): (r: Option<Report>)
    ensures r.None? <==> forall j :: 0 <= j <= |t| ==> ReportAt(t, j).None?
  {
    var k := ReportIndexFrom(t, 0);
    if k < 0 then None else ReportAt(t, k)
  }

  // ---------------------------------------------------------------- the probing run

  /**
    * The fields the stream updates: the points probed so far, the running
    * minimum, maximum and sum of their z, the number of points the run
    * planned (`planedPointCount`) and the work offset `wco`.
    */
  datatype ProbeState = ProbeState(points: seq<Point3>, minDz: real, maxDz: real, sumDz: real,
                                   planned: int, wco: Point3)

  /** What the stream tells the controller, or asks the extension to do. */
  datatype ProbeEvent =
    | Probed(pt: Point3)                           // (AL: PROBED x y z)
    | Summary(min: real, max: real, avg: real)     // (AL: dz_min=..., dz_max=..., dz_avg=...)
    | Compensate(points: seq<Point3>)              // applyCompensation() on these points
    | ProbeFinished                                // (AL: finished), probe-only runs

  /** The point of a report: machine position less the work offset. */
  function PointOf(rep: Report, wco: Point3): Point3 {
    Point3(rep.x - wco.x, rep.y - wco.y, rep.z - wco.z)
  }

  /** One record: recorded only while a run is in progress; the last planned point ends the run. */
  function Handle(ps: ProbeState, rep: Option<Report>, probeOnly: bool): (ProbeState, seq<ProbeEvent>) {
    if rep.None? || ps.planned <= 0 then (ps, [])
    else
      var pt := PointOf(rep.value, ps.wco);
      var first := |ps.points| == 0;
      var lo := if first || pt.z < ps.minDz then pt.z else ps.minDz;
      var hi := if first || pt.z > ps.maxDz then pt.z else ps.maxDz;
      var sum := if first then pt.z else ps.sumDz + pt.z;
      var points := ps.points + [pt];
      if |points| >= ps.planned then
        var last := if probeOnly then ProbeFinished else Compensate(points);
        (ProbeState(points, lo, hi, sum, 0, Origin),
         [Probed(pt), Summary(lo, hi, sum / |points| as real), last])
      else
        (ProbeState(points, lo, hi, sum, ps.planned, ps.wco), [Probed(pt)])
  }

  /** The result of reading: the buffer left over, the new state, and the events in order. */
  datatype Drained = Drained(buffer: string, state: ProbeState, events: seq<ProbeEvent>)

  /** The extraction loop: records are cut out and handled until none is complete. */
  function Drain(b: string, ps: ProbeState, probeOnly: bool): Drained
    decreases |b|
  {
    match NextChunk(b)
    case None => Drained(b, ps, [])
    case Some((line, rest)) =>
      var (ps1, ev1) := Handle(ps, FirstReport(line), probeOnly);
      var d := Drain(rest, ps1, probeOnly);
      Drained(d.buffer, d.state, ev1 + d.events)
  }

  /** `serialport:read`: append, cut back, then drain. */
  function Read(b: string, data: string, ps: ProbeState, probeOnly: bool): Drained {
    Drain(TrimBuffer(b + data), ps, probeOnly)
  }
}
