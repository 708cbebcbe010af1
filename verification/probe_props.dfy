/**
  * Properties of the probe-result stream: how records are cut out of the
  * buffer, which text the report pattern accepts, and what the running
  * statistics and the point count keep.
  */
module ProbeStreamProperties {
  import opened Common
  import opened Geometry
  import opened JsNumber
  import opened GcodeText
  import opened ProbeStream

  // ---------------------------------------------------------------- the buffer

  /**
    * A record cut out of the buffer runs from the first `[PRB:` of the buffer to
    * the first `]` after it; the rest of the buffer is what follows that `]`.
    */
  lemma ChunkShape(b: string)
    requires NextChunk(b).Some?
    ensures var (line, rest) := NextChunk(b).value;
      exists k :: 0 <= k <= |b| && b == b[..k] + line + rest &&
        (forall j :: 0 <= j < k ==> !OccursAt(b, Opener, j)) &&
        |line| > |Opener| && line[..|Opener|] == Opener && line[|line| - 1] == ']' &&
        forall m :: 0 <= m < |line| - 1 ==> line[m] != ']'
  {
    var start := IndexOfFrom(b, Opener, 0);
    var end := IndexOfFrom(b, "]", start);
    var line := b[start..end + 1];
    assert b[start..start + |Opener|] == Opener;
    assert forall k :: 0 <= k < |Opener| ==> Opener[k] != ']';
    forall j | start <= j < start + |Opener| ensures !OccursAt(b, "]", j) {
      assert b[j] == Opener[j - start];
      assert b[j..j + 1] == [b[j]];
    }
    assert end >= start + |Opener|;
    assert |line| == end + 1 - start;
    forall m | 0 <= m < |line| - 1 ensures line[m] != ']' {
      if m < |Opener| {
        assert line[m] == b[start..start + |Opener|][m];
      } else {
        assert !OccursAt(b, "]", start + m);
        assert b[start + m..start + m + 1] == [b[start + m]];
      }
    }
    assert b[end..end + 1] == "]";
    assert b == b[..start] + line + b[end + 1..];
    assert line[..|Opener|] == b[start..start + |Opener|];
  }

  /**
    * Nothing is cut out exactly when the buffer holds no `[PRB:`, or holds no `]`
    * after its first `[PRB:`.
    */
  lemma ChunkMissing(b: string)
    ensures NextChunk(b).None? <==>
      (forall j :: !OccursAt(b, Opener, j)) ||
      exists k :: OccursAt(b, Opener, k) && (forall j :: 0 <= j < k ==> !OccursAt(b, Opener, j)) &&
        forall m :: k <= m < |b| ==> b[m] != ']'
  {
    var start := IndexOfFrom(b, Opener, 0);
    if start >= 0 {
      var end := IndexOfFrom(b, "]", start);
      forall m | start <= m < |b| && b[m] == ']' ensures end >= 0 {
        assert b[m..m + 1] == "]";
        assert OccursAt(b, "]", m);
      }
      if end >= 0 {
        assert b[end..end + 1] == "]";
        forall k | OccursAt(b, Opener, k) && (forall j :: 0 <= j < k ==> !OccursAt(b, Opener, j))
          ensures k <= end < |b| && b[end] == ']'
        {
          assert k == start;
        }
      }
    }
  }

  /** The extraction loop stops only when no complete record is left in the buffer. */
  lemma {:induction false} DrainStops(b: string, ps: ProbeState, probeOnly: bool)
    ensures NextChunk(Drain(b, ps, probeOnly).buffer).None?
    decreases |b|
  {
    match NextChunk(b)
    case None =>
    case Some((line, rest)) =>
      var (ps1, ev1) := Handle(ps, FirstReport(line), probeOnly);
      DrainStops(rest, ps1, probeOnly);
  }

  /** What the extraction loop leaves in the buffer is a tail of the buffer. */
  lemma {:induction false} DrainLeavesTail(b: string, ps: ProbeState, probeOnly: bool)
    ensures var d := Drain(b, ps, probeOnly); |d.buffer| <= |b| && d.buffer == b[|b| - |d.buffer|..]
    decreases |b|
  {
    match NextChunk(b)
    case None =>
    case Some((line, rest)) =>
      var (ps1, ev1) := Handle(ps, FirstReport(line), probeOnly);
      DrainLeavesTail(rest, ps1, probeOnly);
      var d := Drain(rest, ps1, probeOnly);
      TailOfTail(b, rest, |d.buffer|);
  }

  lemma TailOfTail(b: string, r: string, n: nat)
    requires |r| <= |b| && r == b[|b| - |r|..] && n <= |r|
    ensures r[|r| - n..] == b[|b| - n..]
  {
    forall k | 0 <= k < |r| ensures r[k] == b[|b| - |r| + k] {
      assert r[k] == b[|b| - |r|..][k];
    }
  }

  // ---------------------------------------------------------------- the report pattern

  /** A maximal-run number field: non-empty and made of `[.+\-0-9]` only. */
  predicate NumberField(a: string) {
    |a| > 0 && forall k :: 0 <= k < |a| ==> IsNumChar(a[k])
  }

  lemma {:induction false} NumRunOfField(a: string, rest: string)
    requires NumberField(a)
    requires rest == [] || !IsNumChar(rest[0])
    ensures NumRun(a + rest) == a
    decreases |a|
  {
    assert (a + rest)[1..] == a[1..] + rest;
    if |a| > 1 {
      NumRunOfField(a[1..], rest);
      assert a == [a[0]] + a[1..];
    } else {
      assert a[1..] + rest == rest;
    }
  }

  lemma FieldOf(a: string, sep: char, rest: string)
    requires NumberField(a) && !IsNumChar(sep)
    ensures Field(a + [sep] + rest, sep) == Some((a, rest))
  {
    NumRunOfField(a, [sep] + rest);
    assert a + [sep] + rest == a + ([sep] + rest);
  }

  /**
    * Every report of the form `x,y,z:d]` or `x,y,z,w:d]` (`w` possibly empty)
    * is accepted, and its first three numbers are the coordinates.
    */
  lemma ReportAccepted(a1: string, a2: string, a3: string, tail: string)
    requires NumberField(a1) && NumberField(a2) && NumberField(a3)
    requires StatusTail(tail) || (|tail| > 0 && tail[0] == ',' && StatusTail(tail[1 + |NumRun(tail[1..])|..]))
    ensures ReportBody(a1 + "," + a2 + "," + a3 + tail) == Some(Report(ParseFloat(a1), ParseFloat(a2), ParseFloat(a3)))
  {
    var u := a1 + "," + a2 + "," + a3 + tail;
    assert u == a1 + [','] + (a2 + "," + a3 + tail);
    FieldOf(a1, ',', a2 + "," + a3 + tail);
    assert a2 + "," + a3 + tail == a2 + [','] + (a3 + tail);
    FieldOf(a2, ',', a3 + tail);
    NumRunOfField(a3, tail);
    assert (a3 + tail)[|a3|..] == tail;
  }

  /** A report without the `:d]` status is not accepted anywhere: no point is taken from it. */
  lemma StatusRequired(t: string)
    requires forall k :: 0 <= k < |t| ==> t[k] != ':'
    ensures FirstReport(t).None?
  {
    forall j | 0 <= j <= |t| ensures ReportAt(t, j).None? {
      if OccursAt(t, Opener, j) {
        NoStatus(t[j + |Opener|..]);
      }
    }
  }

  lemma NoStatus(u: string)
    requires forall k :: 0 <= k < |u| ==> u[k] != ':'
    ensures ReportBody(u).None?
  {
    match Field(u, ',')
    case None =>
    case Some((a1, u1)) =>
      assert u1 == u[|a1| + 1..];
      match Field(u1, ',')
      case None =>
      case Some((a2, u2)) =>
        assert u2 == u1[|a2| + 1..];
        var a3 := NumRun(u2);
        var r := u2[|a3|..];
  }

  // ---------------------------------------------------------------- the running statistics

  function SumZ(points: seq<Point3>): real {
    if points == [] then 0.0 else SumZ(points[..|points| - 1]) + points[|points| - 1].z
  }

  /**
    * `lo`, `hi` and `sum` describe the points: once there is a point, they are
    * the least and the greatest z and the sum of the z values.
    */
  ghost predicate Stats(points: seq<Point3>, lo: real, hi: real, sum: real) {
    |points| > 0 ==>
      (forall p :: p in points ==> lo <= p.z <= hi) &&
      (exists p :: p in points && p.z == lo) &&
      (exists p :: p in points && p.z == hi) &&
      sum == SumZ(points)
  }

  /** The statistics fields of the stream (`min_dz`, `max_dz`, `sum_dz`) describe its points. */
  ghost predicate StatsHold(ps: ProbeState) {
    Stats(ps.points, ps.minDz, ps.maxDz, ps.sumDz)
  }

  /** The update of the statistics for one more point keeps them exact. */
  lemma StatsAppend(points: seq<Point3>, lo: real, hi: real, sum: real, pt: Point3)
    requires Stats(points, lo, hi, sum)
    ensures var first := |points| == 0;
      Stats(points + [pt],
            if first || pt.z < lo then pt.z else lo,
            if first || pt.z > hi then pt.z else hi,
            if first then pt.z else sum + pt.z)
  {
    var ps := points + [pt];
    assert ps[..|ps| - 1] == points;
    forall p | p in ps ensures p in points || p == pt {
      var i :| 0 <= i < |ps| && ps[i] == p;
      if i < |points| {
        assert points[i] == p;
      }
    }
    if |points| > 0 {
      var a :| a in points && a.z == lo;
      var c :| c in points && c.z == hi;
      assert a in ps && c in ps;
    }
    assert pt in ps;
  }

  /** Handling a record keeps the statistics exact. */
  lemma HandleStats(ps: ProbeState, rep: Option<Report>, probeOnly: bool)
    requires StatsHold(ps)
    ensures StatsHold(Handle(ps, rep, probeOnly).0)
  {
    if rep.Some? && ps.planned > 0 {
      var pt := PointOf(rep.value, ps.wco);
      var first := |ps.points| == 0;
      StatsAppend(ps.points, ps.minDz, ps.maxDz, ps.sumDz, pt);
      var h := Handle(ps, rep, probeOnly).0;
      assert h.points == ps.points + [pt];
      assert h.minDz == if first || pt.z < ps.minDz then pt.z else ps.minDz;
      assert h.maxDz == if first || pt.z > ps.maxDz then pt.z else ps.maxDz;
      assert h.sumDz == if first then pt.z else ps.sumDz + pt.z;
    }
  }

  /**
    * Handling a record: without a report or outside a run nothing changes;
    * otherwise the point (machine position less `wco`) is appended and
    * reported, and the last planned point ends the run with the summary and
    * either the compensation or the end of a probe-only run.
    */
  lemma HandleEvents(ps: ProbeState, rep: Option<Report>, probeOnly: bool)
    ensures var ps' := Handle(ps, rep, probeOnly).0; var ev := Handle(ps, rep, probeOnly).1;
      (rep.None? || ps.planned <= 0 ==> ps' == ps && ev == []) &&
      (rep.Some? && ps.planned > 0 ==>
        var pt := PointOf(rep.value, ps.wco);
        ps'.points == ps.points + [pt] &&
        (|ps'.points| >= ps.planned ==>
          ps'.planned == 0 && ps'.wco == Origin &&
          ev == [Probed(pt), Summary(ps'.minDz, ps'.maxDz, ps'.sumDz / |ps'.points| as real),
                 if probeOnly then ProbeFinished else Compensate(ps'.points)]) &&
        (|ps'.points| < ps.planned ==> ps'.planned == ps.planned && ps'.wco == ps.wco && ev == [Probed(pt)]))
  {
  }

  /** The points of the `Probed` events, in order. */
  function ProbedPoints(ev: seq<ProbeEvent>): seq<Point3> {
    if ev == [] then [] else ProbedPoints(ev[..|ev| - 1]) + PointsOf(ev[|ev| - 1])
  }

  function PointsOf(e: ProbeEvent): seq<Point3> {
    if e.Probed? then [e.pt] else []
  }

  lemma {:induction false} ProbedAppend(a: seq<ProbeEvent>, b: seq<ProbeEvent>)
    ensures ProbedPoints(a + b) == ProbedPoints(a) + ProbedPoints(b)
    decreases |b|
  {
    if b == [] {
      assert a + b == a;
    } else {
      var init := b[..|b| - 1];
      assert (a + b)[..|a + b| - 1] == a + init;
      ProbedAppend(a, init);
    }
  }

  /** The events of one record report exactly the point it appends. */
  lemma HandleProbed(ps: ProbeState, rep: Option<Report>, probeOnly: bool)
    ensures Handle(ps, rep, probeOnly).0.points == ps.points + ProbedPoints(Handle(ps, rep, probeOnly).1)
  {
    var ev := Handle(ps, rep, probeOnly).1;
    if rep.Some? && ps.planned > 0 {
      var pt := PointOf(rep.value, ps.wco);
      assert ev[..1] == [Probed(pt)];
      assert ProbedPoints([Probed(pt)]) == [pt] by {
        assert [Probed(pt)][..0] == [];
      }
      if |ev| == 3 {
        assert ev[..2][..1] == ev[..1];
        assert ev[..|ev| - 1] == ev[..2];
      }
    } else {
      assert ps.points + [] == ps.points;
    }
  }

  /** Reading keeps the statistics exact. */
  lemma {:induction false} DrainStats(b: string, ps: ProbeState, probeOnly: bool)
    requires StatsHold(ps)
    ensures StatsHold(Drain(b, ps, probeOnly).state)
    decreases |b|
  {
    match NextChunk(b)
    case None =>
    case Some((line, rest)) =>
      var ps1 := Handle(ps, FirstReport(line), probeOnly).0;
      HandleStats(ps, FirstReport(line), probeOnly);
      DrainStats(rest, ps1, probeOnly);
  }

  /**
    * The points recorded while reading are exactly those reported to the
    * controller with `(AL: PROBED ...)`, in order.
    */
  lemma {:induction false} DrainPoints(b: string, ps: ProbeState, probeOnly: bool)
    ensures var d := Drain(b, ps, probeOnly); d.state.points == ps.points + ProbedPoints(d.events)
    decreases |b|
  {
    match NextChunk(b)
    case None =>
      assert ps.points + [] == ps.points;
    case Some((line, rest)) =>
      var h := Handle(ps, FirstReport(line), probeOnly);
      var d := Drain(rest, h.0, probeOnly);
      assert Drain(b, ps, probeOnly) == Drained(d.buffer, d.state, h.1 + d.events);
      HandleProbed(ps, FirstReport(line), probeOnly);
      DrainPoints(rest, h.0, probeOnly);
      ProbedChain(ps.points, h.0.points, d.state.points, h.1, d.events);
  }

  lemma ProbedChain(p0: seq<Point3>, p1: seq<Point3>, p2: seq<Point3>, e1: seq<ProbeEvent>, e2: seq<ProbeEvent>)
    requires p1 == p0 + ProbedPoints(e1) && p2 == p1 + ProbedPoints(e2)
    ensures p2 == p0 + ProbedPoints(e1 + e2)
  {
    ProbedAppend(e1, e2);
  }

  /**
    * A run never records more points than it planned: while fewer points than
    * planned are recorded the run goes on, and it ends on the planned count exactly.
    */
  ghost predicate WithinPlan(ps: ProbeState) {
    ps.planned <= 0 || |ps.points| < ps.planned
  }

  lemma {:induction false} DrainWithinPlan(b: string, ps: ProbeState, probeOnly: bool)
    requires WithinPlan(ps)
    ensures var d := Drain(b, ps, probeOnly);
      WithinPlan(d.state) &&
      (ps.planned > 0 ==> |d.state.points| <= ps.planned) &&
      (ps.planned > 0 && d.state.planned <= 0 ==> |d.state.points| == ps.planned)
    decreases |b|
  {
    match NextChunk(b)
    case None =>
    case Some((line, rest)) =>
      var rep := FirstReport(line);
      var (ps1, ev1) := Handle(ps, rep, probeOnly);
      DrainWithinPlan(rest, ps1, probeOnly);
      DrainIdle(rest, ps1, probeOnly);
  }

  /** Outside a run every record is consumed and dropped. */
  lemma {:induction false} DrainIdle(b: string, ps: ProbeState, probeOnly: bool)
    ensures ps.planned <= 0 ==> var d := Drain(b, ps, probeOnly); d.state == ps && d.events == []
    decreases |b|
  {
    match NextChunk(b)
    case None =>
    case Some((line, rest)) =>
      DrainIdle(rest, ps, probeOnly);
  }

  /** None of the events asks for a compensation. */
  predicate NoCompensation(evs: seq<ProbeEvent>) {
    forall i :: 0 <= i < |evs| ==> !evs[i].Compensate?
  }

  lemma HandleProbeOnly(ps: ProbeState, rep: Option<Report>)
    ensures NoCompensation(Handle(ps, rep, true).1)
  {
  }

  lemma NoCompensationAppend(a: seq<ProbeEvent>, b: seq<ProbeEvent>)
    requires NoCompensation(a) && NoCompensation(b)
    ensures NoCompensation(a + b)
  {
    assert forall i :: 0 <= i < |a + b| ==> (a + b)[i] == if i < |a| then a[i] else b[i - |a|];
  }

  /** A probe-only run never asks for a compensation: its last point ends with `(AL: finished)`. */
  lemma {:induction false} DrainProbeOnly(b: string, ps: ProbeState)
    ensures NoCompensation(Drain(b, ps, true).events)
    decreases |b|
  {
    match NextChunk(b)
    case None =>
    case Some((line, rest)) =>
      var h := Handle(ps, FirstReport(line), true);
      var d := Drain(rest, h.0, true);
      HandleProbeOnly(ps, FirstReport(line));
      DrainProbeOnly(rest, h.0);
      assert Drain(b, ps, true).events == h.1 + d.events;
      NoCompensationAppend(h.1, d.events);
  }
}
