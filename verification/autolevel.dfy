/**
  * The `Autolevel` extension object: the fields its socket handlers and its
  * commands update, and the messages it sends to the controller (`sendGcode`,
  * `loadGcode`), kept in the order they are sent.
  */
module Extension {
  import opened Common
  import opened Geometry
  import opened JsNumber
  import opened GcodeText
  import opened GcodeBounds
  import opened HeightMesh
  import opened Planner
  import opened ProbeStream
  import opened Compensation
  import ProbeStreamProperties

  // ---------------------------------------------------------------- the messages of a read

  /** `(AL: PROBED x y z)`; `show` is JavaScript's text of a number inside a template string. */
  function ProbedText(pt: Point3, show: real -> string): string {
    "(AL: PROBED " + show(pt.x) + " " + show(pt.y) + " " + show(pt.z) + ")"
  }

  /** `(AL: dz_min=..., dz_max=..., dz_avg=...)`, each with three decimals. */
  function SummaryText(lo: real, hi: real, avg: real): string {
    "(AL: dz_min=" + Fixed3(lo) + ", dz_max=" + Fixed3(hi) + ", dz_avg=" + Fixed3(avg) + ")"
  }

  /**
    * What an event of the probe stream sends: its note, or the whole compensation
    * pass of the loaded program `gcode` named `name`, which may never return.
    */
  function Says(ev: ProbeEvent, gcode: string, name: string, delta: real, math: MathLib, show: real -> string): Applied {
    match ev
    case Probed(pt) => Applied([Send(ProbedText(pt, show))], true)
    case Summary(lo, hi, avg) => Applied([Send(SummaryText(lo, hi, avg))], true)
    case Compensate(points) => Apply(points, gcode, name, delta, math)
    case ProbeFinished => Applied([Send("(AL: finished)")], true)
  }

  /** `Says` for the loaded program and settings, as a function of the event. */
  function Sayer(gcode: string, name: string, delta: real, math: MathLib, show: real -> string): ProbeEvent -> Applied {
    ev => Says(ev, gcode, name, delta, math, show)
  }

  /** The messages of events in order, each sent by `say`, up to and including one that never returns. */
  function Tell(evs: seq<ProbeEvent>, say: ProbeEvent -> Applied): Applied {
    if evs == [] then Applied([], true)
    else
      var t := Tell(evs[..|evs| - 1], say);
      if !t.halts then t
      else
        var s := say(evs[|evs| - 1]);
        Applied(t.sent + s.sent, s.halts)
  }

  /** Telling `a` and then `b` is telling `a + b`, as long as `a` returns. */
  lemma {:induction false} TellAppend(a: seq<ProbeEvent>, b: seq<ProbeEvent>, say: ProbeEvent -> Applied)
    requires Tell(a, say).halts
    ensures Tell(a + b, say) == Applied(Tell(a, say).sent + Tell(b, say).sent, Tell(b, say).halts)
    decreases |b|
  {
    var ta := Tell(a, say);
    if b == [] {
      assert a + b == a;
      assert ta.sent + [] == ta.sent;
    } else {
      var init := b[..|b| - 1];
      TellAppend(a, init, say);
      assert (a + b)[..|a + b| - 1] == a + init;
      assert (a + b)[|a + b| - 1] == b[|b| - 1];
    }
  }

  /** With no complete record the extraction loop ends at once. */
  lemma DrainEnds(b: string, ps: ProbeState, only: bool)
    requires NextChunk(b).None?
    ensures Drain(b, ps, only) == Drained(b, ps, [])
  {
  }

  /** The events of earlier turns of the extraction loop, of this turn and of later turns, in that order. */
  lemma EventsInTurnOrder(earlier: seq<ProbeEvent>, now: seq<ProbeEvent>, later: seq<ProbeEvent>)
    ensures (earlier + now) + later == earlier + (now + later)
  {
  }

  /** The messages sent before the loop, by earlier turns and by this turn, in that order. */
  lemma SentInTurnOrder(before: seq<Outgoing>, earlier: seq<Outgoing>, now: seq<Outgoing>)
    ensures (before + earlier) + now == before + (earlier + now)
  {
  }

  /** One turn of the extraction loop, then the rest of it. */
  lemma DrainTakes(b: string, ps: ProbeState, only: bool, rest: string, ps1: ProbeState, events: seq<ProbeEvent>)
    requires NextChunk(b).Some? && rest == NextChunk(b).value.1
    requires (ps1, events) == Handle(ps, FirstReport(NextChunk(b).value.0), only)
    ensures var d := Drain(rest, ps1, only); Drain(b, ps, only) == Drained(d.buffer, d.state, events + d.events)
  {
  }

  /** One more event, after events that all returned. */
  lemma TellNext(evs: seq<ProbeEvent>, i: nat, say: ProbeEvent -> Applied)
    requires i < |evs| && Tell(evs[..i], say).halts
    ensures Tell(evs[..i + 1], say) == Applied(Tell(evs[..i], say).sent + say(evs[i]).sent, say(evs[i]).halts)
  {
    assert evs[..i + 1][..i] == evs[..i];
  }

  /** Nothing is told after an event that never returns. */
  lemma {:induction false} TellStops(a: seq<ProbeEvent>, b: seq<ProbeEvent>, say: ProbeEvent -> Applied)
    requires !Tell(a, say).halts
    ensures Tell(a + b, say) == Tell(a, say)
    decreases |b|
  {
    if b == [] {
      assert a + b == a;
    } else {
      var init := b[..|b| - 1];
      TellStops(a, init, say);
      assert (a + b)[..|a + b| - 1] == a + init;
    }
  }

  /**
    * When every event is told in one message and returns, the events are told
    * in order, one message each.
    */
  lemma {:induction false} TellEach(evs: seq<ProbeEvent>, say: ProbeEvent -> Applied)
    requires forall i :: 0 <= i < |evs| ==> say(evs[i]).halts && |say(evs[i]).sent| == 1
    ensures Tell(evs, say).halts && |Tell(evs, say).sent| == |evs|
    ensures forall i :: 0 <= i < |evs| ==> Tell(evs, say).sent[i] == say(evs[i]).sent[0]
  {
    if evs != [] {
      var init := evs[..|evs| - 1];
      assert forall i :: 0 <= i < |init| ==> init[i] == evs[i];
      TellEach(init, say);
      var t, s := Tell(init, say), say(evs[|evs| - 1]);
      assert Tell(evs, say) == Applied(t.sent + s.sent, s.halts);
    }
  }

  /**
    * Every event but a compensation is told in exactly one message and returns,
    * so a read without a compensation is told event by event.
    */
  lemma NotesOnly(evs: seq<ProbeEvent>, gcode: string, name: string, delta: real, math: MathLib, show: real -> string)
    requires forall i :: 0 <= i < |evs| ==> !evs[i].Compensate?
    ensures var t := Tell(evs, Sayer(gcode, name, delta, math, show));
      t.halts && |t.sent| == |evs| &&
      forall i :: 0 <= i < |evs| ==> t.sent[i] == Says(evs[i], gcode, name, delta, math, show).sent[0]
  {
    var say := Sayer(gcode, name, delta, math, show);
    forall i | 0 <= i < |evs|
      ensures say(evs[i]).halts && |say(evs[i]).sent| == 1
    {
    }
    TellEach(evs, say);
  }

  /**
    * A read during a probe-only run always returns, and tells the controller one
    * note per event.
    */
  lemma ProbeOnlyReturns(b: string, data: string, ps: ProbeState, gcode: string, name: string, delta: real,
                         math: MathLib, show: real -> string)
    ensures var d := Read(b, data, ps, true); var t := Tell(d.events, Sayer(gcode, name, delta, math, show));
      t.halts && |t.sent| == |d.events|
  {
    ProbeStreamProperties.DrainProbeOnly(TrimBuffer(b + data), ps);
    NotesOnly(Read(b, data, ps, true).events, gcode, name, delta, math, show);
  }

  /** The messages of a mesh dump (`dumpMesh`). */
  function Dump(points: seq<Point3>, show: real -> string): (r: seq<Outgoing>)
    ensures |points| == 0 ==> r == [Send("(AL: no mesh data)")]
    ensures |points| > 0 ==> |r| == |points| + 2
    ensures |points| > 0 ==> r[0] == Send("(AL: dumping mesh start)") && r[|r| - 1] == Send("(AL: finished)")
    ensures forall i :: 0 <= i < |points| ==> r[i + 1] == Send(ProbedText(points[i], show))
  {
    if |points| == 0 then [Send("(AL: no mesh data)")]
    else [Send("(AL: dumping mesh start)")] + ProbedNotes(points, show) + [Send("(AL: finished)")]
  }

  /** A dump sent note by note: the start note, the point notes, the end note. */
  lemma DumpNoteByNote(before: seq<Outgoing>, points: seq<Point3>, show: real -> string)
    requires |points| > 0
    ensures before + [Send("(AL: dumping mesh start)")] + ProbedNotes(points, show) + [Send("(AL: finished)")]
      == before + Dump(points, show)
  {
  }

  /** One `(AL: PROBED ...)` note per point. */
  function ProbedNotes(points: seq<Point3>, show: real -> string): (r: seq<Outgoing>)
    ensures |r| == |points|
    ensures forall i :: 0 <= i < |points| ==> r[i] == Send(ProbedText(points[i], show))
  {
    if points == [] then [] else ProbedNotes(points[..|points| - 1], show) + [Send(ProbedText(points[|points| - 1], show))]
  }

  /** `(AL: no gcode loaded)`. */
  const NoProgram: string := "(AL: no gcode loaded)"

  /** The notes `#autolevel` sends before planning: a missing program, then the start. */
  function Opening(gcode: string): (r: seq<Outgoing>)
    ensures |r| == if gcode == "" then 2 else 1
    ensures r[|r| - 1] == Send("(AL: auto-leveling started)")
  {
    (if gcode == "" then [Send(NoProgram)] else []) + [Send("(AL: auto-leveling started)")]
  }

  /** The probing program sent for a plan: the whole program as one message, or nothing. */
  function Program(plan: PlanOutcome, show: real -> string): (r: seq<Outgoing>)
    ensures plan.Planned? <==> |r| == 1
  {
    if plan.Planned? then [Send(ProgramText(plan.code, show))] else []
  }

  /** `planedPointCount` after planning. */
  function PlannedCount(plan: PlanOutcome): (n: nat)
    ensures plan.Planned? ==> n == plan.count
    ensures !plan.Planned? ==> n == 0
  {
    if plan.Planned? then plan.count else 0
  }

  /** A file name under which the extension loads a program it compensated (`#AL:` ...). */
  predicate Generated(file: string) {
    |file| >= |Prefix| && file[..|Prefix|] == Prefix
  }

  // ---------------------------------------------------------------- the object

  class Autolevel {
    var gcodeFileName: string
    var gcode: string
    var delta: real
    var feed: real
    var height: real
    var probedPoints: seq<Point3>
    var minDz: real
    var maxDz: real
    var sumDz: real
    var planned: int
    var wco: Point3
    var mpos: Point3
    var pos: Point3
    var bounds: Option<Bounds>
    var buffer: string
    var probeOnly: real
    var outbox: seq<Outgoing>

    /** The fields the probe stream reads and updates. */
    function Probe(): ProbeState
      reads this
    {
      ProbeState(probedPoints, minDz, maxDz, sumDz, planned, wco)
    }

    /** The settings a command updates: `delta`, `height`, `feed`. */
    function Stored(): Settings
      reads this
    {
      Settings(delta, height, feed)
    }

    /**
      * The statistics describe the probed points, and a run in progress has
      * recorded fewer points than it planned.
      */
    ghost predicate Valid()
      reads this
    {
      ProbeStreamProperties.StatsHold(Probe()) && ProbeStreamProperties.WithinPlan(Probe())
    }

    /** A fresh extension: no program, the default settings, no points, nothing sent. */
    constructor()
      ensures Valid()
      ensures gcodeFileName == "" && gcode == "" && bounds.None? && buffer == ""
      ensures Stored() == Defaults
      ensures probedPoints == [] && minDz == 0.0 && maxDz == 0.0 && sumDz == 0.0 && planned == 0
      ensures wco == Origin && mpos == Origin && pos == Origin
      ensures probeOnly == 0.0 && outbox == []
    {
      gcodeFileName := "";
      gcode := "";
      delta := 10.0;
      feed := 50.0;
      height := 2.0;
      probedPoints := [];
      minDz := 0.0;
      maxDz := 0.0;
      sumDz := 0.0;
      planned := 0;
      wco := Origin;
      mpos := Origin;
      pos := Origin;
      bounds := None;
      buffer := "";
      probeOnly := 0.0;
      outbox := [];
    }

    /**
      * `controller:state`: the reported machine position and work offset are
      * stored, and when both are present the work position is their difference.
      */
    method OnControllerState(m: Option<Point3>, w: Option<Point3>)
      modifies this`mpos, this`wco, this`pos
      ensures m.Some? ==> mpos == m.value
      ensures m.None? ==> mpos == old(mpos)
      ensures w.Some? ==> wco == w.value
      ensures w.None? ==> wco == old(wco)
      ensures m.Some? && w.Some? ==> pos == Sub3(m.value, w.value)
      ensures m.None? || w.None? ==> pos == old(pos)
      ensures old(Valid()) ==> Valid()
    {
      if m.Some? {
        mpos := m.value;
      }
      if w.Some? {
        wco := w.value;
      }
      if m.Some? && w.Some? {
        pos := Point3(m.value.x - w.value.x, m.value.y - w.value.y, m.value.z - w.value.z);
      }
    }

    /**
      * `gcode:load`: a program the extension generated itself is ignored;
      * otherwise its name and text are kept and its bounds computed.
      */
    method OnGcodeLoad(file: string, gc: string)
      modifies this`gcodeFileName, this`gcode, this`bounds
      ensures Generated(file) ==> gcodeFileName == old(gcodeFileName) && gcode == old(gcode) && bounds == old(bounds)
      ensures !Generated(file) ==> gcodeFileName == file && gcode == gc && bounds == BoundsOf(gc)
    {
      if !Generated(file) {
        gcodeFileName := file;
        gcode := gc;
        bounds := ScanBounds(gc);
      }
    }

    /** `gcode:unload`: the program is forgotten; its bounds are kept. */
    method OnGcodeUnload()
      modifies this`gcodeFileName, this`gcode
      ensures gcodeFileName == "" && gcode == ""
    {
      gcodeFileName := "";
      gcode := "";
    }

    // ------------------------------------------------------------ serialport:read

    /**
      * `serialport:read`: the text is appended to the buffer, the buffer is cut
      * back, and every complete record is cut out and handled. It returns unless
      * a compensation pass it starts never ends; while it returns, the buffer
      * and the probe fields are those of the read, and what it sent are the
      * messages of the read's events.
      */
    method OnSerialRead(data: string, math: MathLib, show: real -> string) returns (halts: bool)
      modifies this`buffer, this`probedPoints, this`minDz, this`maxDz, this`sumDz, this`planned, this`wco, this`outbox
      ensures var d := Read(old(buffer), data, old(Probe()), old(probeOnly) != 0.0);
        var t := Tell(d.events, Sayer(gcode, gcodeFileName, delta, math, show));
        halts == t.halts && outbox == old(outbox) + t.sent &&
        (halts ==> buffer == d.buffer && Probe() == d.state)
      ensures halts && old(Valid()) ==> Valid()
    {
      buffer := buffer + data;
      if |buffer| > MaxBuffer {
        buffer := buffer[|buffer| - KeptBuffer..];
      }
      var only := probeOnly != 0.0;
      if old(Valid()) {
        ProbeStreamProperties.DrainStats(buffer, Probe(), only);
        ProbeStreamProperties.DrainWithinPlan(buffer, Probe(), only);
      }
      halts := DrainBuffer(only, math, show);
    }

    /** The `while (true)` loop of `serialport:read`: every complete record is cut out and handled. */
    method DrainBuffer(only: bool, math: MathLib, show: real -> string) returns (halts: bool)
      modifies this`buffer, this`probedPoints, this`minDz, this`maxDz, this`sumDz, this`planned, this`wco, this`outbox
      ensures var d := Drain(old(buffer), old(Probe()), only);
        var t := Tell(d.events, Sayer(gcode, gcodeFileName, delta, math, show));
        halts == t.halts && outbox == old(outbox) + t.sent &&
        (halts ==> buffer == d.buffer && Probe() == d.state)
    {
      ghost var say := Sayer(gcode, gcodeFileName, delta, math, show);
      ghost var d := Drain(buffer, Probe(), only);
      ghost var done: seq<ProbeEvent> := [];
      assert outbox == old(outbox) + [];
      halts := true;
      while true
        invariant Midway(d, old(outbox), done, say, only)
        decreases |buffer|
      {
        var found, ok;
        found, ok, done := DrainTurn(only, math, show, say, d, old(outbox), done);
        if !found {
          break;
        }
        if !ok {
          return false;
        }
      }
    }

    /**
      * The state of the extraction loop part way: what is left to drain from the
      * buffer ends as the whole read `d` does, after the events `done` whose
      * messages were sent after `o`.
      */
    ghost predicate Midway(d: Drained, o: seq<Outgoing>, done: seq<ProbeEvent>, say: ProbeEvent -> Applied, only: bool)
      reads this
    {
      var r := Drain(buffer, Probe(), only);
      r.buffer == d.buffer && r.state == d.state && done + r.events == d.events &&
      Tell(done, say).halts && outbox == o + Tell(done, say).sent
    }

    /** One turn of the extraction loop, with the proof that the loop keeps its course. */
    method DrainTurn(only: bool, math: MathLib, show: real -> string, ghost say: ProbeEvent -> Applied,
                     ghost d: Drained, ghost o: seq<Outgoing>, ghost done: seq<ProbeEvent>)
        returns (found: bool, ok: bool, ghost done': seq<ProbeEvent>)
      modifies this`buffer, this`probedPoints, this`minDz, this`maxDz, this`sumDz, this`planned, this`wco, this`outbox
      requires say == Sayer(gcode, gcodeFileName, delta, math, show)
      requires Midway(d, o, done, say, only)
      ensures found && ok ==> Midway(d, o, done', say, only) && |buffer| < old(|buffer|)
      ensures !found ==> buffer == d.buffer && Probe() == d.state && outbox == o + Tell(d.events, say).sent &&
                         Tell(d.events, say).halts
      ensures found && !ok ==> outbox == o + Tell(d.events, say).sent && !Tell(d.events, say).halts
    {
      ghost var b0, ps0 := buffer, Probe();
      var events, sent;
      found, events, sent, ok := TakeRecord(only, math, show);
      if !found {
        DrainEnds(b0, ps0, only);
        assert done + [] == done;
        return found, ok, done;
      }
      ghost var rest := Drain(buffer, Probe(), only);
      DrainTakes(b0, ps0, only, buffer, Probe(), events);
      EventsInTurnOrder(done, events, rest.events);
      TellAppend(done, events, say);
      SentInTurnOrder(o, Tell(done, say).sent, sent);
      outbox := outbox + sent;
      done' := done + events;
      if !ok {
        TellStops(done', rest.events, say);
      }
    }

    /**
      * One turn of the extraction loop: cuts the next complete record out of the
      * buffer, handles it and sends its messages; nothing changes when there is
      * no complete record.
      */
    method TakeRecord(only: bool, math: MathLib, show: real -> string)
        returns (found: bool, events: seq<ProbeEvent>, sent: seq<Outgoing>, ok: bool)
      modifies this`buffer, this`probedPoints, this`minDz, this`maxDz, this`sumDz, this`planned, this`wco
      ensures var c := NextChunk(old(buffer));
        found == c.Some? &&
        (!found ==> buffer == old(buffer) && Probe() == old(Probe())) &&
        (found ==> buffer == c.value.1 && (Probe(), events) == Handle(old(Probe()), FirstReport(c.value.0), only) &&
                   Applied(sent, ok) == Tell(events, Sayer(gcode, gcodeFileName, delta, math, show)))
    {
      var chunk := NextChunk(buffer);
      if chunk.None? {
        return false, [], [], true;
      }
      var line := chunk.value.0;
      buffer := chunk.value.1;
      events := Record(FirstReport(line), only);
      sent, ok := Perform(events, math, show);
      found := true;
    }

    /**
      * One record of the stream (`prbm`): outside a run nothing changes;
      * otherwise the point is appended, the statistics updated, and the last
      * planned point ends the run.
      */
    method Record(rep: Option<Report>, only: bool) returns (events: seq<ProbeEvent>)
      modifies this`probedPoints, this`minDz, this`maxDz, this`sumDz, this`planned, this`wco
      ensures (Probe(), events) == Handle(old(Probe()), rep, only)
      ensures forall i :: 0 <= i < |events| && events[i].Compensate? ==> events[i].points == probedPoints
    {
      events := [];
      if rep.Some? {
        var pt := Point3(rep.value.x - wco.x, rep.value.y - wco.y, rep.value.z - wco.z);
        if planned > 0 {
          if |probedPoints| == 0 {
            minDz := pt.z;
            maxDz := pt.z;
            sumDz := pt.z;
          } else {
            if pt.z < minDz {
              minDz := pt.z;
            }
            if pt.z > maxDz {
              maxDz := pt.z;
            }
            sumDz := sumDz + pt.z;
          }
          probedPoints := probedPoints + [pt];
          events := [Probed(pt)];
          if |probedPoints| >= planned {
            var last := if only then ProbeFinished else Compensate(probedPoints);
            events := [Probed(pt), Summary(minDz, maxDz, sumDz / |probedPoints| as real), last];
            planned := 0;
            wco := Origin;
          }
        }
      }
    }

    /** Sends the messages of `events` in order, stopping inside a compensation pass that never ends. */
    method Perform(events: seq<ProbeEvent>, math: MathLib, show: real -> string) returns (sent: seq<Outgoing>, halts: bool)
      requires forall i :: 0 <= i < |events| && events[i].Compensate? ==> events[i].points == probedPoints
      ensures Applied(sent, halts) == Tell(events, Sayer(gcode, gcodeFileName, delta, math, show))
    {
      ghost var say := Sayer(gcode, gcodeFileName, delta, math, show);
      sent := [];
      halts := true;
      var i := 0;
      while i < |events| && halts
        invariant 0 <= i <= |events|
        invariant Applied(sent, halts) == Tell(events[..i], say)
      {
        var more, ok := Say(events[i], math, show);
        TellNext(events, i, say);
        sent, halts := sent + more, ok;
        i := i + 1;
      }
      if halts {
        assert events[..i] == events;
      } else {
        TellStops(events[..i], events[i..], say);
        assert events[..i] + events[i..] == events;
      }
    }

    /** What one event tells the controller, and whether it returns. */
    method Say(ev: ProbeEvent, math: MathLib, show: real -> string) returns (more: seq<Outgoing>, ok: bool)
      requires ev.Compensate? ==> ev.points == probedPoints
      ensures Applied(more, ok) == Sayer(gcode, gcodeFileName, delta, math, show)(ev)
    {
      ok := true;
      match ev {
        case Probed(pt) =>
          more := [Send(ProbedText(pt, show))];
        case Summary(lo, hi, avg) =>
          more := [Send(SummaryText(lo, hi, avg))];
        case Compensate(_) =>
          more, ok := ApplyCompensation(math);
        case ProbeFinished =>
          more := [Send("(AL: finished)")];
      }
    }

    // ------------------------------------------------------------ the commands

    /**
      * `applyCompensation`: the compensation pass over the loaded program with
      * the mesh of the probed points. It returns the messages sent and whether
      * the pass returns at all.
      */
    method ApplyCompensation(math: MathLib) returns (sent: seq<Outgoing>, halts: bool)
      ensures Applied(sent, halts) == Apply(probedPoints, gcode, gcodeFileName, delta, math)
    {
      sent := [Send("(AL: applying ...)\n")];
      var mesh := new Mesh(probedPoints);
      var lines := GcodeText.Split(gcode, '\n');
      var p, notes := CompensateLines(mesh, lines, delta, math);
      sent := sent + notes;
      match p
      case Running(result, _) =>
        sent := sent + [Send("(AL: loading new gcode " + Prefix + gcodeFileName + " ...)"),
                        Load(Prefix + gcodeFileName, Join(Texts(result), '\n')),
                        Send("(AL: finished)")];
        halts := true;
      case Failed(_) =>
        sent := sent + [Failure];
        halts := true;
      case Stuck(_) =>
        halts := false;
    }

    /**
      * `#autolevel`: reads `P`; without a loaded program it says so and stops
      * unless `P` is truthy; otherwise it updates the settings, forgets the
      * points and plans the probing program, which it sends with its point
      * count. The outcome of the planner is returned (None when it stopped early).
      */
    method Start(cmd: string, ctx: Context, show: real -> string) returns (outcome: Option<PlanOutcome>)
      modifies this`probeOnly, this`delta, this`height, this`feed, this`probedPoints, this`planned, this`outbox
      ensures var req := ParseRequest(cmd);
        probeOnly == OrElse(req.probeOnly, 0.0) &&
        (gcode == "" && probeOnly == 0.0 ==> outcome.None? && outbox == old(outbox) + [Send(NoProgram)]) &&
        (outcome.None? ==> Stored() == old(Stored()) && probedPoints == old(probedPoints) && planned == old(planned)) &&
        (gcode != "" || probeOnly != 0.0 ==> outcome == Some(PlanFor(req, Update(old(Stored()), req), bounds, ctx)))
      ensures var req := ParseRequest(cmd);
        outcome.Some? ==>
          Stored() == Update(old(Stored()), req) && probedPoints == [] && planned == PlannedCount(outcome.value) &&
          outbox == old(outbox) + Opening(gcode) + Program(outcome.value, show)
      ensures old(Valid()) ==> Valid()
    {
      var req := ParseRequest(cmd);
      outcome := StartWith(req, ctx, show);
    }

    /** `#autolevel` with the words of its command read. */
    method StartWith(req: Request, ctx: Context, show: real -> string) returns (outcome: Option<PlanOutcome>)
      modifies this`probeOnly, this`delta, this`height, this`feed, this`probedPoints, this`planned, this`outbox
      ensures probeOnly == OrElse(req.probeOnly, 0.0)
      ensures gcode == "" && probeOnly == 0.0 ==> outcome.None? && outbox == old(outbox) + [Send(NoProgram)]
      ensures outcome.None? ==> Stored() == old(Stored()) && probedPoints == old(probedPoints) && planned == old(planned)
      ensures gcode != "" || probeOnly != 0.0 ==> outcome == Some(PlanFor(req, Update(old(Stored()), req), bounds, ctx))
      ensures outcome.Some? ==> Stored() == Update(old(Stored()), req) && probedPoints == []
      ensures outcome.Some? ==> planned == PlannedCount(outcome.value)
      ensures outcome.Some? ==> outbox == old(outbox) + Opening(gcode) + Program(outcome.value, show)
      ensures old(Valid()) ==> Valid()
    {
      probeOnly := OrElse(req.probeOnly, 0.0);
      if gcode == "" {
        outbox := outbox + [Send(NoProgram)];
        if probeOnly == 0.0 {
          return None;
        }
      }
      outbox := outbox + [Send("(AL: auto-leveling started)")];
      assert outbox == old(outbox) + Opening(gcode);
      var plan := Probing(req, ctx, show);
      outcome := Some(plan);
    }

    /** The settings, the reset of the points, the plan and the program of `#autolevel`. */
    method Probing(req: Request, ctx: Context, show: real -> string) returns (plan: PlanOutcome)
      modifies this`delta, this`height, this`feed, this`probedPoints, this`planned, this`outbox
      ensures Stored() == Update(old(Stored()), req) && probedPoints == []
      ensures plan == PlanFor(req, Stored(), bounds, ctx)
      ensures planned == PlannedCount(plan)
      ensures outbox == old(outbox) + Program(plan, show)
      ensures old(Valid()) ==> Valid()
    {
      var st := Update(Stored(), req);
      delta, height, feed := st.delta, st.height, st.feed;
      probedPoints := [];
      planned := 0;
      plan := PlanGrid(req, st, ctx);
      if plan.Planned? {
        planned := plan.count;
        outbox := outbox + [Send(ProgramText(plan.code, show))];
      }
    }

    /** The rectangle, the spacing and the loops of `#autolevel`. */
    method PlanGrid(req: Request, st: Settings, ctx: Context) returns (plan: PlanOutcome)
      ensures plan == PlanFor(req, st, bounds, ctx)
    {
      var margin := Margin(st, req);
      var xr := AxisRange(req.xSize, bounds, "X", ctx.xmin, ctx.xmax, margin);
      var yr := AxisRange(req.ySize, bounds, "Y", ctx.ymin, ctx.ymax, margin);
      if xr.None? || yr.None? {
        return NonFinite;
      }
      var sx := StepOf(xr.value.0, xr.value.1, req.grid, st.delta);
      var sy := StepOf(yr.value.0, yr.value.1, req.grid, st.delta);
      if sx.Finite? && sy.Finite? {
        plan := PlanProbes(xr.value.0, xr.value.1, sx.d, yr.value.0, yr.value.1, sy.d, st);
      } else {
        // the loops run at most once with a step that is not finite
        plan := PlanSteps(xr.value.0, xr.value.1, sx, yr.value.0, yr.value.1, sy, st);
      }
    }

    /**
      * `#autolevel reapply`: without a program, or with fewer than three
      * points, it says so; otherwise it runs the compensation pass again.
      */
    method Reapply(math: MathLib) returns (halts: bool)
      modifies this`outbox
      ensures gcode == "" ==> halts && outbox == old(outbox) + [Send(NoProgram)]
      ensures gcode != "" && |probedPoints| < 3 ==>
        halts && outbox == old(outbox) + [Send("(AL: no previous autolevel points)")]
      ensures gcode != "" && |probedPoints| >= 3 ==>
        var a := Apply(probedPoints, gcode, gcodeFileName, delta, math);
        halts == a.halts && outbox == old(outbox) + a.sent
    {
      if gcode == "" {
        outbox := outbox + [Send(NoProgram)];
        return true;
      }
      if |probedPoints| < 3 {
        outbox := outbox + [Send("(AL: no previous autolevel points)")];
        return true;
      }
      var sent;
      sent, halts := ApplyCompensation(math);
      outbox := outbox + sent;
    }

    /** `#autolevel dump`: every probed point as a `(AL: PROBED ...)` note between a start and an end note. */
    method DumpMesh(show: real -> string)
      modifies this`outbox
      ensures outbox == old(outbox) + Dump(probedPoints, show)
    {
      if |probedPoints| == 0 {
        outbox := outbox + [Send("(AL: no mesh data)")];
        return;
      }
      outbox := outbox + [Send("(AL: dumping mesh start)")];
      var i := 0;
      while i < |probedPoints|
        invariant 0 <= i <= |probedPoints|
        invariant outbox == old(outbox) + [Send("(AL: dumping mesh start)")] + ProbedNotes(probedPoints[..i], show)
      {
        assert probedPoints[..i + 1][..i] == probedPoints[..i];
        outbox := outbox + [Send(ProbedText(probedPoints[i], show))];
        i := i + 1;
      }
      assert probedPoints[..i] == probedPoints;
      outbox := outbox + [Send("(AL: finished)")];
      DumpNoteByNote(old(outbox), probedPoints, show);
    }
  }
}
