/** Streams inside runs: what the broadcast channel shows of each stream. */
module Streams {
  import opened Types
  import opened RunTable
  import opened Protocol
  import opened Invariant

  /** The life of one stream id on the wire. `Broken` is any order of frames other
      than one start, deltas, and at most one end. */
  datatype Life =
    | Absent
    | Live(run: RunId, text: string)
    | Ended(run: RunId, error: Option<StreamCode>, text: string)
    | Broken

  function Next(life: Life, f: Frame, sid: Id): Life {
    if f.EventFrame? || f.sid != sid then life
    else match (life, f)
      case (Absent, StartFrame(r, _)) => Live(r, "")
      case (Live(r, text), DeltaFrame(_, more)) => Live(r, text + more)
      case (Live(r, text), EndFrame(_, error)) => Ended(r, error, text)
      case _ => Broken
  }

  function LifeOf(wire: seq<Frame>, sid: Id): Life {
    if wire == [] then Absent else Next(LifeOf(wire[..|wire| - 1], sid), wire[|wire| - 1], sid)
  }

  lemma LifeOfAppend(wire: seq<Frame>, f: Frame, sid: Id)
    ensures LifeOf(wire + [f], sid) == Next(LifeOf(wire, sid), f, sid)
  {
    assert (wire + [f])[..|wire|] == wire;
  }

  lemma {:induction false} FreshIsAbsent(wire: seq<Frame>, sid: Id)
    requires forall i | 0 <= i < |wire| && IsStreamFrame(wire[i]) :: wire[i].sid != sid
    ensures LifeOf(wire, sid) == Absent
  {
    if wire != [] {
      FreshIsAbsent(wire[..|wire| - 1], sid);
    }
  }

  /** The text of a stream: its deltas in the order of the wire. */
  function DeltaText(wire: seq<Frame>, sid: Id): string {
    if wire == [] then ""
    else
      var f := wire[|wire| - 1];
      DeltaText(wire[..|wire| - 1], sid) + if f.DeltaFrame? && f.sid == sid then f.text else ""
  }

  /** The frames of the stream, apart from those at `start` and `end`, are deltas
      between them. */
  ghost predicate OnlyDeltas(wire: seq<Frame>, sid: Id, start: nat, end: nat) {
    forall k | 0 <= k < |wire| && k != start && k != end && !wire[k].EventFrame? && wire[k].sid == sid ::
      start < k < end && wire[k].DeltaFrame?
  }

  /** What the life of a stream says of its frames. */
  ghost predicate Spelt(wire: seq<Frame>, sid: Id, life: Life) {
    match life
    case Absent => forall k | 0 <= k < |wire| && !wire[k].EventFrame? :: wire[k].sid != sid
    case Live(r, text) =>
      && text == DeltaText(wire, sid)
      && exists start: nat | start < |wire| ::
           wire[start] == StartFrame(r, sid) && OnlyDeltas(wire, sid, start, |wire|)
    case Ended(r, error, text) =>
      && text == DeltaText(wire, sid)
      && exists start: nat, end: nat | start < end < |wire| ::
           wire[start] == StartFrame(r, sid) && wire[end] == EndFrame(sid, error) && OnlyDeltas(wire, sid, start, end)
    case Broken => true
  }

  lemma {:induction false} NoDeltas(wire: seq<Frame>, sid: Id)
    requires Spelt(wire, sid, Absent)
    ensures DeltaText(wire, sid) == ""
  {
    if wire != [] { NoDeltas(wire[..|wire| - 1], sid); }
  }

  lemma {:induction false} LifeMeaning(wire: seq<Frame>, sid: Id)
    ensures Spelt(wire, sid, LifeOf(wire, sid))
  {
    if wire != [] {
      LifeMeaning(wire[..|wire| - 1], sid);
      NextMeaning(wire[..|wire| - 1], wire[|wire| - 1], sid);
      assert wire == wire[..|wire| - 1] + [wire[|wire| - 1]];
    }
  }

  lemma NextMeaning(wire: seq<Frame>, f: Frame, sid: Id)
    requires Spelt(wire, sid, LifeOf(wire, sid))
    ensures Spelt(wire + [f], sid, Next(LifeOf(wire, sid), f, sid))
  {
    var life, all := LifeOf(wire, sid), wire + [f];
    assert all[..|wire|] == wire;
    match life
    case Absent => NoDeltas(wire, sid);
    case Live(r, _) =>
      var start: nat :| start < |wire| && wire[start] == StartFrame(r, sid) && OnlyDeltas(wire, sid, start, |wire|);
      assert all[start] == StartFrame(r, sid);
      if f.EndFrame? && f.sid == sid { assert all[|wire|] == f && OnlyDeltas(all, sid, start, |wire|); }
      else { assert f.EventFrame? || f.sid != sid || f.DeltaFrame? ==> OnlyDeltas(all, sid, start, |all|); }
    case Ended(r, error, _) =>
      var start: nat, end: nat :| start < end < |wire| && wire[start] == StartFrame(r, sid)
                                  && wire[end] == EndFrame(sid, error) && OnlyDeltas(wire, sid, start, end);
      assert all[start] == StartFrame(r, sid) && all[end] == EndFrame(sid, error);
      assert f.EventFrame? || f.sid != sid ==> OnlyDeltas(all, sid, start, end);
    case Broken =>
  }

  predicate TerminalFrame(f: Frame, r: RunId) {
    && f.EventFrame? && f.event.run == Some(r)
    && (f.event.kind.RunCompleted? || f.event.kind.RunFailed? || f.event.kind.RunCancelled?)
  }

  predicate TerminalSeen(wire: seq<Frame>, r: RunId) {
    exists i | 0 <= i < |wire| :: TerminalFrame(wire[i], r)
  }

  function OpenOf(o: Owner): map<Id, string> {
    if o.Driver? && (o.phase.Consuming? || o.phase.Unwinding?) then o.phase.open else map[]
  }

  /** The event a coroutine is publishing, if any. */
  function InFlight(w: Work): Option<Event> {
    match w
    case Idle => None
    case Publishing(p) => Some(p.event)
    case Calling(Some(p), _) => Some(p.event)
    case Calling(None, _) => None
  }

  /** A streamed event belongs to a stream of its own run that ended without error
      and whose deltas spell its text. */
  ghost predicate Backed(wire: seq<Frame>, e: Event) {
    e.streamed ==> e.run.Some? && LifeOf(wire, e.id) == Ended(e.run.value, None, e.text)
  }

  /** The driver has not left its handler. */
  predicate BeforeEnd(o: Owner) {
    o.Driver? && (o.phase.Scheduled? || o.phase.Starting? || o.phase.Announcing? || o.phase.Consuming?)
  }

  ghost predicate ProcStreamsOk(wire: seq<Frame>, p: Proc) {
    && (InFlight(p.work).Some? ==> Backed(wire, InFlight(p.work).value))
    && (forall sid | sid in OpenOf(p.owner) :: LifeOf(wire, sid) == Live(p.owner.run, OpenOf(p.owner)[sid]))
    && (BeforeEnd(p.owner) ==>
          !TerminalSeen(wire, p.owner.run))
  }

  ghost predicate HeldOpen(s: State, r: RunId, sid: Id) {
    exists i | 0 <= i < |s.procs| :: DriverOf(s.procs[i], r) && sid in OpenOf(s.procs[i].owner)
  }

  /** Every stream of a run ends before the run's terminal event is broadcast, and
      none starts after it. */
  ghost predicate Nested(wire: seq<Frame>) {
    wire != [] ==>
      var before, f := wire[..|wire| - 1], wire[|wire| - 1];
      && Nested(before)
      && (f.EventFrame? && f.event.run.Some? && IsTerminal(f.event.kind) ==>
            forall sid :: !(LifeOf(before, sid).Live? && LifeOf(before, sid).run == f.event.run.value))
      && (f.StartFrame? ==> !TerminalSeen(before, f.run))
  }

  ghost predicate StreamsOk(s: State) {
    && (forall i | 0 <= i < |s.procs| :: ProcStreamsOk(s.wire, s.procs[i]))
    && (forall sid :: LifeOf(s.wire, sid) != Broken)
    && (forall sid | LifeOf(s.wire, sid).Live? :: HeldOpen(s, LifeOf(s.wire, sid).run, sid))
    && (forall i | 0 <= i < |s.events| :: Backed(s.wire, s.events[i]))
    && (forall r: RunId | Undriven(s, r) :: !TerminalSeen(s.wire, r))
    && Nested(s.wire)
  }

  /** How a step's frame and the open streams of its coroutine go together. */
  ghost predicate FrameOk(s: State, p: Proc, p': Proc, e: Effect) {
    && (e.Append? ==> InFlight(p.work) == Some(e.event))
    && (if e.Emit? then
          match e.frame
          case EventFrame(ev) =>
            && InFlight(p.work) == Some(ev)
            && ev.run == (if p.owner.Driver? then Some(p.owner.run) else None)
            && (IsTerminal(ev.kind) && p.owner.Driver? ==>
                  p.owner.phase.Ending? && p'.owner.Driver? && p'.owner.phase.Flushing?)
            && OpenOf(p'.owner) == OpenOf(p.owner)
          case StartFrame(r, sid) =>
            && DriverOf(p, r) && p.owner.phase.Consuming? && FreshStream(s, sid)
            && OpenOf(p'.owner) == OpenOf(p.owner)[sid := ""]
          case DeltaFrame(sid, text) =>
            sid in OpenOf(p.owner) && OpenOf(p'.owner) == OpenOf(p.owner)[sid := OpenOf(p.owner)[sid] + text]
          case EndFrame(sid, error) =>
            sid in OpenOf(p.owner) && OpenOf(p'.owner) == OpenOf(p.owner) - {sid}
        else OpenOf(p'.owner) == OpenOf(p.owner))
    && (InFlight(p'.work).Some? && InFlight(p'.work).value.streamed && InFlight(p'.work) != InFlight(p.work) ==>
          var ev := InFlight(p'.work).value;
          e == Emit(EndFrame(ev.id, None)) && p.owner.Driver? && ev.run == Some(p.owner.run)
            && ev.text == OpenOf(p.owner)[ev.id])
    && (BeforeEnd(p'.owner) ==> BeforeEnd(p.owner))
  }

  lemma CallingFrameOk(s: State, p: Proc, authorized: bool)
    requires ProcOk(s.runs, p) && p.work.Calling?
    ensures WellTyped(s, p) && FrameOk(s, p, WorkStep(s, p, authorized).0, WorkStep(s, p, authorized).1)
  {
    OkIsWellTyped(s, p);
    if !p.work.call.pc.Returned? { CallStepOk(s, p.work.call); }
  }

  lemma PublishingFrameOk(s: State, p: Proc, authorized: bool)
    requires ProcOk(s.runs, p) && p.work.Publishing?
    ensures WellTyped(s, p) && FrameOk(s, p, WorkStep(s, p, authorized).0, WorkStep(s, p, authorized).1)
  {
    OkIsWellTyped(s, p);
    PublishStepOk(s, p.work.publication, authorized);
  }

  lemma WorkFrameOk(s: State, p: Proc, c: Choice)
    requires ProcOk(s.runs, p) && Enabled(s, p, c) && p.work != Idle
    ensures WellTyped(s, p) && FrameOk(s, p, LocalStep(s, p, c).0, LocalStep(s, p, c).1)
  {
    OkIsWellTyped(s, p);
    if c.Advance? && p.work.Calling? { CallingFrameOk(s, p, c.authorized); }
    else if c.Advance? { PublishingFrameOk(s, p, c.authorized); }
  }

  lemma IdleFrameOk(s: State, p: Proc, c: Choice)
    requires ProcOk(s.runs, p) && Enabled(s, p, c) && p.work == Idle
    ensures WellTyped(s, p) && FrameOk(s, p, LocalStep(s, p, c).0, LocalStep(s, p, c).1)
  {
    OkIsWellTyped(s, p);
  }

  ghost predicate StreamStep(s: State, pid: nat, p': Proc, e: Effect, t: State) {
    && Stepped(s, pid, p', e, t)
    && StreamsOk(s)
    && FrameOk(s, s.procs[pid], p', e)
  }

  predicate Touches(e: Effect, sid: Id) {
    e.Emit? && IsStreamFrame(e.frame) && e.frame.sid == sid
  }

  /** A frame touches the life of the one stream it names, and does not break it. */
  lemma LivesAfter(s: State, pid: nat, p': Proc, e: Effect, t: State, sid: Id)
    requires StreamStep(s, pid, p', e, t)
    ensures var before, after := LifeOf(s.wire, sid), LifeOf(t.wire, sid);
      && after != Broken
      && (before.Ended? ==> after == before)
      && (!Touches(e, sid) ==> after == before)
  {
    assert ProcStreamsOk(s.wire, s.procs[pid]);
    if e.Emit? {
      LifeOfAppend(s.wire, e.frame, sid);
      if e.frame.StartFrame? { FreshIsAbsent(s.wire, e.frame.sid); }
    }
  }

  lemma TouchedLife(s: State, pid: nat, p': Proc, e: Effect, t: State, sid: Id)
    requires StreamStep(s, pid, p', e, t) && Touches(e, sid)
    ensures var before, after, o := LifeOf(s.wire, sid), LifeOf(t.wire, sid), s.procs[pid].owner;
      && o.Driver?
      && (before == Absent || (before.Live? && before.run == o.run && sid in OpenOf(o)))
      && match e.frame
         case StartFrame(_, _) => after == Live(o.run, "")
         case DeltaFrame(_, text) => sid in OpenOf(o) && after == Live(o.run, OpenOf(o)[sid] + text)
         case EndFrame(_, error) => sid in OpenOf(o) && after == Ended(o.run, error, OpenOf(o)[sid])
         case _ => true
  {
    assert ProcStreamsOk(s.wire, s.procs[pid]);
    LifeOfAppend(s.wire, e.frame, sid);
    if e.frame.StartFrame? { FreshIsAbsent(s.wire, e.frame.sid); }
  }

  lemma SeenAfter(s: State, pid: nat, p': Proc, e: Effect, t: State, r: RunId)
    requires StreamStep(s, pid, p', e, t) && TerminalSeen(t.wire, r)
    ensures TerminalSeen(s.wire, r) || (DriverOf(s.procs[pid], r) && p'.owner.Driver? && p'.owner.phase.Flushing?)
  {
    var i :| 0 <= i < |t.wire| && TerminalFrame(t.wire[i], r);
    assert i < |s.wire| ==> t.wire[i] == s.wire[i];
  }

  lemma OtherStreamsOk(s: State, pid: nat, p': Proc, e: Effect, t: State, i: nat)
    requires StreamStep(s, pid, p', e, t) && i < |s.procs| && i != pid
    ensures ProcStreamsOk(t.wire, s.procs[i])
  {
    var p, q := s.procs[pid], s.procs[i];
    assert ProcStreamsOk(s.wire, q);
    if InFlight(q.work).Some? { LivesAfter(s, pid, p', e, t, InFlight(q.work).value.id); }
    forall sid | sid in OpenOf(q.owner) ensures LifeOf(t.wire, sid) == LifeOf(s.wire, sid) {
      LivesAfter(s, pid, p', e, t, sid);
      if Touches(e, sid) { TouchedLife(s, pid, p', e, t, sid); }
    }
    if q.owner.Driver? && TerminalSeen(t.wire, q.owner.run) { SeenAfter(s, pid, p', e, t, q.owner.run); }
  }

  lemma OwnEventOk(s: State, pid: nat, p': Proc, e: Effect, t: State)
    requires StreamStep(s, pid, p', e, t)
    ensures InFlight(p'.work).Some? ==> Backed(t.wire, InFlight(p'.work).value)
  {
    assert ProcStreamsOk(s.wire, s.procs[pid]);
    if InFlight(p'.work).Some? && InFlight(p'.work).value.streamed {
      var sid := InFlight(p'.work).value.id;
      LivesAfter(s, pid, p', e, t, sid);
      if Touches(e, sid) { TouchedLife(s, pid, p', e, t, sid); }
    }
  }

  lemma OwnStreamOk(s: State, pid: nat, p': Proc, e: Effect, t: State, sid: Id)
    requires StreamStep(s, pid, p', e, t) && sid in OpenOf(p'.owner)
    ensures LifeOf(t.wire, sid) == Live(p'.owner.run, OpenOf(p'.owner)[sid])
  {
    assert ProcStreamsOk(s.wire, s.procs[pid]);
    LivesAfter(s, pid, p', e, t, sid);
    if Touches(e, sid) { TouchedLife(s, pid, p', e, t, sid); }
  }

  lemma OwnStreamsOk(s: State, pid: nat, p': Proc, e: Effect, t: State)
    requires StreamStep(s, pid, p', e, t)
    ensures ProcStreamsOk(t.wire, p')
  {
    OwnEventOk(s, pid, p', e, t);
    forall sid | sid in OpenOf(p'.owner) ensures LifeOf(t.wire, sid) == Live(p'.owner.run, OpenOf(p'.owner)[sid]) {
      OwnStreamOk(s, pid, p', e, t, sid);
    }
    assert ProcStreamsOk(s.wire, s.procs[pid]);
    if p'.owner.Driver? && TerminalSeen(t.wire, p'.owner.run) { SeenAfter(s, pid, p', e, t, p'.owner.run); }
  }

  lemma SpawnedStreamsOk(s: State, pid: nat, p': Proc, e: Effect, t: State)
    requires StreamStep(s, pid, p', e, t) && e.Spawn?
    ensures ProcStreamsOk(t.wire, t.procs[|s.procs|])
  {
    assert t.wire == s.wire;
  }

  lemma HeldOpenAfter(s: State, pid: nat, p': Proc, e: Effect, t: State, sid: Id)
    requires StreamStep(s, pid, p', e, t) && LifeOf(t.wire, sid).Live?
    ensures HeldOpen(t, LifeOf(t.wire, sid).run, sid)
  {
    var r := LifeOf(t.wire, sid).run;
    if Touches(e, sid) {
      OpenAfter(s, pid, p', e, t, sid);
      TouchedLife(s, pid, p', e, t, sid);
      assert DriverOf(t.procs[pid], r) && sid in OpenOf(t.procs[pid].owner);
    } else {
      LivesAfter(s, pid, p', e, t, sid);
      assert HeldOpen(s, r, sid);
      StaysHeldOpen(s, pid, p', e, t, r, sid);
    }
  }

  lemma StaysHeldOpen(s: State, pid: nat, p': Proc, e: Effect, t: State, r: RunId, sid: Id)
    requires StreamStep(s, pid, p', e, t) && !Touches(e, sid) && HeldOpen(s, r, sid)
    ensures HeldOpen(t, r, sid)
  {
    OpenAfter(s, pid, p', e, t, sid);
    var i :| 0 <= i < |s.procs| && DriverOf(s.procs[i], r) && sid in OpenOf(s.procs[i].owner);
    assert t.procs[i] == if i == pid then p' else s.procs[i];
    assert DriverOf(t.procs[i], r) && sid in OpenOf(t.procs[i].owner);
  }

  lemma OpenAfter(s: State, pid: nat, p': Proc, e: Effect, t: State, sid: Id)
    requires StreamStep(s, pid, p', e, t)
    ensures forall r :: DriverOf(p', r) <==> DriverOf(s.procs[pid], r)
    ensures if Touches(e, sid) then e.frame.EndFrame? || sid in OpenOf(p'.owner)
            else sid in OpenOf(p'.owner) <==> sid in OpenOf(s.procs[pid].owner)
  {
  }

  lemma NestedAfter(s: State, pid: nat, p': Proc, e: Effect, t: State)
    requires StreamStep(s, pid, p', e, t)
    ensures Nested(t.wire)
  {
    var p := s.procs[pid];
    if e.Emit? {
      assert t.wire[..|t.wire| - 1] == s.wire;
      assert ProcStreamsOk(s.wire, p);
      if e.frame.EventFrame? && e.frame.event.run.Some? && IsTerminal(e.frame.event.kind) {
        var r := e.frame.event.run.value;
        assert OpenOf(p.owner) == map[] && DriverOf(p, r);
        assert !HeldOpen(s, r, "") && forall sid :: !HeldOpen(s, r, sid);
      }
    }
  }

  lemma StepKeepsStreams(s: State, pid: nat, p': Proc, e: Effect, t: State)
    requires StreamStep(s, pid, p', e, t)
    ensures StreamsOk(t)
  {
    forall sid ensures LifeOf(t.wire, sid) != Broken { LivesAfter(s, pid, p', e, t, sid); }
    forall i | 0 <= i < |t.procs| ensures ProcStreamsOk(t.wire, t.procs[i]) {
      if i == pid { OwnStreamsOk(s, pid, p', e, t); }
      else if i < |s.procs| { OtherStreamsOk(s, pid, p', e, t, i); }
      else { SpawnedStreamsOk(s, pid, p', e, t); }
    }
    forall sid | LifeOf(t.wire, sid).Live? ensures HeldOpen(t, LifeOf(t.wire, sid).run, sid) {
      HeldOpenAfter(s, pid, p', e, t, sid);
    }
    forall i | 0 <= i < |t.events| ensures Backed(t.wire, t.events[i]) {
      assert i < |s.events| ==> t.events[i] == s.events[i] && Backed(s.wire, s.events[i]);
      assert ProcStreamsOk(s.wire, s.procs[pid]);
      LivesAfter(s, pid, p', e, t, t.events[i].id);
    }
    forall r: RunId | Undriven(t, r) ensures !TerminalSeen(t.wire, r) {
      assert !DriverOf(t.procs[pid], r);
      if TerminalSeen(t.wire, r) { SeenAfter(s, pid, p', e, t, r); }
    }
    NestedAfter(s, pid, p', e, t);
  }

  lemma ActKeepsStreams(s: State, pid: nat, c: Choice)
    requires Inv(s) && StreamsOk(s) && CanApply(s, Act(pid, c))
    ensures StreamsOk(Apply(s, Act(pid, c)))
  {
    var p := s.procs[pid];
    ActFrame(s, pid, c);
    if p.work == Idle { IdleFrameOk(s, p, c); } else { WorkFrameOk(s, p, c); }
    var (p', e) := LocalStep(s, p, c);
    StepKeepsStreams(s, pid, p', e, Apply(s, Act(pid, c)));
  }

  lemma {:induction false} StreamsAlways(tr: seq<State>, acts: seq<Action>, n: nat)
    requires Behaviour(tr, acts) && n < |tr|
    ensures Inv(tr[n]) && StreamsOk(tr[n])
  {
    InvAlways(tr, acts, n);
    if n > 0 {
      StreamsAlways(tr, acts, n - 1);
      var s, a, t := tr[n - 1], acts[n - 1], tr[n];
      if a.Act? {
        ActKeepsStreams(s, a.pid, a.choice);
      } else {
        OutsideKeepsStreams(s, a);
      }
    }
  }

  lemma OutsideKeepsStreams(s: State, a: Action)
    requires StreamsOk(s) && CanApply(s, a) && !a.Act?
    ensures StreamsOk(Apply(s, a))
  {
    var t := Apply(s, a);
    assert forall i | 0 <= i < |s.procs| :: t.procs[i] == s.procs[i];
    forall r: RunId | Undriven(t, r) ensures Undriven(s, r) {
      assert forall i | 0 <= i < |s.procs| :: !DriverOf(t.procs[i], r);
    }
    forall sid | LifeOf(t.wire, sid).Live? ensures HeldOpen(t, LifeOf(t.wire, sid).run, sid) {
      assert HeldOpen(s, LifeOf(s.wire, sid).run, sid);
      var i :| 0 <= i < |s.procs| && DriverOf(s.procs[i], LifeOf(s.wire, sid).run) && sid in OpenOf(s.procs[i].owner);
      assert DriverOf(t.procs[i], LifeOf(t.wire, sid).run) && sid in OpenOf(t.procs[i].owner);
    }
  }

  // ----- the theorems -----

  /** Content agreement: a persisted streamed event carries the id of a stream of
      its run that has already ended without error, and its text is the
      concatenation of that stream's deltas. A stream that ended with an error
      never has an event. */
  lemma StreamContentAgrees(tr: seq<State>, acts: seq<Action>, n: nat, k: nat)
    requires Behaviour(tr, acts) && n < |tr| && k < |tr[n].events| && tr[n].events[k].streamed
    ensures var e := tr[n].events[k];
            e.run.Some? && LifeOf(tr[n].wire, e.id) == Ended(e.run.value, None, e.text)
    ensures var e, wire := tr[n].events[k], tr[n].wire;
      && e.text == DeltaText(wire, e.id)
      && exists start: nat, end: nat | start < end < |wire| ::
           && wire[start] == StartFrame(e.run.value, e.id) && wire[end] == EndFrame(e.id, None)
           && OnlyDeltas(wire, e.id, start, end)
  {
    StreamsAlways(tr, acts, n);
    assert Backed(tr[n].wire, tr[n].events[k]);
    LifeMeaning(tr[n].wire, tr[n].events[k].id);
  }

  /** A stream that a fault closes ends with the code of the fault; a deadline reaches
      the handler as a cancellation. */
  lemma FaultEndsStream(tr: seq<State>, acts: seq<Action>, k: nat, i: nat, sid: Id, code: StreamCode)
    requires Behaviour(tr, acts) && k < |acts| && acts[k] == Act(i, FailStream(sid, code))
    requires i < |tr[k].procs| && tr[k].procs[i].owner.Driver? && tr[k].procs[i].owner.phase.Unwinding?
    ensures tr[k + 1].wire == tr[k].wire + [EndFrame(sid, Some(code))]
    ensures match tr[k].procs[i].owner.phase.cause
            case Raised => code.CodeHandlerError?
            case RaisedTimeout => code.CodeTimeout?
            case CancelRequested => code.CodeCancelled?
            case DeadlinePassed => code.CodeCancelled?
  {
    assert CanApply(tr[k], acts[k]) && tr[k + 1] == Apply(tr[k], acts[k]);
  }

  lemma {:induction false} NestedPrefix(wire: seq<Frame>, k: nat, r: RunId, sid: Id)
    requires Nested(wire) && k < |wire| && TerminalFrame(wire[k], r)
    requires LifeOf(wire, sid) != Broken
    requires (LifeOf(wire, sid).Live? || LifeOf(wire, sid).Ended?) && LifeOf(wire, sid).run == r
    ensures LifeOf(wire[..k], sid).Ended? && LifeOf(wire[..k], sid) == LifeOf(wire, sid)
  {
    var before := wire[..|wire| - 1];
    if k < |wire| - 1 {
      assert before[..k] == wire[..k] && before[k] == wire[k];
      assert TerminalSeen(before, r);
      NestedPrefix(before, k, r, sid);
    }
  }

  /** Streams nest in runs: at the run's terminal event every stream of the run has
      had its single end frame after all its deltas, and nothing follows it. */
  lemma StreamsNestInRuns(tr: seq<State>, acts: seq<Action>, n: nat, k: nat, r: RunId, sid: Id)
    requires Behaviour(tr, acts) && n < |tr|
    requires k < |tr[n].wire| && TerminalFrame(tr[n].wire[k], r)
    requires var life := LifeOf(tr[n].wire, sid); (life.Live? || life.Ended?) && life.run == r
    ensures LifeOf(tr[n].wire[..k], sid).Ended? && LifeOf(tr[n].wire[..k], sid) == LifeOf(tr[n].wire, sid)
  {
    StreamsAlways(tr, acts, n);
    NestedPrefix(tr[n].wire, k, r, sid);
  }

  /** Whatever interrupted it, a driver past its handler has no stream left open,
      and no stream ever shows a malformed order of frames. */
  lemma StreamsClose(tr: seq<State>, acts: seq<Action>, n: nat, i: nat, sid: Id)
    requires Behaviour(tr, acts) && n < |tr| && i < |tr[n].procs|
    requires var o := tr[n].procs[i].owner; o.Driver? && !o.phase.Consuming? && !o.phase.Unwinding?
    ensures var life := LifeOf(tr[n].wire, sid);
            life != Broken && !(life.Live? && life.run == tr[n].procs[i].owner.run)
  {
    StreamsAlways(tr, acts, n);
    var s, r := tr[n], tr[n].procs[i].owner.run;
    if HeldOpen(s, r, sid) {
      var j :| 0 <= j < |s.procs| && DriverOf(s.procs[j], r) && sid in OpenOf(s.procs[j].owner);
      assert Claims(s.procs[i], r) && Claims(s.procs[j], r);
    }
  }
}
