/** The events each run leaves in the log. */
module Trace {
  import opened Types
  import opened RunTable
  import opened Protocol
  import opened Invariant
  import Induction

  /** The kinds of a run's events, in append order. */
  function RunTrace(events: seq<Event>, r: RunId): seq<Kind> {
    if events == [] then []
    else
      var before := RunTrace(events[..|events| - 1], r);
      var e := events[|events| - 1];
      if e.run == Some(r) then before + [e.kind] else before
  }

  /** The events themselves, in append order. */
  function RunEvents(events: seq<Event>, r: RunId): seq<Event> {
    if events == [] then []
    else
      var before := RunEvents(events[..|events| - 1], r);
      var e := events[|events| - 1];
      if e.run == Some(r) then before + [e] else before
  }

  function Kinds(events: seq<Event>): seq<Kind> {
    seq(|events|, i requires 0 <= i < |events| => events[i].kind)
  }

  lemma {:induction false} TraceIsKinds(events: seq<Event>, r: RunId)
    ensures RunTrace(events, r) == Kinds(RunEvents(events, r))
  {
    if events != [] { TraceIsKinds(events[..|events| - 1], r); }
  }

  lemma RunEventsOfAppend(events: seq<Event>, e: Event, r: RunId)
    ensures RunEvents(events + [e], r) == if e.run == Some(r) then RunEvents(events, r) + [e] else RunEvents(events, r)
  {
    assert (events + [e])[..|events|] == events;
  }

  /** The runs' events are the events of the log that name the run, each once and in
      append order: `at[i]` is where event `i` of the run is in the log. */
  lemma {:induction false} RunEventsMeaning(events: seq<Event>, r: RunId) returns (at: seq<nat>)
    ensures |at| == |RunEvents(events, r)| == |RunTrace(events, r)|
    ensures forall i | 0 <= i < |at| ::
      && at[i] < |events| && events[at[i]].run == Some(r)
      && RunEvents(events, r)[i] == events[at[i]] && RunTrace(events, r)[i] == events[at[i]].kind
    ensures forall i, j | 0 <= i < j < |at| :: at[i] < at[j]
    ensures forall k | 0 <= k < |events| && events[k].run == Some(r) :: k in at
  {
    at := [];
    if events != [] {
      var last := |events| - 1;
      at := RunEventsMeaning(events[..last], r);
      if events[last].run == Some(r) { at := at + [last]; }
    }
  }

  /** `run.started` and then only what a handler or stream publishes. */
  predicate OpenTrace(ks: seq<Kind>) {
    ks != [] && ks[0].RunStarted? && forall i | 1 <= i < |ks| ::
      ks[i].Message? || ks[i].Reasoning? || ks[i].ToolCall? || ks[i].ToolResult?
  }

  /** An open trace followed by the one terminal event that matches the status. */
  predicate ClosedTrace(ks: seq<Kind>, status: Status) {
    && |ks| >= 2
    && OpenTrace(ks[..|ks| - 1])
    && var end := ks[|ks| - 1];
       match status
       case Completed => end.RunCompleted?
       case Failed => end.RunFailed?
       case Cancelled => end.RunCancelled?
       case _ => false
  }

  /** The table of outcomes: a handler that returns completes its run, a cancel cancels
      it, and any other fault fails it, with `handler_error` for an ordinary exception
      and with `timeout` for a `TimeoutError` or a passed deadline. The last event of
      the run tells the same. */
  predicate EndsAs(outcome: Option<Cause>, row: Run, end: Kind) {
    match outcome
    case None => row.status.Completed? && row.error.None? && end.RunCompleted?
    case Some(CancelRequested) => row.status.Cancelled? && row.error.None? && end.RunCancelled?
    case Some(Raised) => row.status.Failed? && row.error == Some(HandlerError) && end.RunFailed?
    case Some(RaisedTimeout) => row.status.Failed? && row.error == Some(Timeout) && end.RunFailed?
    case Some(DeadlinePassed) => row.status.Failed? && row.error == Some(Timeout) && end.RunFailed?
  }

  lemma TraceOfAppend(events: seq<Event>, e: Event, r: RunId)
    ensures RunTrace(events + [e], r) ==
            if e.run == Some(r) then RunTrace(events, r) + [e.kind] else RunTrace(events, r)
  {
    assert (events + [e])[..|events|] == events;
  }

  /** The trace a driver has left, by phase, when no interruption spoilt it. */
  ghost predicate UnspoiltTrace(row: Run, phase: Phase, logged: bool, ks: seq<Kind>) {
    match phase
    case Scheduled => ks == []
    case Lost => ks == []
    case Starting => ks == []
    case Announcing => ks == (if logged then [RunStarted] else [])
    case Consuming(_) => OpenTrace(ks)
    case Unwinding(_, _) => OpenTrace(ks)
    case Writing(_, _, _) => OpenTrace(ks)
    case Ending(_, _) => if logged then ClosedTrace(ks, row.status) else OpenTrace(ks)
    case _ => ClosedTrace(ks, row.status)
  }

  /** One event at most, and it is not `run.started`. */
  ghost predicate StartlessTrace(phase: Phase, logged: bool, ks: seq<Kind>) {
    match phase
    case Writing(guarded, _, _) => !guarded && ks == []
    case Ending(guarded, _) => !guarded && |ks| <= if logged then 1 else 0
    case _ => (phase.Flushing? || phase.Gone? || phase.Leaked?) && |ks| <= 1
  }

  /** A closed trace for `run.completed`, which another terminal event follows or
      which the row's status no longer matches. */
  ghost predicate DoubledTrace(row: Run, phase: Phase, logged: bool, ks: seq<Kind>) {
    match phase
    case Writing(guarded, _, _) => !guarded && row.status.Completed? && ClosedTrace(ks, Completed)
    case Ending(guarded, _) =>
      !guarded && if logged then ClosedBefore(ks) else ClosedTrace(ks, Completed)
    case _ =>
      && (phase.Flushing? || phase.Gone? || phase.Leaked?)
      && ((!row.status.Completed? && ClosedTrace(ks, Completed)) || ClosedBefore(ks))
  }

  predicate ClosedBefore(ks: seq<Kind>) {
    ks != [] && ClosedTrace(ks[..|ks| - 1], Completed)
  }

  /** The trace of a run whose driver is at `phase`. `logged` tells whether the
      lifecycle event being published is in the log. */
  ghost predicate TraceOk(row: Run, phase: Phase, spoil: Spoil, logged: bool, ks: seq<Kind>) {
    match spoil
    case Unspoilt => UnspoiltTrace(row, phase, logged, ks)
    case NoStart => StartlessTrace(phase, logged, ks)
    case NoEnd => (phase.Flushing? || phase.Gone? || phase.Leaked?) && OpenTrace(ks)
    case TwoEnds => DoubledTrace(row, phase, logged, ks)
  }

  /** What the phase says of the statuses it writes. */
  predicate PhaseOk(row: Run, phase: Phase) {
    match phase
    case Writing(guarded, status, _) => !IsActive(status) && (guarded <==> status.Completed?)
    case Ending(guarded, status) => row.status == status && !IsActive(status) && (guarded <==> status.Completed?)
    case _ => true
  }

  predicate KindFits(phase: Phase, kind: Kind) {
    match phase
    case Announcing => kind == RunStarted
    case Consuming(_) => IsHandlerKind(kind)
    case Ending(_, status) => kind == TerminalKind(status)
    case _ => false
  }

  lemma AppendTrace(row: Run, phase: Phase, spoil: Spoil, kind: Kind, ks: seq<Kind>)
    requires TraceOk(row, phase, spoil, false, ks) && PhaseOk(row, phase) && KindFits(phase, kind)
    ensures TraceOk(row, phase, spoil, true, ks + [kind])
  {
    assert (ks + [kind])[..|ks|] == ks;
  }

  lemma RaiseTrace(row: Run, phase: Phase, spoil: Spoil, logged: bool, cause: Cause, ks: seq<Kind>)
    requires TraceOk(row, phase, spoil, logged, ks) && PhaseOk(row, phase) && Interruptible(phase, cause)
    ensures TraceOk(row, Interrupted(phase, cause), Spoiled(spoil, phase, logged), false, ks)
  {
  }

  /** What the trace of a driver past its last event is worth. */
  lemma FinishedTrace(row: Run, phase: Phase, spoil: Spoil, ks: seq<Kind>)
    requires TraceOk(row, phase, spoil, false, ks) && (phase.Flushing? || phase.Gone? || phase.Leaked?)
    ensures ClosedTrace(ks, row.status) <==> spoil.Unspoilt?
  {
    if spoil.NoEnd? && |ks| >= 2 { assert IsHandlerKind(ks[|ks| - 1]); }
    if spoil.TwoEnds? && |ks| >= 3 && OpenTrace(ks[..|ks| - 1]) { assert ks[..|ks| - 1][|ks| - 2] == ks[|ks| - 2]; }
  }

  ghost predicate DriverTraceOk(row: Run, o: Owner, w: Work, ks: seq<Kind>)
    requires o.Driver?
  {
    TraceOk(row, o.phase, o.spoil, IsLogged(w), ks)
  }

  ghost predicate ProcTraceOk(s: State, p: Proc) {
    p.owner.Driver? ==>
      p.owner.run < |s.runs| && DriverTraceOk(s.runs[p.owner.run], p.owner, p.work, RunTrace(s.events, p.owner.run))
  }

  ghost predicate TracesOk(s: State)
  {
    && (forall i | 0 <= i < |s.procs| :: ProcTraceOk(s, s.procs[i]))
    && (forall r: RunId | Undriven(s, r) :: RunTrace(s.events, r) == [])
  }

  function EventsAfter(events: seq<Event>, e: Effect): seq<Event> {
    if e.Append? then events + [e.event] else events
  }

  /** A driver appends only events of its own run, other coroutines none of any run. */
  lemma AppendsOwnEvents(s: State, p: Proc, c: Choice)
    requires ProcOk(s.runs, p) && Enabled(s, p, c)
    ensures WellTyped(s, p)
    ensures var (p', e) := LocalStep(s, p, c);
            e.Append? ==>
              && p.work.Publishing? && p.work.publication.pc.AtAppend? && e.event == p.work.publication.event
              && p'.owner == p.owner && p'.work == Publishing(p.work.publication.(pc := AtBroadcast))
              && (if p.owner.Driver? then e.event.run == Some(p.owner.run) else e.event.run == None)
  {
    OkIsWellTyped(s, p);
  }

  lemma DriverFits(row: Run, o: Owner, w: Work)
    requires o.Driver? && DriverOk(row, o, w)
    ensures PhaseOk(row, o.phase)
    ensures w.Publishing? ==> KindFits(o.phase, w.publication.event.kind)
  {
  }

  lemma AppendTraceOk(row: Run, o: Owner, w: Work, e: Event, ks: seq<Kind>)
    requires o.Driver? && DriverOk(row, o, w) && DriverTraceOk(row, o, w, ks)
    requires w.Publishing? && w.publication.pc.AtAppend? && e == w.publication.event
    ensures DriverTraceOk(row, o, Publishing(w.publication.(pc := AtBroadcast)), ks + [e.kind])
  {
    DriverFits(row, o, w);
    AppendTrace(row, o.phase, o.spoil, e.kind, ks);
  }

  lemma RaiseTraceOk(row: Run, o: Owner, w: Work, cause: Cause, ks: seq<Kind>)
    requires o.Driver? && DriverOk(row, o, w) && DriverTraceOk(row, o, w, ks) && Interruptible(o.phase, cause)
    ensures DriverTraceOk(row, Raise(o, w, cause), Idle, ks)
  {
    DriverFits(row, o, w);
    RaiseTrace(row, o.phase, o.spoil, IsLogged(w), cause, ks);
  }

  lemma DoneTraceOk(row: Run, o: Owner, w: Work, ks: seq<Kind>)
    requires o.Driver? && DriverOk(row, o, w) && DriverTraceOk(row, o, w, ks) && IsLogged(w)
    ensures DriverTraceOk(row, AfterPublish(o), Idle, ks)
  {
  }

  lemma GoTraceOk(row: Run, o: Owner, w: Work, w': Work, ks: seq<Kind>)
    requires o.Driver? && DriverOk(row, o, w) && DriverTraceOk(row, o, w, ks)
    requires w.Publishing? && (o.phase.Consuming? || IsLogged(w') == IsLogged(w))
    ensures DriverTraceOk(row, o, w', ks)
  {
  }

  /** What a driver's own step does to its trace is in order. */
  ghost predicate OwnTrace(s: State, p: Proc, p': Proc, e: Effect) {
    && p.owner.Driver? && p'.owner.Driver? && p.owner.run < |s.runs|
    && (e.Write? ==> e.run < |s.runs|)
    && DriverTraceOk(RunsAfter(s.runs, e)[p.owner.run], p'.owner, p'.work,
       RunTrace(EventsAfter(s.events, e), p.owner.run))
  }

  /** What a step of a publication can be: it logs the event, is refused, returns, or
      goes on. */
  datatype Move = Logs | IsRefused | Finishes | GoesOn

  ghost predicate Moves(m: Move, p: Proc, p': Proc, e: Effect)
    requires p.owner.Driver? && p.work.Publishing?
  {
    var q := p.work.publication;
    match m
    case Logs =>
      e == Append(q.event) && q.pc.AtAppend? && p'.owner == p.owner && p'.work == Publishing(q.(pc := AtBroadcast))
    case IsRefused =>
      e.Quiet? && Interruptible(p.owner.phase, Raised) && p'.owner == Raise(p.owner, p.work, Raised) && p'.work == Idle
    case Finishes =>
      (e.Quiet? || e.Emit?) && IsLogged(p.work) && p'.owner == AfterPublish(p.owner) && p'.work == Idle
    case GoesOn =>
      (e.Quiet? || e.Emit?) && p'.owner == p.owner
        && (p.owner.phase.Consuming? || IsLogged(p'.work) == IsLogged(p.work))
  }

  lemma PublishMoves(s: State, p: Proc, authorized: bool) returns (m: Move)
    requires ProcOk(s.runs, p) && p.owner.Driver? && p.work.Publishing?
    ensures WellTyped(s, p)
    ensures Moves(m, p, WorkStep(s, p, authorized).0, WorkStep(s, p, authorized).1)
  {
    OkIsWellTyped(s, p);
    PublishStepOk(s, p.work.publication, authorized);
    var (next, e) := PublishStep(s, p.work.publication, authorized);
    m := if e.Append? then Logs else if next.Rejected? then IsRefused else if next.Done? then Finishes else GoesOn;
  }

  lemma PublishTraceOk(s: State, p: Proc, m: Move, p': Proc, e: Effect)
    requires ProcOk(s.runs, p) && p.owner.Driver? && p.work.Publishing? && Moves(m, p, p', e)
    requires DriverTraceOk(s.runs[p.owner.run], p.owner, p.work, RunTrace(s.events, p.owner.run))
    requires e.Append? ==> e.event.run == Some(p.owner.run)
    ensures OwnTrace(s, p, p', e)
  {
    var row, ks := s.runs[p.owner.run], RunTrace(s.events, p.owner.run);
    match m
    case Logs =>
      TraceOfAppend(s.events, e.event, p.owner.run);
      AppendTraceOk(row, p.owner, p.work, e.event, ks);
    case IsRefused => RaiseTraceOk(row, p.owner, p.work, Raised, ks);
    case Finishes => DoneTraceOk(row, p.owner, p.work, ks);
    case GoesOn => GoTraceOk(row, p.owner, p.work, p'.work, ks);
  }

  lemma CallTraceOk(s: State, p: Proc, authorized: bool)
    requires ProcOk(s.runs, p) && p.owner.Driver? && p.work.Calling?
    requires DriverTraceOk(s.runs[p.owner.run], p.owner, p.work, RunTrace(s.events, p.owner.run))
    ensures WellTyped(s, p)
    ensures OwnTrace(s, p, WorkStep(s, p, authorized).0, WorkStep(s, p, authorized).1)
  {
    OkIsWellTyped(s, p);
    if !p.work.call.pc.Returned? { CallStepOk(s, p.work.call); }
    RaiseTraceOk(s.runs[p.owner.run], p.owner, p.work, Raised, RunTrace(s.events, p.owner.run));
  }

  lemma IdleTraceOk(s: State, p: Proc, c: Choice)
    requires ProcOk(s.runs, p) && Enabled(s, p, c) && p.owner.Driver? && p.work.Idle? && !c.Interrupt?
    requires DriverTraceOk(s.runs[p.owner.run], p.owner, p.work, RunTrace(s.events, p.owner.run))
    ensures WellTyped(s, p)
    ensures OwnTrace(s, p, LocalStep(s, p, c).0, LocalStep(s, p, c).1)
  {
    OkIsWellTyped(s, p);
  }

  lemma OwnTraceOk(s: State, p: Proc, c: Choice)
    requires ProcOk(s.runs, p) && Enabled(s, p, c) && p.owner.Driver?
    requires DriverTraceOk(s.runs[p.owner.run], p.owner, p.work, RunTrace(s.events, p.owner.run))
    ensures WellTyped(s, p)
    ensures OwnTrace(s, p, LocalStep(s, p, c).0, LocalStep(s, p, c).1)
  {
    OkIsWellTyped(s, p);
    if p.work.Idle? && !c.Interrupt? { IdleTraceOk(s, p, c); }
    else if c.Advance? && p.work.Publishing? {
      var m := PublishMoves(s, p, c.authorized);
      AppendsOwnEvents(s, p, c);
      PublishTraceOk(s, p, m, WorkStep(s, p, c.authorized).0, WorkStep(s, p, c.authorized).1);
    }
    else if c.Advance? && p.work.Calling? { CallTraceOk(s, p, c.authorized); }
    else if c.Interrupt? {
      RaiseTraceOk(s.runs[p.owner.run], p.owner, p.work, c.cause, RunTrace(s.events, p.owner.run));
    }
  }

  lemma StepKeepsTraces(s: State, pid: nat, p': Proc, e: Effect, t: State)
    requires Stepped(s, pid, p', e, t) && TracesOk(s)
    requires e.Append? ==> e.event.run == (if p'.owner.Driver? then Some(p'.owner.run) else None)
    requires ProcTraceOk(t, p')
    ensures TracesOk(t)
  {
    var p := s.procs[pid];
    assert t.events == EventsAfter(s.events, e);
    forall r: RunId | !DriverOf(p, r) ensures RunTrace(t.events, r) == RunTrace(s.events, r) {
      if e.Append? { TraceOfAppend(s.events, e.event, r); }
    }
    forall i | 0 <= i < |t.procs| ensures ProcTraceOk(t, t.procs[i]) {
      if i < |s.procs| {
        assert ProcTraceOk(s, s.procs[i]);
      } else {
        assert !DriverOf(p, e.run);
      }
    }
    forall r: RunId | Undriven(t, r) ensures RunTrace(t.events, r) == [] {
      assert !DriverOf(t.procs[pid], r);
    }
  }

  lemma ActKeepsTraces(s: State, pid: nat, c: Choice)
    requires Inv(s) && TracesOk(s) && CanApply(s, Act(pid, c))
    ensures TracesOk(Apply(s, Act(pid, c)))
  {
    var p := s.procs[pid];
    ActFrame(s, pid, c);
    AppendsOwnEvents(s, p, c);
    assert ProcTraceOk(s, p);
    if p.owner.Driver? { OwnTraceOk(s, p, c); }
    var (p', e) := LocalStep(s, p, c);
    StepKeepsTraces(s, pid, p', e, Apply(s, Act(pid, c)));
  }

  lemma OutsideKeepsTraces(s: State, a: Action)
    requires TracesOk(s) && CanApply(s, a) && !a.Act?
    ensures TracesOk(Apply(s, a))
  {
    var t := Apply(s, a);
    forall i | 0 <= i < |t.procs| ensures ProcTraceOk(t, t.procs[i]) {
      assert i < |s.procs| ==> t.procs[i] == s.procs[i] && ProcTraceOk(s, s.procs[i]);
    }
    forall r: RunId | Undriven(t, r) ensures Undriven(s, r) {
      forall i | 0 <= i < |s.procs| ensures !DriverOf(s.procs[i], r) {
        assert t.procs[i] == s.procs[i] && !DriverOf(t.procs[i], r);
      }
    }
  }

  lemma TracesStep(tr: seq<State>, acts: seq<Action>, k: nat)
    requires Behaviour(tr, acts) && k + 1 < |tr| && TracesOk(tr[k])
    ensures TracesOk(tr[k + 1])
  {
    InvAlways(tr, acts, k);
    if acts[k].Act? { ActKeepsTraces(tr[k], acts[k].pid, acts[k].choice); } else { OutsideKeepsTraces(tr[k], acts[k]); }
  }

  lemma TracesAlways(tr: seq<State>, acts: seq<Action>, n: nat)
    requires Behaviour(tr, acts) && n < |tr|
    ensures Inv(tr[n]) && TracesOk(tr[n])
  {
    var fine := (k: nat) => k < |tr| && TracesOk(tr[k]);
    forall k: nat | 0 <= k < n && fine(k) ensures fine(k + 1) { TracesStep(tr, acts, k); }
    Induction.Kept(fine, 0, n);
    InvAlways(tr, acts, n);
  }

  predicate Finished(o: Owner) {
    o.Driver? && (o.phase.Flushing? || o.phase.Gone? || o.phase.Leaked?)
  }

  /** The run trace grammar, with its exact condition. A finished run leaves
      `run.started`, its handler's events and exactly one terminal event, the one
      that matches the final status of its row, if and only if no interruption
      spoilt it. */
  lemma RunTraceGrammar(tr: seq<State>, acts: seq<Action>, n: nat, i: nat)
    requires Behaviour(tr, acts) && n < |tr| && i < |tr[n].procs| && Finished(tr[n].procs[i].owner)
    ensures var o := tr[n].procs[i].owner;
      && o.run < |tr[n].runs|
      && (ClosedTrace(RunTrace(tr[n].events, o.run), tr[n].runs[o.run].status) <==> o.spoil.Unspoilt?)
    ensures var o := tr[n].procs[i].owner;
      var ks, status := RunTrace(tr[n].events, o.run), tr[n].runs[o.run].status;
      o.spoil.Unspoilt? ==>
        && |ks| >= 2 && ks[0].RunStarted?
        && (forall j | 1 <= j < |ks| - 1 ::
              ks[j].Message? || ks[j].Reasoning? || ks[j].ToolCall? || ks[j].ToolResult?)
        && (ks[|ks| - 1].RunCompleted? <==> status.Completed?)
        && (ks[|ks| - 1].RunFailed? <==> status.Failed?)
        && (ks[|ks| - 1].RunCancelled? <==> status.Cancelled?)
        && (status.Completed? || status.Failed? || status.Cancelled?)
  {
    TracesAlways(tr, acts, n);
    var o := tr[n].procs[i].owner;
    assert ProcOk(tr[n].runs, tr[n].procs[i]) && ProcTraceOk(tr[n], tr[n].procs[i]);
    var ks := RunTrace(tr[n].events, o.run);
    FinishedTrace(tr[n].runs[o.run], o.phase, o.spoil, ks);
    if o.spoil.Unspoilt? { assert forall j | 1 <= j < |ks| - 1 :: ks[..|ks| - 1][j] == ks[j]; }
  }

  /** Coroutine `i` is interrupted only in its handler, and no event it logs has a
      used id. */
  predicate OnlyHandlerInterrupted(s: State, a: Action, i: nat) {
    a.Act? && a.pid == i && i < |s.procs| ==>
      && (a.choice.Interrupt? && s.procs[i].owner.Driver? ==> s.procs[i].owner.phase.Consuming?)
      && (s.procs[i].work.Publishing? ==>
            forall k | 0 <= k < |s.events| :: s.procs[i].work.publication.pc.AtAppend? ==>
              s.events[k].id != s.procs[i].work.publication.event.id)
  }

  predicate NotSpoilt(s: State, i: nat) {
    i < |s.procs| && s.procs[i].owner.Driver? ==> s.procs[i].owner.spoil.Unspoilt?
  }

  lemma OwnStepSpoilsNothing(s: State, i: nat, c: Choice)
    requires i < |s.procs| && ProcOk(s.runs, s.procs[i]) && Enabled(s, s.procs[i], c)
    requires OnlyHandlerInterrupted(s, Act(i, c), i) && NotSpoilt(s, i)
    ensures WellTyped(s, s.procs[i])
    ensures var p' := LocalStep(s, s.procs[i], c).0; p'.owner.Driver? ==> p'.owner.spoil.Unspoilt?
  {
    OkIsWellTyped(s, s.procs[i]);
  }

  lemma StepSpoilsNothing(tr: seq<State>, acts: seq<Action>, k: nat, i: nat)
    requires Behaviour(tr, acts) && k + 1 < |tr| && OnlyHandlerInterrupted(tr[k], acts[k], i) && NotSpoilt(tr[k], i)
    ensures NotSpoilt(tr[k + 1], i)
  {
    InvAlways(tr, acts, k);
    var s, a := tr[k], acts[k];
    if a.Act? {
      ActFrame(s, a.pid, a.choice);
      if a.pid == i { OwnStepSpoilsNothing(s, i, a.choice); }
    }
  }

  /** So a run whose driver is interrupted in its handler only, whatever the handler
      does and however it ends, leaves a closed trace. */
  lemma HandlerOutcomesClose(tr: seq<State>, acts: seq<Action>, n: nat, i: nat)
    requires Behaviour(tr, acts) && n < |tr| && i < |tr[n].procs| && Finished(tr[n].procs[i].owner)
    requires forall k | 0 <= k < n :: OnlyHandlerInterrupted(tr[k], acts[k], i)
    ensures var r := tr[n].procs[i].owner.run;
            r < |tr[n].runs| && ClosedTrace(RunTrace(tr[n].events, r), tr[n].runs[r].status)
  {
    RunTraceGrammar(tr, acts, n, i);
    var fine := (k: nat) => k < |tr| && NotSpoilt(tr[k], i);
    forall k: nat | 0 <= k < n && fine(k) ensures fine(k + 1) {
      StepSpoilsNothing(tr, acts, k, i);
    }
    Induction.Kept(fine, 0, n);
  }

  /** The cancel that spoils a run: it reaches the driver after `run.completed` was
      logged, rewrites the row and adds a second terminal event. */
  lemma LateCancelAddsTerminal(s: State, pid: nat, stamp: Stamp)
    requires Inv(s) && TracesOk(s) && LateCancelState(s, pid)
    requires forall i | 0 <= i < |s.events| :: s.events[i].id != stamp.id
    ensures var r := s.procs[pid].owner.run;
      var cancel, go := Act(pid, Interrupt(CancelRequested)), Act(pid, Advance(stamp, false));
      && r < |s.runs| && ClosedTrace(RunTrace(s.events, r), Completed) && s.runs[r].status == Completed
      && CanApply(s, cancel)
      && var s1 := Apply(s, cancel);
      && CanApply(s1, go)
      && var s2 := Apply(s1, go);
      && CanApply(s2, go)
      && var s3 := Apply(s2, go);
      && r < |s3.runs| && s3.runs[r].status == Cancelled
      && RunTrace(s3.events, r) == RunTrace(s.events, r) + [RunCancelled]
  {
    var p, r := s.procs[pid], s.procs[pid].owner.run;
    var go := Act(pid, Advance(stamp, false));
    assert ProcOk(s.runs, p) && ProcTraceOk(s, p);
    var s1 := Apply(s, Act(pid, Interrupt(CancelRequested)));
    CancelledRunEnds(s1, pid, stamp);
  }

  /** `run.completed` is logged and not yet broadcast. */
  ghost predicate LateCancelState(s: State, pid: nat) {
    && pid < |s.procs|
    && var p := s.procs[pid];
    p.owner.Driver? && p.owner.phase == Ending(true, Completed) && p.owner.spoil.Unspoilt? && IsLogged(p.work)
  }

  lemma CancelledRunEnds(s: State, pid: nat, stamp: Stamp)
    requires pid < |s.procs| && s.procs[pid].owner.Driver? && s.procs[pid].owner.run < |s.runs|
    requires s.procs[pid].owner.phase == Writing(false, Cancelled, None) && s.procs[pid].work == Idle
    requires forall i | 0 <= i < |s.events| :: s.events[i].id != stamp.id
    ensures var r, go := s.procs[pid].owner.run, Act(pid, Advance(stamp, false));
      && CanApply(s, go)
      && var t := Apply(s, go);
      && CanApply(t, go)
      && var u := Apply(t, go);
      && r < |u.runs| && u.runs[r].status == Cancelled
      && RunTrace(u.events, r) == RunTrace(s.events, r) + [RunCancelled]
  {
    var r, go := s.procs[pid].owner.run, Act(pid, Advance(stamp, false));
    var t := Apply(s, go);
    var e := t.procs[pid].work.publication.event;
    var u := Apply(t, go);
    assert u.events == s.events + [e];
    TraceOfAppend(s.events, e, r);
  }
}
