/** What every event in the log satisfies, and what the log tells a run about the
    message that started it. */
module EventLog {
  import opened Types
  import opened RunTable
  import opened Protocol
  import opened Invariant
  import Exclusivity
  import Induction
  import Recipients
  import Keys

  /** `e` is a message directed at the run's assistant by the identity that
      triggered the run. */
  predicate Asks(e: Event, run: Run) {
    && e.kind.Message? && e.thread == run.thread && e.author == run.triggeredBy
    && e.recipients.Some? && run.assistant in e.recipients.value
  }

  ghost predicate Asked(events: seq<Event>, run: Run) {
    exists k | 0 <= k < |events| :: Asks(events[k], run)
  }

  predicate Directed(e: Event) {
    e.kind.Message? && e.recipients.Some?
  }

  ghost predicate PublicationLogged(events: seq<Event>, p: Publication) {
    && Recipients.WellFormed(p.event.recipients, p.event.author)
    && (p.pc.AtBroadcast? || p.pc.AtInvoke? ==> p.event in events)
    && (p.pc.AtInvoke? ==> Directed(p.event) && forall x | x in p.rest :: x in p.event.recipients.value)
  }

  /** A call made by the recipient loop: a registered handler, an assistant of the
      members snapshot, one level deeper, on behalf of the author. */
  ghost predicate CallFromLoop(s: State, p: Publication, c: Call) {
    && PublicationLogged(s.events, p) && p.pc.AtInvoke?
    && c.thread == p.event.thread && c.triggeredBy == p.event.author && c.depth == p.depth + 1 && c.key.None?
    && c.assistant in p.event.recipients.value
    && c.assistant in s.handlers
    && c.assistant in p.members && p.members[c.assistant]
  }

  ghost predicate ProcLogged(s: State, p: Proc) {
    && (p.owner.Driver? && p.owner.depth > 0 ==> p.owner.run < |s.runs| && Asked(s.events, s.runs[p.owner.run]))
    && match p.work
       case Idle => true
       case Publishing(q) => PublicationLogged(s.events, q)
       case Calling(None, c) => c.depth == 0
       case Calling(Some(q), c) => CallFromLoop(s, q, c)
  }

  ghost predicate LogOk(s: State) {
    && Keys.UniqueIds(s.events)
    && (forall k | 0 <= k < |s.events| :: Recipients.WellFormed(s.events[k].recipients, s.events[k].author))
    && (forall k | 0 <= k < |s.wire| && s.wire[k].EventFrame? :: s.wire[k].event in s.events)
    && (forall i | 0 <= i < |s.procs| :: ProcLogged(s, s.procs[i]))
  }

  lemma BeginLogged(events: seq<Event>, e: Event, since: nat)
    ensures PublicationLogged(events, BeginPublication(e, since))
  {
    Recipients.NormalizedShape(e.recipients, e.author);
  }

  ghost predicate LogEffectOk(s: State, e: Effect) {
    && (e.Append? ==>
          && Recipients.WellFormed(e.event.recipients, e.event.author)
          && forall k | 0 <= k < |s.events| :: s.events[k].id != e.event.id)
    && (e.Emit? && e.frame.EventFrame? ==> e.frame.event in s.events)
  }

  function After(s: State, e: Effect): State
    requires e.Write? ==> e.run < |s.runs|
  {
    s.(runs := RunsAfter(s.runs, e), events := if e.Append? then s.events + [e.event] else s.events)
  }

  lemma LaterLogged(s: State, t: State, p: Proc)
    requires ProcLogged(s, p) && s.events <= t.events && s.handlers <= t.handlers && |s.runs| <= |t.runs|
    requires forall r | 0 <= r < |s.runs| ::
      t.runs[r].thread == s.runs[r].thread && t.runs[r].assistant == s.runs[r].assistant
        && t.runs[r].triggeredBy == s.runs[r].triggeredBy
    ensures ProcLogged(t, p)
  {
    if p.owner.Driver? && p.owner.depth > 0 {
      var k :| 0 <= k < |s.events| && Asks(s.events[k], s.runs[p.owner.run]);
      assert Asks(t.events[k], t.runs[p.owner.run]);
    }
  }

  lemma PublishStepLogged(s: State, p: Publication, authorized: bool)
    requires PublicationOk(p) && PublicationLogged(s.events, p)
    ensures var (next, e) := PublishStep(s, p, authorized);
            && LogEffectOk(s, e)
            && (next.Go? && next.work.Publishing? ==> PublicationLogged(After(s, e).events, next.work.publication))
            && (next.Go? && next.work.Calling? ==>
                  next.work.parent.Some? && CallFromLoop(s, next.work.parent.value, next.work.call) && e.Quiet?)
  {
    if p.pc.AtInvoke? && p.rest != [] {
      assert p.rest[0] in p.rest;
      assert forall x | x in p.rest[1..] :: x in p.rest;
    }
  }

  /** What a coroutine's own step adds to the log is in order. */
  ghost predicate StepLogged(s: State, p: Proc, p': Proc, e: Effect) {
    && LogEffectOk(s, e)
    && (e.Write? ==> e.run < |s.runs|)
    && (e.Spawn? && e.depth > 0 ==> e.run < |s.runs| && Asked(s.events, s.runs[e.run]))
    && match p'.work
       case Idle => true
       case Publishing(q) => PublicationLogged(After(s, e).events, q)
       case Calling(None, call) => call.depth == 0
       case Calling(Some(q), call) => CallFromLoop(After(s, e), q, call)
  }

  lemma CallLogged(s: State, p: Proc, authorized: bool)
    requires ProcOk(s.runs, p) && ProcLogged(s, p) && p.work.Calling?
    ensures WellTyped(s, p)
    ensures StepLogged(s, p, WorkStep(s, p, authorized).0, WorkStep(s, p, authorized).1)
  {
    OkIsWellTyped(s, p);
    var call := p.work.call;
    if !call.pc.Returned? { CallStepOk(s, call); }
    if call.pc.AtSpawn? && call.depth > 0 {
      var asker := p.work.parent.value.event;
      var k :| 0 <= k < |s.events| && s.events[k] == asker;
      assert Asks(s.events[k], s.runs[call.pc.run]);
    }
  }

  lemma WorkLogged(s: State, p: Proc, c: Choice)
    requires ProcOk(s.runs, p) && Enabled(s, p, c) && ProcLogged(s, p) && p.work != Idle
    ensures WellTyped(s, p)
    ensures StepLogged(s, p, LocalStep(s, p, c).0, LocalStep(s, p, c).1)
  {
    OkIsWellTyped(s, p);
    if c.Advance? && p.work.Calling? { CallLogged(s, p, c.authorized); }
    if c.Advance? && p.work.Publishing? {
      PublishStepLogged(s, p.work.publication, c.authorized);
      PublishStepOk(s, p.work.publication, c.authorized);
    }
  }

  lemma IdleLogged(s: State, p: Proc, c: Choice)
    requires ProcOk(s.runs, p) && Enabled(s, p, c) && p.work == Idle
    ensures WellTyped(s, p)
    ensures StepLogged(s, p, LocalStep(s, p, c).0, LocalStep(s, p, c).1)
  {
    OkIsWellTyped(s, p);
    var (p', e) := LocalStep(s, p, c);
    if p'.work.Publishing? {
      Recipients.NormalizedShape(if c.Yield? then c.recipients else None, p'.work.publication.event.author);
    }
  }

  lemma OwnLogged(s: State, pid: nat, p': Proc, e: Effect, t: State)
    requires LogOk(s) && Stepped(s, pid, p', e, t) && StepLogged(s, s.procs[pid], p', e)
    ensures ProcLogged(t, p')
  {
    var idle := s.procs[pid].(work := Idle);
    assert ProcLogged(s, s.procs[pid]);
    LaterLogged(s, t, idle);
  }

  lemma StepKeepsLog(s: State, pid: nat, p': Proc, e: Effect, t: State)
    requires LogOk(s) && Stepped(s, pid, p', e, t) && StepLogged(s, s.procs[pid], p', e)
    ensures LogOk(t)
  {
    OwnLogged(s, pid, p', e, t);
    assert t.events == After(s, e).events && t.runs == RunsAfter(s.runs, e);
    forall i | 0 <= i < |t.procs| ensures ProcLogged(t, t.procs[i]) {
      if i < |s.procs| && i != pid { LaterLogged(s, t, s.procs[i]); }
    }
    forall k | 0 <= k < |t.wire| && t.wire[k].EventFrame? ensures t.wire[k].event in t.events {
      assert k < |s.wire| ==> t.wire[k] == s.wire[k];
    }
  }

  lemma ActKeepsLog(s: State, pid: nat, c: Choice)
    requires Inv(s) && LogOk(s) && CanApply(s, Act(pid, c))
    ensures LogOk(Apply(s, Act(pid, c)))
  {
    var p := s.procs[pid];
    ActFrame(s, pid, c);
    assert ProcLogged(s, p);
    if p.work == Idle { IdleLogged(s, p, c); } else { WorkLogged(s, p, c); }
    var (p', e) := LocalStep(s, p, c);
    StepKeepsLog(s, pid, p', e, Apply(s, Act(pid, c)));
  }

  lemma OtherKeepsLog(s: State, a: Action)
    requires LogOk(s) && CanApply(s, a) && !a.Act?
    ensures LogOk(Apply(s, a))
  {
    var t := Apply(s, a);
    if a.PublishExternally? { BeginLogged(s.events, a.event, s.clock); }
    forall i | 0 <= i < |t.procs| ensures ProcLogged(t, t.procs[i]) {
      if i < |s.procs| { LaterLogged(s, t, s.procs[i]); }
    }
  }

  lemma {:induction false} LogAlways(tr: seq<State>, acts: seq<Action>, n: nat)
    requires Behaviour(tr, acts) && n < |tr|
    ensures Inv(tr[n]) && LogOk(tr[n])
  {
    InvAlways(tr, acts, n);
    if n > 0 {
      LogAlways(tr, acts, n - 1);
      if acts[n - 1].Act? { ActKeepsLog(tr[n - 1], acts[n - 1].pid, acts[n - 1].choice); }
      else { OtherKeepsLog(tr[n - 1], acts[n - 1]); }
    }
  }

  // ----- the members snapshot -----

  ghost predicate AllMembers(s: State, e: Event) {
    e.recipients.Some? ==> forall x | x in e.recipients.value :: x in MembersOf(s, e.thread)
  }

  /** A publication past its membership check was checked against one snapshot of
      its own lifetime. */
  ghost predicate Checked(tr: seq<State>, n: nat, p: Publication)
    requires n < |tr|
  {
    && p.since <= n
    && (!p.pc.AtMembers? ==> p.event.recipients.None? || exists t | p.since <= t <= n :: AllMembers(tr[t], p.event))
  }

  function PublicationOf(w: Work): Option<Publication> {
    match w
    case Idle => None
    case Publishing(p) => Some(p)
    case Calling(parent, _) => parent
  }

  predicate AppendsNext(p: Proc, e: Event) {
    p.work.Publishing? && p.work.publication.pc.AtAppend? && p.work.publication.event == e
  }

  /** The step from `tr[b]` logged the event for the call of `publish_event` that
      coroutine `i` was in, and all recipients were members in one state that this
      same call met. */
  ghost predicate LoggedAt(tr: seq<State>, b: nat, i: nat, e: Event) {
    && b + 1 < |tr| && i < |tr[b].procs| && AppendsNext(tr[b].procs[i], e)
    && tr[b + 1].events == tr[b].events + [e]
    && (e.recipients.Some? ==>
          exists t | tr[b].procs[i].work.publication.since <= t <= b :: AllMembers(tr[t], e))
  }

  ghost predicate EventChecked(tr: seq<State>, n: nat, e: Event) {
    exists b, i | 0 <= b < n :: LoggedAt(tr, b, i, e)
  }

  ghost predicate SnapshotsOk(tr: seq<State>, n: nat)
    requires n < |tr|
  {
    && tr[n].clock == n
    && (forall i | 0 <= i < |tr[n].procs| && PublicationOf(tr[n].procs[i].work).Some? ::
          Checked(tr, n, PublicationOf(tr[n].procs[i].work).value))
    && (forall k | 0 <= k < |tr[n].events| :: EventChecked(tr, n, tr[n].events[k]))
  }

  /** After a step a coroutine's publication is one it begins now, the same one, or
      one that has just passed its membership check. */
  ghost predicate PublicationMoves(s: State, p: Proc, p': Proc, e: Effect) {
    var before, after := PublicationOf(p.work), PublicationOf(p'.work);
    && (after.Some? ==>
          || (after.value.since == s.clock && (after.value.pc.AtMembers? || after.value.event.recipients.None?))
          || (before.Some? && after.value.event == before.value.event && after.value.since == before.value.since
              && (before.value.pc.AtMembers? ==> after.value.pc.AtMembers? || AllMembers(s, after.value.event))))
    && (e.Append? ==> AppendsNext(p, e.event))
  }

  lemma PublicationAfterStep(s: State, p: Proc, c: Choice)
    requires ProcOk(s.runs, p) && Enabled(s, p, c)
    ensures WellTyped(s, p)
    ensures PublicationMoves(s, p, LocalStep(s, p, c).0, LocalStep(s, p, c).1)
  {
    OkIsWellTyped(s, p);
  }

  lemma CheckedLater(tr: seq<State>, n: nat, p: Publication)
    requires n + 1 < |tr| && Checked(tr, n, p)
    ensures Checked(tr, n + 1, p)
  {
  }

  lemma {:induction false} SnapshotsAlways(tr: seq<State>, acts: seq<Action>, n: nat)
    requires Behaviour(tr, acts) && n < |tr|
    ensures SnapshotsOk(tr, n)
  {
    if n > 0 {
      SnapshotsAlways(tr, acts, n - 1);
      if acts[n - 1].Act? { SnapshotActStep(tr, acts, n); } else { SnapshotEnvironmentStep(tr, acts, n); }
    }
  }

  lemma SnapshotActStep(tr: seq<State>, acts: seq<Action>, n: nat)
    requires Behaviour(tr, acts) && 0 < n < |tr| && SnapshotsOk(tr, n - 1) && acts[n - 1].Act?
    ensures SnapshotsOk(tr, n)
  {
    InvAlways(tr, acts, n - 1);
    var s, a := tr[n - 1], acts[n - 1];
    ActFrame(s, a.pid, a.choice);
    PublicationAfterStep(s, s.procs[a.pid], a.choice);
    var (p', e) := LocalStep(s, s.procs[a.pid], a.choice);
    SnapshotStep(tr, n, a.pid, p', e);
  }

  lemma SnapshotEnvironmentStep(tr: seq<State>, acts: seq<Action>, n: nat)
    requires Behaviour(tr, acts) && 0 < n < |tr| && SnapshotsOk(tr, n - 1) && !acts[n - 1].Act?
    ensures SnapshotsOk(tr, n)
  {
    var s, t := tr[n - 1], tr[n];
    forall i | 0 <= i < |t.procs| && PublicationOf(t.procs[i].work).Some?
      ensures Checked(tr, n, PublicationOf(t.procs[i].work).value)
    {
      if i < |s.procs| { CheckedLater(tr, n - 1, PublicationOf(s.procs[i].work).value); }
    }
    assert forall k | 0 <= k < |t.events| :: EventChecked(tr, n - 1, t.events[k]);
  }

  lemma SnapshotStep(tr: seq<State>, n: nat, pid: nat, p': Proc, e: Effect)
    requires 0 < n < |tr| && SnapshotsOk(tr, n - 1) && Stepped(tr[n - 1], pid, p', e, tr[n])
    requires PublicationMoves(tr[n - 1], tr[n - 1].procs[pid], p', e)
    ensures SnapshotsOk(tr, n)
  {
    var s, t := tr[n - 1], tr[n];
    forall i | 0 <= i < |t.procs| && PublicationOf(t.procs[i].work).Some?
      ensures Checked(tr, n, PublicationOf(t.procs[i].work).value)
    {
      if i == pid {
        var after := PublicationOf(p'.work).value;
        if after.since != s.clock || !(after.pc.AtMembers? || after.event.recipients.None?) {
          assert Checked(tr, n - 1, PublicationOf(s.procs[pid].work).value);
        }
      } else if i < |s.procs| {
        CheckedLater(tr, n - 1, PublicationOf(s.procs[i].work).value);
      }
    }
    forall k | 0 <= k < |t.events| ensures EventChecked(tr, n, t.events[k]) {
      if k < |s.events| {
        assert EventChecked(tr, n - 1, s.events[k]);
      } else {
        assert Checked(tr, n - 1, PublicationOf(s.procs[pid].work).value);
        assert LoggedAt(tr, n - 1, pid, t.events[k]);
      }
    }
  }

  // ----- what started a run -----

  /** The step from `tr[t]` started driver `i`, from the recipient loop of a
      publication of `e`. */
  ghost predicate StartedFor(tr: seq<State>, acts: seq<Action>, t: nat, i: nat, e: Event) {
    && t + 1 < |tr| && t < |acts| && acts[t].Act? && acts[t].pid < |tr[t].procs|
    && i == |tr[t].procs| && i < |tr[t + 1].procs| && tr[t + 1].procs[i].owner.Driver?
    && var w := tr[t].procs[acts[t].pid].work;
    && w.Calling? && w.parent.Some? && w.parent.value.event == e
    && w.call.pc == AtSpawn(tr[t + 1].procs[i].owner.run)
  }

  /** The message that started a run asks for it and was logged by then. */
  ghost predicate AskedAt(tr: seq<State>, t: nat, r: RunId, e: Event)
    requires t < |tr|
  {
    e in tr[t].events && r < |tr[t].runs| && Asks(e, tr[t].runs[r])
  }

  lemma StarterAsks(tr: seq<State>, acts: seq<Action>, t: nat, i: nat, e: Event)
    requires Behaviour(tr, acts) && StartedFor(tr, acts, t, i, e)
    ensures AskedAt(tr, t, tr[t + 1].procs[i].owner.run, e)
  {
    LogAlways(tr, acts, t);
    var p := tr[t].procs[acts[t].pid];
    assert ProcLogged(tr[t], p) && ProcOk(tr[t].runs, p);
  }

  lemma DriverStarts(tr: seq<State>, acts: seq<Action>, t: nat, i: nat)
    requires Behaviour(tr, acts) && t + 1 < |tr| && i < |tr[t + 1].procs|
    requires tr[t + 1].procs[i].owner.Driver? && tr[t + 1].procs[i].owner.depth > 0
    ensures
      if i < |tr[t].procs| then
        && tr[t].procs[i].owner.Driver?
        && tr[t].procs[i].owner.run == tr[t + 1].procs[i].owner.run
        && tr[t].procs[i].owner.depth == tr[t + 1].procs[i].owner.depth
      else exists e :: StartedFor(tr, acts, t, i, e)
  {
    LogAlways(tr, acts, t);
    var s, a := tr[t], acts[t];
    if a.Act? {
      ActFrame(s, a.pid, a.choice);
      assert ProcLogged(s, s.procs[a.pid]);
      if i >= |s.procs| { assert StartedFor(tr, acts, t, i, s.procs[a.pid].work.parent.value.event); }
    }
  }

  lemma {:induction false} StarterOf(tr: seq<State>, acts: seq<Action>, n: nat, i: nat) returns (t: nat, e: Event)
    requires Behaviour(tr, acts) && n < |tr| && i < |tr[n].procs|
    requires tr[n].procs[i].owner.Driver? && tr[n].procs[i].owner.depth > 0
    ensures t < n && StartedFor(tr, acts, t, i, e) && tr[t + 1].procs[i].owner.run == tr[n].procs[i].owner.run
  {
    DriverStarts(tr, acts, n - 1, i);
    if i < |tr[n - 1].procs| {
      t, e := StarterOf(tr, acts, n - 1, i);
    } else {
      t := n - 1;
      e :| StartedFor(tr, acts, n - 1, i, e);
    }
  }

  lemma StartsOnce(tr: seq<State>, acts: seq<Action>, t: nat, n: nat, i: nat)
    requires Behaviour(tr, acts) && t <= n < |tr| && i < |tr[t].procs| && tr[t].procs[i].owner.Driver?
    ensures i < |tr[n].procs| && tr[n].procs[i].owner.Driver? && tr[n].procs[i].owner.run == tr[t].procs[i].owner.run
  {
    var run := tr[t].procs[i].owner.run;
    var same := (k: nat) => k < |tr| && i < |tr[k].procs| && DriverOf(tr[k].procs[i], run);
    forall k: nat | t <= k < n && same(k) ensures same(k + 1) { DriverStays(tr, acts, k, i, run); }
    Induction.Kept(same, t, n);
  }

  lemma DriverStays(tr: seq<State>, acts: seq<Action>, k: nat, i: nat, r: RunId)
    requires Behaviour(tr, acts) && k + 1 < |tr| && i < |tr[k].procs| && DriverOf(tr[k].procs[i], r)
    ensures i < |tr[k + 1].procs| && DriverOf(tr[k + 1].procs[i], r)
  {
    InvAlways(tr, acts, k);
    if acts[k].Act? { ActFrame(tr[k], acts[k].pid, acts[k].choice); }
  }

  lemma LogGrows(tr: seq<State>, acts: seq<Action>, t: nat, n: nat, e: Event)
    requires Behaviour(tr, acts) && t <= n < |tr| && e in tr[t].events
    ensures e in tr[n].events
  {
    var logged := (k: nat) => k < |tr| && e in tr[k].events;
    forall k: nat | t <= k < n && logged(k) ensures logged(k + 1) { LogStep(tr, acts, k, e); }
    Induction.Kept(logged, t, n);
  }

  lemma LogStep(tr: seq<State>, acts: seq<Action>, k: nat, e: Event)
    requires Behaviour(tr, acts) && k + 1 < |tr| && e in tr[k].events
    ensures e in tr[k + 1].events
  {
    InvAlways(tr, acts, k);
    var s, a := tr[k], acts[k];
    if a.Act? {
      LocalStepOk(s, s.procs[a.pid], a.choice);
      var (p', effect) := LocalStep(s, s.procs[a.pid], a.choice);
      assert s.events <= Perform(s, a.pid, p', effect).events;
    }
  }

  // ----- memberships -----

  lemma MemberStep(tr: seq<State>, acts: seq<Action>, k: nat, thread: Id, m: Id)
    requires Behaviour(tr, acts) && k + 1 < |tr|
    requires m in MembersOf(tr[k], thread) && m in MembersOf(tr[k + 1], thread)
    ensures MembersOf(tr[k + 1], thread)[m] == MembersOf(tr[k], thread)[m]
  {
    InvAlways(tr, acts, k);
    var s, a := tr[k], acts[k];
    if a.Act? {
      ActFrame(s, a.pid, a.choice);
      var (p', e) := LocalStep(s, s.procs[a.pid], a.choice);
      SteppedMembers(s, a.pid, p', e, tr[k + 1]);
    }
  }

  lemma SteppedMembers(s: State, pid: nat, p': Proc, e: Effect, t: State)
    requires Stepped(s, pid, p', e, t)
    ensures t.members == s.members
  {
  }

  /** Adding a member again changes nothing: as long as an identity stays a member of a
      thread, it stays the assistant, or the user, that it was added as. */
  lemma MemberKeepsItsRow(tr: seq<State>, acts: seq<Action>, t: nat, n: nat, thread: Id, m: Id)
    requires Behaviour(tr, acts) && t <= n < |tr|
    requires forall k | t <= k <= n :: m in MembersOf(tr[k], thread)
    ensures MembersOf(tr[n], thread)[m] == MembersOf(tr[t], thread)[m]
  {
    var same := (k: nat) =>
      k < |tr| && m in MembersOf(tr[k], thread) && m in MembersOf(tr[t], thread)
      && MembersOf(tr[k], thread)[m] == MembersOf(tr[t], thread)[m];
    forall k: nat | t <= k < n && same(k) ensures same(k + 1) { MemberStep(tr, acts, k, thread, m); }
    Induction.Kept(same, t, n);
  }

  // ----- the theorems -----

  /** Every logged event has a unique id and recipients that are absent, or a
      non-empty list without repetition, the author or empty ids. The call of
      `publish_event` that logged it had met one state in which all of them were
      members, whatever happened to the membership since. Nothing is broadcast
      before it is logged. */
  lemma LogInvariant(tr: seq<State>, acts: seq<Action>, n: nat, k: nat)
    requires Behaviour(tr, acts) && n < |tr| && k < |tr[n].events|
    ensures var e := tr[n].events[k];
      && Recipients.WellFormed(e.recipients, e.author)
      && (exists b, i | 0 <= b < n :: LoggedAt(tr, b, i, e))
      && (forall j | 0 <= j < |tr[n].events| && j != k :: tr[n].events[j].id != e.id)
    ensures forall i | 0 <= i < |tr[n].wire| && tr[n].wire[i].EventFrame? :: tr[n].wire[i].event in tr[n].events
  {
    LogAlways(tr, acts, n);
    SnapshotsAlways(tr, acts, n);
    assert EventChecked(tr, n, tr[n].events[k]);
  }

  /** A run at depth above 0 was started by the recipient loop of one publication,
      and whichever message that was, it is in the log, is directed at the run's
      assistant and comes from the identity that triggered the run. */
  lemma AutoInvokedWasAsked(tr: seq<State>, acts: seq<Action>, n: nat, i: nat)
    requires Behaviour(tr, acts) && n < |tr| && i < |tr[n].procs|
    requires tr[n].procs[i].owner.Driver? && tr[n].procs[i].owner.depth > 0
    ensures tr[n].procs[i].owner.run < |tr[n].runs|
    ensures exists t, e | 0 <= t < n :: StartedFor(tr, acts, t, i, e)
    ensures var run := tr[n].runs[tr[n].procs[i].owner.run];
      forall t, e | 0 <= t < n && StartedFor(tr, acts, t, i, e) ::
        && e in tr[n].events && e.kind.Message? && e.thread == run.thread && e.author == run.triggeredBy
        && e.recipients.Some? && run.assistant in e.recipients.value
  {
    var t', e' := StarterOf(tr, acts, n, i);
    LogAlways(tr, acts, n);
    assert ProcOk(tr[n].runs, tr[n].procs[i]);
    forall t, e | 0 <= t < n && StartedFor(tr, acts, t, i, e)
      ensures AskedAt(tr, n, tr[n].procs[i].owner.run, e)
    {
      StarterAsks(tr, acts, t, i, e);
      StartsOnce(tr, acts, t + 1, n, i);
      LogGrows(tr, acts, t, n, e);
      Exclusivity.RowsEvolve(tr, acts, t, n);
    }
  }
}
