/** The inductive invariant of the run protocol. */
module Invariant {
  import opened Types
  import opened RunTable
  import opened Protocol

  // ----- one coroutine -----

  ghost predicate CallOk(runs: seq<Run>, c: Call) {
    match c.pc
    case AtKeyLookup => Truthy(c.key)
    case AtRecoverKey => Truthy(c.key)
    case AtSpawn(r) => r < |runs| && runs[r] == NewRow(c)
    case Returned(Created(r)) => r < |runs|
    case Returned(Existing(r)) => r < |runs|
    case _ => true
  }

  /** A lifecycle event on its way: it names its run and has no recipients. */
  ghost predicate LifecycleWork(w: Work, r: RunId, kind: Kind) {
    && w.Publishing?
    && w.publication.event.run == Some(r)
    && w.publication.event.kind == kind
    && w.publication.event.recipients.None?
    && !w.publication.event.streamed
    && (w.publication.pc.AtAppend? || w.publication.pc.AtBroadcast?)
  }

  ghost predicate HandlerEvent(e: Event, r: RunId) {
    e.run == Some(r) && IsHandlerKind(e.kind)
  }

  ghost predicate HandlerWork(w: Work, r: RunId) {
    match w
    case Idle => true
    case Publishing(p) => HandlerEvent(p.event, r)
    case Calling(parent, call) => parent.Some? ==> HandlerEvent(parent.value.event, r)
  }

  ghost predicate ExternalWork(w: Work) {
    match w
    case Idle => true
    case Publishing(p) => p.event.run.None? && !p.event.streamed
    case Calling(parent, call) => parent.Some? ==> parent.value.event.run.None? && !parent.value.event.streamed
  }

  /** How the phase of a driver ties its work to its row. */
  ghost predicate DriverOk(row: Run, o: Owner, w: Work)
    requires o.Driver?
  {
    match o.phase
    case Scheduled => w.Idle? && row.status.Pending?
    case Lost => w.Idle? && row.status.Pending?
    case Starting => w.Idle? && row.status.Pending?
    case Announcing => LifecycleWork(w, o.run, RunStarted) && row.status.Running?
    case Consuming(_) => HandlerWork(w, o.run) && row.status.Running?
    case Unwinding(open, _) => w.Idle? && open != map[] && row.status.Running?
    case Writing(guarded, status, error) =>
      && w.Idle?
      && !IsActive(status)
      && (error.Some? <==> status.Failed?)
      && (guarded <==> status.Completed?)
    case Ending(guarded, status) =>
      && LifecycleWork(w, o.run, TerminalKind(status))
      && row.status == status && !IsActive(status)
      && (guarded <==> status.Completed?)
    case Flushing => w.Idle?
    case Gone => w.Idle?
    case Leaked => w.Idle?
  }

  ghost predicate PublicationOk(p: Publication) {
    p.pc.AtMembers? ==> p.event.recipients.Some?
  }

  ghost predicate ProcOk(runs: seq<Run>, p: Proc) {
    && (p.work.Publishing? ==> PublicationOk(p.work.publication))
    && (p.work.Calling? ==> CallOk(runs, p.work.call) && (p.work.parent.Some? ==> PublicationOk(p.work.parent.value)))
    && match p.owner
       case External => ExternalWork(p.work)
       case Driver(r, _, _, _, _) =>
         && r < |runs|
         && DriverOk(runs[r], p.owner, p.work)
         && (p.work.Calling? ==> p.work.call.pc != AtSpawn(r))
  }

  /** The coroutine is, or is about to start, the driver of row `r`. */
  predicate Claims(p: Proc, r: RunId) {
    (p.owner.Driver? && p.owner.run == r) || (p.work.Calling? && p.work.call.pc == AtSpawn(r))
  }

  predicate DriverOf(p: Proc, r: RunId) {
    p.owner.Driver? && p.owner.run == r
  }

  predicate Driving(p: Proc, r: RunId) {
    p.owner.Driver? && p.owner.run == r && !p.owner.phase.Gone?
  }

  // ----- the whole state -----

  ghost predicate RowsCoherent(s: State) {
    forall r | 0 <= r < |s.runs| :: Coherent(s.runs[r])
  }

  ghost predicate ProcsOk(s: State) {
    forall i | 0 <= i < |s.procs| :: ProcOk(s.runs, s.procs[i])
  }

  /** No row has two claimants. */
  ghost predicate Exclusive(s: State) {
    forall i, j, r: RunId | 0 <= i < j < |s.procs| :: !(Claims(s.procs[i], r) && Claims(s.procs[j], r))
  }

  /** The two dicts have the same keys: the runs whose driver has not finished.
      The recorded depth of such a run is the driver's. */
  ghost predicate DictsAgree(s: State) {
    && s.tasks == s.depths.Keys
    && (forall r | r in s.tasks :: exists i | 0 <= i < |s.procs| :: Driving(s.procs[i], r))
    && (forall i, r | 0 <= i < |s.procs| && Driving(s.procs[i], r) ::
          r in s.depths && s.depths[r] == s.procs[i].owner.depth)
  }

  ghost predicate Inv(s: State) {
    && IndexesHold(s.runs)
    && RowsCoherent(s)
    && ProcsOk(s)
    && Exclusive(s)
    && DictsAgree(s)
  }

  lemma OkIsWellTyped(s: State, p: Proc)
    requires ProcOk(s.runs, p)
    ensures WellTyped(s, p)
  {
  }

  // ----- steps -----

  /** The rows after an effect. */
  function RunsAfter(runs: seq<Run>, e: Effect): seq<Run>
    requires e.Write? ==> e.run < |runs|
  {
    match e
    case Insert(row) => runs + [row]
    case Write(r, status, error, now) => runs[r := WithStatus(runs[r], status, error, now)]
    case _ => runs
  }

  /** What a coroutine's own step may do to the table and the dicts. */
  ghost predicate EffectOk(s: State, p: Proc, p': Proc, e: Effect) {
    && (p'.owner.Driver? <==> p.owner.Driver?)
    && (p.owner.Driver? ==> p'.owner.run == p.owner.run && p'.owner.depth == p.owner.depth)
    && p'.root == p.root
    && (forall r :: Claims(p', r) ==> Claims(p, r) || (e.Insert? && r == |s.runs|))
    && (p.owner.Driver? && p'.owner.phase.Gone? ==> e == Release(p.owner.run))
    && (p.owner.Driver? ==> !p.owner.phase.Gone?)
    && match e
       case Insert(row) => Admits(s.runs, row) && row.status.Pending? && Coherent(row)
       case Spawn(r, depth) =>
         && r < |s.runs| && s.runs[r].status.Pending?
         && p.work.Calling? && p.work.call.pc == AtSpawn(r) && depth == p.work.call.depth && !Claims(p', r)
       case Write(r, status, error, _) =>
         && r < |s.runs| && p.owner.Driver? && p.owner.run == r
         && (IsActive(status) ==> s.runs[r].status.Pending? && status.Running?)
         && (error.Some? <==> status.Failed?)
       case Release(r) => p.owner.Driver? && p.owner.run == r && p'.owner.phase.Gone?
       case _ => true
  }

  /** A step inside `execute` moves only the call; the claim it may drop or take
      is the one on the row it inserts. */
  lemma CallStepOk(s: State, c: Call)
    requires CallOk(s.runs, c) && !c.pc.Returned?
    ensures var (c', e) := CallStep(s.runs, c);
            && CallOk(RunsAfter(s.runs, e), c')
            && c' == c.(pc := c'.pc)
            && (c'.pc.AtSpawn? ==> e == Insert(NewRow(c)) && c'.pc.run == |s.runs|)
            && match e
               case Quiet => true
               case Insert(row) => Admits(s.runs, row) && row == NewRow(c)
               case Spawn(r, depth) => c.pc == AtSpawn(r) && depth == c.depth
               case _ => false
  {
  }

  lemma PublishStepOk(s: State, p: Publication, authorized: bool)
    requires PublicationOk(p)
    ensures var (next, e) := PublishStep(s, p, authorized);
            && (e.Quiet? || e == Append(p.event) || e == Emit(EventFrame(p.event)))
            && (next.Go? ==>
                  match next.work
                  case Idle => false
                  case Publishing(q) => q.event == p.event && PublicationOk(q) && (p.pc.AtAppend? ==> q.pc.AtBroadcast?)
                  case Calling(parent, call) =>
                    && parent.Some? && parent.value.event == p.event && PublicationOk(parent.value)
                    && CallOk(s.runs, call) && !call.pc.AtSpawn? && p.pc.AtInvoke?)
            && (next.Rejected? ==> (p.pc.AtMembers? || p.pc.AtAppend?) && e.Quiet?)
  {
  }

  lemma CallingStepOk(s: State, p: Proc, authorized: bool)
    requires ProcOk(s.runs, p) && p.work.Calling?
    ensures WellTyped(s, p)
    ensures var (p', e) := WorkStep(s, p, authorized);
            EffectOk(s, p, p', e) && ProcOk(RunsAfter(s.runs, e), p')
  {
    OkIsWellTyped(s, p);
    if !p.work.call.pc.Returned? {
      CallStepOk(s, p.work.call);
    }
  }

  lemma PublishingStepOk(s: State, p: Proc, authorized: bool)
    requires ProcOk(s.runs, p) && p.work.Publishing?
    ensures WellTyped(s, p)
    ensures var (p', e) := WorkStep(s, p, authorized);
            EffectOk(s, p, p', e) && ProcOk(RunsAfter(s.runs, e), p')
  {
    OkIsWellTyped(s, p);
    PublishStepOk(s, p.work.publication, authorized);
  }

  lemma DriverStepOk(s: State, p: Proc, stamp: Stamp)
    requires ProcOk(s.runs, p) && DriverCanStep(p.owner) && p.work.Idle?
    ensures WellTyped(s, p)
    ensures var (p', e) := DriverStep(s, p, stamp);
            EffectOk(s, p, p', e) && ProcOk(RunsAfter(s.runs, e), p')
  {
    OkIsWellTyped(s, p);
  }

  lemma LocalStepOk(s: State, p: Proc, c: Choice)
    requires ProcOk(s.runs, p) && Enabled(s, p, c)
    ensures WellTyped(s, p)
    ensures var (p', e) := LocalStep(s, p, c);
            EffectOk(s, p, p', e) && ProcOk(RunsAfter(s.runs, e), p')
  {
    OkIsWellTyped(s, p);
    match c
    case Advance(stamp, authorized) =>
      if p.work.Calling? { CallingStepOk(s, p, authorized); }
      else if p.work.Publishing? { PublishingStepOk(s, p, authorized); }
      else { DriverStepOk(s, p, stamp); }
    case _ =>
  }

  /** Another coroutine's effect leaves a coroutine's own facts alone. */
  lemma OthersKeepOk(s: State, p: Proc, e: Effect)
    requires ProcOk(s.runs, p)
    requires e.Write? ==> e.run < |s.runs| && !Claims(p, e.run)
    ensures ProcOk(RunsAfter(s.runs, e), p)
  {
  }

  lemma RunsKept(s: State, e: Effect)
    requires IndexesHold(s.runs) && RowsCoherent(s)
    requires e.Insert? ==> Admits(s.runs, e.row) && Coherent(e.row)
    requires e.Write? ==>
      && e.run < |s.runs|
      && (IsActive(e.status) ==> s.runs[e.run].status.Pending?)
      && (e.error.Some? <==> e.status.Failed?)
    ensures IndexesHold(RunsAfter(s.runs, e))
    ensures forall r | 0 <= r < |RunsAfter(s.runs, e)| :: Coherent(RunsAfter(s.runs, e)[r])
  {
    match e
    case Insert(row) => InsertKeepsIndexes(s.runs, row);
    case Write(r, status, error, now) => WriteKeepsIndexes(s.runs, r, WithStatus(s.runs[r], status, error, now));
    case _ =>
  }

  lemma ClaimsStayExclusive(s: State, pid: nat, p': Proc, e: Effect)
    requires ProcsOk(s) && Exclusive(s) && pid < |s.procs|
    requires EffectOk(s, s.procs[pid], p', e)
    ensures Exclusive(Perform(s, pid, p', e))
  {
    var p, t := s.procs[pid], Perform(s, pid, p', e);
    forall i, r: RunId | 0 <= i < |s.procs| && i != pid && Claims(s.procs[i], r) ensures !Claims(p', r) {
      assert ProcOk(s.runs, s.procs[i]);
      assert r < |s.runs|;
      assert !Claims(p, r);
    }
    if e.Spawn? {
      forall i | 0 <= i < |s.procs| ensures !Claims(t.procs[i], e.run) {
        assert Claims(p, e.run);
      }
    }
  }

  lemma DriversStayListed(s: State, pid: nat, p': Proc, e: Effect)
    requires DictsAgree(s) && pid < |s.procs|
    requires EffectOk(s, s.procs[pid], p', e)
    ensures var t := Perform(s, pid, p', e);
            forall r | r in t.tasks :: exists i | 0 <= i < |t.procs| :: Driving(t.procs[i], r)
  {
    var p, t := s.procs[pid], Perform(s, pid, p', e);
    forall r | r in t.tasks ensures exists i | 0 <= i < |t.procs| :: Driving(t.procs[i], r) {
      if r in s.tasks {
        var i :| 0 <= i < |s.procs| && Driving(s.procs[i], r);
        assert Driving(t.procs[i], r);
      } else {
        assert Driving(t.procs[|s.procs|], r);
      }
    }
  }

  lemma DictsStayEqual(s: State, pid: nat, p': Proc, e: Effect)
    requires Exclusive(s) && DictsAgree(s) && pid < |s.procs|
    requires EffectOk(s, s.procs[pid], p', e)
    ensures DictsAgree(Perform(s, pid, p', e))
  {
    var p, t := s.procs[pid], Perform(s, pid, p', e);
    DriversStayListed(s, pid, p', e);
    assert e.Spawn? ==> Claims(p, e.run);
    assert e.Release? ==> Claims(p, e.run);
    forall i, r | 0 <= i < |t.procs| && Driving(t.procs[i], r)
      ensures r in t.depths && t.depths[r] == t.procs[i].owner.depth
    {
      if i < |s.procs| {
        assert Driving(s.procs[i], r);
        assert Claims(s.procs[i], r);
      }
    }
  }

  ghost predicate Undriven(s: State, r: RunId) {
    forall i | 0 <= i < |s.procs| :: !DriverOf(s.procs[i], r)
  }

  /** Coroutine `pid` stepped to `p'` with effect `e`. The others stay as they are,
      none of them drives the same run, and a coroutine it starts drives a run
      that had no driver. */
  ghost predicate Stepped(s: State, pid: nat, p': Proc, e: Effect, t: State) {
    && pid < |s.procs|
    && var p := s.procs[pid];
    && ProcOk(s.runs, p) && EffectOk(s, p, p', e) && ProcOk(RunsAfter(s.runs, e), p')
    && t == Perform(s, pid, p', e)
    && |t.procs| == |s.procs| + (if e.Spawn? then 1 else 0)
    && t.procs[pid] == p'
    && (forall i | 0 <= i < |s.procs| && i != pid ::
          && t.procs[i] == s.procs[i]
          && (p.owner.Driver? ==> !DriverOf(s.procs[i], p.owner.run)))
    && (e.Spawn? ==>
          && t.procs[|s.procs|] == Proc(Driver(e.run, e.depth, Scheduled, 0, Unspoilt), p.root, Idle)
          && Undriven(s, e.run))
    && (forall r: RunId :: Undriven(t, r) ==> Undriven(s, r))
  }

  lemma ActFrame(s: State, pid: nat, c: Choice)
    requires Inv(s) && CanApply(s, Act(pid, c))
    ensures Stepped(s, pid, LocalStep(s, s.procs[pid], c).0, LocalStep(s, s.procs[pid], c).1, Apply(s, Act(pid, c)))
  {
    LocalStepOk(s, s.procs[pid], c);
    var (p', e) := LocalStep(s, s.procs[pid], c);
    PerformFrame(s, pid, p', e);
  }

  lemma PerformFrame(s: State, pid: nat, p': Proc, e: Effect)
    requires Inv(s) && pid < |s.procs|
    requires EffectOk(s, s.procs[pid], p', e) && ProcOk(RunsAfter(s.runs, e), p')
    ensures Stepped(s, pid, p', e, Perform(s, pid, p', e))
  {
    var p, t := s.procs[pid], Perform(s, pid, p', e);
    forall i | 0 <= i < |s.procs| && i != pid ensures p.owner.Driver? ==> !DriverOf(s.procs[i], p.owner.run) {
      assert p.owner.Driver? ==> Claims(p, p.owner.run) && !Claims(s.procs[i], p.owner.run);
    }
    if e.Spawn? {
      assert Claims(p, e.run) && !Claims(p', e.run);
      forall i | 0 <= i < |s.procs| ensures !DriverOf(s.procs[i], e.run) {
        assert i != pid ==> !Claims(s.procs[i], e.run);
      }
    }
    forall r: RunId | Undriven(t, r) ensures Undriven(s, r) {
      forall i | 0 <= i < |s.procs| ensures !DriverOf(s.procs[i], r) {
        assert !DriverOf(t.procs[i], r);
      }
    }
  }

  lemma ActKeepsInv(s: State, pid: nat, c: Choice)
    requires Inv(s) && CanApply(s, Act(pid, c))
    ensures Inv(Apply(s, Act(pid, c)))
  {
    LocalStepOk(s, s.procs[pid], c);
    var (p', e) := LocalStep(s, s.procs[pid], c);
    PerformKeepsInv(s, pid, p', e);
  }

  lemma PerformKeepsInv(s: State, pid: nat, p': Proc, e: Effect)
    requires Inv(s) && pid < |s.procs|
    requires EffectOk(s, s.procs[pid], p', e) && ProcOk(RunsAfter(s.runs, e), p')
    ensures Inv(Perform(s, pid, p', e))
  {
    var p, t := s.procs[pid], Perform(s, pid, p', e);
    RunsKept(s, e);
    assert t.runs == RunsAfter(s.runs, e);
    forall i | 0 <= i < |t.procs| ensures ProcOk(t.runs, t.procs[i]) {
      if i < |s.procs| && i != pid {
        assert e.Write? ==> Claims(p, e.run);
        OthersKeepOk(s, s.procs[i], e);
      }
    }
    ClaimsStayExclusive(s, pid, p', e);
    DictsStayEqual(s, pid, p', e);
  }

  lemma StepKeepsInv(s: State, a: Action)
    requires Inv(s) && CanApply(s, a)
    ensures Inv(Apply(s, a))
  {
    match a
    case Act(pid, c) => ActKeepsInv(s, pid, c);
    case PublishExternally(_) => AdmitKeepsInv(s, a);
    case InvokeExternally(_, _, _, _) => AdmitKeepsInv(s, a);
    case _ => OutsideKeepsInv(s, a);
  }

  lemma OutsideKeepsInv(s: State, a: Action)
    requires Inv(s) && CanApply(s, a) && (a.AddMember? || a.RemoveMember? || a.Register?)
    ensures Inv(Apply(s, a))
  {
    var t := Apply(s, a);
    assert forall i, r | 0 <= i < |t.procs| && Driving(t.procs[i], r) :: Driving(s.procs[i], r);
    assert forall i, r | 0 <= i < |t.procs| && Driving(s.procs[i], r) :: Driving(t.procs[i], r);
  }

  lemma AdmitKeepsInv(s: State, a: Action)
    requires Inv(s) && CanApply(s, a) && (a.PublishExternally? || a.InvokeExternally?)
    ensures Inv(Apply(s, a))
  {
    var t := Apply(s, a);
    var p := t.procs[|s.procs|];
    assert ProcOk(s.runs, p) && p.owner.External? && forall r :: !Claims(p, r);
    NewcomerKeepsInv(s, p, t);
  }

  /** One more external coroutine that claims no row. */
  lemma NewcomerKeepsInv(s: State, p: Proc, t: State)
    requires Inv(s) && ProcOk(s.runs, p) && p.owner.External? && forall r :: !Claims(p, r)
    requires t.runs == s.runs && t.tasks == s.tasks && t.depths == s.depths && t.procs == s.procs + [p]
    ensures Inv(t)
  {
    forall r | r in t.tasks ensures exists i | 0 <= i < |t.procs| :: Driving(t.procs[i], r) {
      var i :| 0 <= i < |s.procs| && Driving(s.procs[i], r);
      assert Driving(t.procs[i], r);
    }
  }

  /** The invariant holds in every state of every execution. */
  lemma {:induction false} InvAlways(tr: seq<State>, acts: seq<Action>, i: nat)
    requires Behaviour(tr, acts) && i < |tr|
    ensures Inv(tr[i])
  {
    if i > 0 {
      InvAlways(tr, acts, i - 1);
      StepKeepsInv(tr[i - 1], acts[i - 1]);
    }
  }
}
