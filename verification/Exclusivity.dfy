/** Safety of the `runs` table over whole executions. */
module Exclusivity {
  import opened Types
  import opened RunTable
  import opened Protocol
  import opened Invariant
  import Induction

  /** In every reachable state: at most one active run per thread and assistant,
      at most one run per thread and key, at most one driver per row, and one set
      of keys in both dicts. */
  lemma ExclusiveAlways(tr: seq<State>, acts: seq<Action>, n: nat)
    requires Behaviour(tr, acts) && n < |tr|
    ensures var s := tr[n];
      && (forall i, j | 0 <= i < |s.runs| && 0 <= j < |s.runs| && i != j
           && (s.runs[i].status.Pending? || s.runs[i].status.Running?)
           && (s.runs[j].status.Pending? || s.runs[j].status.Running?) ::
            s.runs[i].thread != s.runs[j].thread || s.runs[i].assistant != s.runs[j].assistant)
      && (forall i, j | 0 <= i < |s.runs| && 0 <= j < |s.runs| && i != j && s.runs[i].key.Some? ::
            s.runs[i].thread != s.runs[j].thread || s.runs[i].key != s.runs[j].key)
      && (forall i, j | 0 <= i < j < |s.procs| && s.procs[i].owner.Driver? && s.procs[j].owner.Driver? ::
            s.procs[i].owner.run != s.procs[j].owner.run)
      && s.tasks == s.depths.Keys
  {
    InvAlways(tr, acts, n);
    var s := tr[n];
    assert forall i, j | 0 <= i < |s.runs| && 0 <= j < |s.runs| && i != j :: !Clash(s.runs[i], s.runs[j]);
    forall i, j | 0 <= i < j < |s.procs| && s.procs[i].owner.Driver? && s.procs[j].owner.Driver?
      ensures s.procs[i].owner.run != s.procs[j].owner.run
    {
      assert !(Claims(s.procs[i], s.procs[i].owner.run) && Claims(s.procs[j], s.procs[i].owner.run));
    }
  }

  // ----- rows over time -----

  /** Rows are never removed, keep their identity, and only move up in rank. */
  predicate Evolves(before: seq<Run>, after: seq<Run>) {
    && |before| <= |after|
    && forall r | 0 <= r < |before| ::
         && after[r].thread == before[r].thread
         && after[r].assistant == before[r].assistant
         && after[r].triggeredBy == before[r].triggeredBy
         && after[r].key == before[r].key
         && Rank(before[r].status) <= Rank(after[r].status)
  }

  lemma StepEvolves(tr: seq<State>, acts: seq<Action>, n: nat)
    requires Behaviour(tr, acts) && n + 1 < |tr|
    ensures Evolves(tr[n].runs, tr[n + 1].runs)
  {
    InvAlways(tr, acts, n);
    var s, a := tr[n], acts[n];
    if a.Act? {
      LocalStepOk(s, s.procs[a.pid], a.choice);
      var (p', e) := LocalStep(s, s.procs[a.pid], a.choice);
      assert Perform(s, a.pid, p', e).runs == RunsAfter(s.runs, e);
    }
  }

  lemma {:induction false} EvolvesTransitive(tables: seq<seq<Run>>, i: nat, j: nat)
    requires i <= j < |tables|
    requires forall k | 0 <= k < |tables| - 1 :: Evolves(tables[k], tables[k + 1])
    ensures Evolves(tables[i], tables[j])
    decreases j
  {
    if i < j {
      EvolvesTransitive(tables, i, j - 1);
      assert Evolves(tables[j - 1], tables[j - 1 + 1]);
    }
  }

  lemma CoherentAlways(tr: seq<State>, acts: seq<Action>, n: nat)
    requires Behaviour(tr, acts) && n < |tr|
    ensures RowsCoherent(tr[n])
  {
    InvAlways(tr, acts, n);
  }

  /** Status rank never decreases, so no status update can violate an index. Every
      row is coherent: `completed_at` iff terminal, `error` iff failed. */
  lemma RowsEvolve(tr: seq<State>, acts: seq<Action>, i: nat, j: nat)
    requires Behaviour(tr, acts) && i <= j < |tr|
    ensures Evolves(tr[i].runs, tr[j].runs)
    ensures RowsCoherent(tr[j])
    ensures |tr[i].runs| <= |tr[j].runs| && forall r | 0 <= r < |tr[i].runs| ::
      var before, after := tr[i].runs[r], tr[j].runs[r];
      && after.thread == before.thread && after.assistant == before.assistant
      && after.triggeredBy == before.triggeredBy && after.key == before.key
      && (before.status.Running? ==> !after.status.Pending?)
      && (before.status.Completed? || before.status.Failed? || before.status.Cancelled? ==>
            after.status.Completed? || after.status.Failed? || after.status.Cancelled?)
    ensures forall r | 0 <= r < |tr[j].runs| ::
      var row := tr[j].runs[r];
      && (row.completedAt.None? <==> row.status.Pending? || row.status.Running?)
      && (row.error.Some? <==> row.status.Failed?)
  {
    CoherentAlways(tr, acts, j);
    var tables := seq(|tr|, k requires 0 <= k < |tr| => tr[k].runs);
    forall k | 0 <= k < |tr| - 1 ensures Evolves(tables[k], tables[k + 1]) {
      StepEvolves(tr, acts, k);
    }
    EvolvesTransitive(tables, i, j);
    assert Evolves(tr[i].runs, tr[j].runs);
    forall r | 0 <= r < |tr[j].runs| ensures Coherent(tr[j].runs[r]) {}
  }

  // ----- stuck runs -----

  /** The driver of `r` will never write the row again: it was cancelled before its
      first step, or it is past its last status write. */
  predicate Retired(p: Proc, r: RunId) {
    && DriverOf(p, r)
    && (p.owner.phase.Lost? || p.owner.phase.Flushing? || p.owner.phase.Gone? || p.owner.phase.Leaked?)
  }

  /** The row is active and nobody will ever finish it. */
  ghost predicate Stuck(s: State, r: RunId) {
    && r < |s.runs| && IsActive(s.runs[r].status)
    && forall i | 0 <= i < |s.procs| && Claims(s.procs[i], r) :: Retired(s.procs[i], r)
  }

  /** The three places where an interruption finds an active row without protection:
      between the insert and the start of the driver, before the driver's first
      step, and at the status write of a handler clause. */
  predicate Exposed(p: Proc, r: RunId) {
    || (p.work.Calling? && p.work.call.pc == AtSpawn(r))
    || (DriverOf(p, r) && (p.owner.phase.Scheduled? || (p.owner.phase.Writing? && !p.owner.phase.guarded)))
  }

  predicate Strands(s: State, a: Action, r: RunId) {
    a.Act? && a.choice.Interrupt? && a.pid < |s.procs| && Exposed(s.procs[a.pid], r)
  }

  /** A claimant's own step: interrupted where it is exposed it lets go of the
      active row; otherwise it holds on, starts the driver or finishes the row. */
  lemma ClaimantStep(s: State, p: Proc, c: Choice, r: RunId)
    requires ProcOk(s.runs, p) && Enabled(s, p, c)
    requires Claims(p, r) && !Retired(p, r) && r < |s.runs| && IsActive(s.runs[r].status)
    ensures WellTyped(s, p)
    ensures var (p', e) := LocalStep(s, p, c);
      if c.Interrupt? && Exposed(p, r) then e.Quiet? && (Claims(p', r) ==> Retired(p', r))
      else
        || (Claims(p', r) && !Retired(p', r))
        || (e.Spawn? && e.run == r)
        || (e.Write? && e.run == r && !IsActive(e.status))
  {
    OkIsWellTyped(s, p);
  }

  lemma ClaimantStays(s: State, pid: nat, p': Proc, e: Effect, i: nat, r: RunId)
    requires Inv(s) && pid < |s.procs| && EffectOk(s, s.procs[pid], p', e)
    requires i < |s.procs| && Claims(s.procs[i], r) && !Retired(s.procs[i], r)
    requires i == pid ==>
      || (Claims(p', r) && !Retired(p', r))
      || (e.Spawn? && e.run == r)
      || (e.Write? && e.run == r && !IsActive(e.status))
    ensures !Stuck(Perform(s, pid, p', e), r)
  {
    var t := Perform(s, pid, p', e);
    if e.Spawn? && e.run == r {
      assert Claims(t.procs[|s.procs|], r) && !Retired(t.procs[|s.procs|], r);
    } else if i != pid || (Claims(p', r) && !Retired(p', r)) {
      assert Claims(t.procs[i], r) && !Retired(t.procs[i], r);
    }
  }

  lemma ClaimantLetsGo(s: State, pid: nat, p': Proc, r: RunId)
    requires Inv(s) && pid < |s.procs| && r < |s.runs| && IsActive(s.runs[r].status)
    requires Claims(s.procs[pid], r) && (Claims(p', r) ==> Retired(p', r))
    ensures Stuck(Perform(s, pid, p', Quiet), r)
  {
    var t := Perform(s, pid, p', Quiet);
    forall i | 0 <= i < |t.procs| && i != pid ensures !Claims(t.procs[i], r) {
      assert t.procs[i] == s.procs[i];
    }
  }

  /** Exactly one kind of step makes an active row stuck: an interruption of its
      claimant where it is exposed. */
  lemma StuckOnlyByStranding(s: State, a: Action, r: RunId)
    requires Inv(s) && CanApply(s, a)
    requires r < |s.runs| && IsActive(s.runs[r].status) && !Stuck(s, r)
    ensures Stuck(Apply(s, a), r) <==> Strands(s, a, r)
  {
    var i :| 0 <= i < |s.procs| && Claims(s.procs[i], r) && !Retired(s.procs[i], r);
    if a.Act? {
      LocalStepOk(s, s.procs[a.pid], a.choice);
      var (p', e) := LocalStep(s, s.procs[a.pid], a.choice);
      assert Exposed(s.procs[a.pid], r) ==> Claims(s.procs[a.pid], r);
      if i == a.pid { ClaimantStep(s, s.procs[i], a.choice, r); }
      if Strands(s, a, r) { ClaimantLetsGo(s, a.pid, p', r); } else { ClaimantStays(s, a.pid, p', e, i, r); }
    } else {
      assert Apply(s, a).procs[i] == s.procs[i];
    }
  }

  lemma StuckStays(s: State, a: Action, r: RunId)
    requires Inv(s) && CanApply(s, a) && Stuck(s, r)
    ensures Stuck(Apply(s, a), r)
  {
    if a.Act? {
      var p := s.procs[a.pid];
      LocalStepOk(s, p, a.choice);
      var (p', e) := LocalStep(s, p, a.choice);
      RetiredStep(s, p, a.choice, r);
      StuckUnder(s, a.pid, p', e, r);
    }
  }

  lemma RetiredStep(s: State, p: Proc, c: Choice, r: RunId)
    requires ProcOk(s.runs, p) && Enabled(s, p, c) && (Claims(p, r) ==> Retired(p, r)) && r < |s.runs|
    ensures WellTyped(s, p)
    ensures var (p', e) := LocalStep(s, p, c);
      (Claims(p', r) ==> Retired(p', r)) && !(e.Spawn? && e.run == r) && !(e.Write? && e.run == r)
  {
    LocalStepOk(s, p, c);
  }

  lemma StuckUnder(s: State, pid: nat, p': Proc, e: Effect, r: RunId)
    requires pid < |s.procs| && Stuck(s, r) && EffectOk(s, s.procs[pid], p', e)
    requires (Claims(p', r) ==> Retired(p', r)) && !(e.Spawn? && e.run == r) && !(e.Write? && e.run == r)
    ensures Stuck(Perform(s, pid, p', e), r)
  {
    var t := Perform(s, pid, p', e);
    forall i | 0 <= i < |t.procs| && Claims(t.procs[i], r) ensures Retired(t.procs[i], r) {
      if i < |s.procs| && i != pid { assert t.procs[i] == s.procs[i]; }
    }
  }

  /** The step from `tr[k]` stranded the active row `r`. */
  ghost predicate StrandedAt(tr: seq<State>, acts: seq<Action>, k: nat, r: RunId) {
    && k < |acts| && k < |tr|
    && r < |tr[k].runs| && IsActive(tr[k].runs[r].status) && Strands(tr[k], acts[k], r)
  }

  lemma StrandingSticks(tr: seq<State>, acts: seq<Action>, k: nat, r: RunId)
    requires Behaviour(tr, acts) && StrandedAt(tr, acts, k, r)
    ensures Stuck(tr[k + 1], r)
  {
    InvAlways(tr, acts, k);
    if Stuck(tr[k], r) { StuckStays(tr[k], acts[k], r); } else { StuckOnlyByStranding(tr[k], acts[k], r); }
  }

  lemma StuckStep(tr: seq<State>, acts: seq<Action>, k: nat, r: RunId)
    requires Behaviour(tr, acts) && k + 1 < |tr| && Stuck(tr[k], r)
    ensures Stuck(tr[k + 1], r)
  {
    InvAlways(tr, acts, k);
    StuckStays(tr[k], acts[k], r);
  }

  /** A new row is claimed by the coroutine that inserted it. */
  lemma NewRowIsHeld(s: State, a: Action, r: RunId)
    requires Inv(s) && CanApply(s, a) && r >= |s.runs|
    ensures !Stuck(Apply(s, a), r)
  {
    if a.Act? {
      LocalStepOk(s, s.procs[a.pid], a.choice);
      OkIsWellTyped(s, s.procs[a.pid]);
      var (p', e) := LocalStep(s, s.procs[a.pid], a.choice);
      InsertIsClaimed(s, s.procs[a.pid], a.choice);
      if e.Insert? && r == |s.runs| { assert Claims(Apply(s, a).procs[a.pid], r); }
    }
  }

  lemma InsertIsClaimed(s: State, p: Proc, c: Choice)
    requires ProcOk(s.runs, p) && Enabled(s, p, c)
    ensures WellTyped(s, p)
    ensures var (p', e) := LocalStep(s, p, c); e.Insert? ==> Claims(p', |s.runs|) && !Retired(p', |s.runs|)
  {
    OkIsWellTyped(s, p);
  }

  lemma StuckComesFrom(tr: seq<State>, acts: seq<Action>, k: nat, r: RunId)
    requires Behaviour(tr, acts) && k + 1 < |tr| && Stuck(tr[k + 1], r) && !Stuck(tr[k], r)
    ensures StrandedAt(tr, acts, k, r)
  {
    InvAlways(tr, acts, k);
    RowsEvolve(tr, acts, k, k + 1);
    if r >= |tr[k].runs| { NewRowIsHeld(tr[k], acts[k], r); }
    else {
      StuckIsActive(tr, acts, k, r);
      StuckOnlyByStranding(tr[k], acts[k], r);
    }
  }

  lemma StuckIsActive(tr: seq<State>, acts: seq<Action>, k: nat, r: RunId)
    requires Behaviour(tr, acts) && k + 1 < |tr| && r < |tr[k].runs| && Stuck(tr[k + 1], r)
    ensures IsActive(tr[k].runs[r].status)
  {
    RowsEvolve(tr, acts, k, k + 1);
  }

  lemma {:induction false} StrandedBefore(tr: seq<State>, acts: seq<Action>, n: nat, r: RunId)
    requires Behaviour(tr, acts) && n < |tr| && Stuck(tr[n], r)
    ensures exists k | 0 <= k < n :: StrandedAt(tr, acts, k, r)
  {
    if n > 0 && Stuck(tr[n - 1], r) {
      StrandedBefore(tr, acts, n - 1, r);
    } else if n > 0 {
      StuckComesFrom(tr, acts, n - 1, r);
    }
  }

  /** When a run is stuck, exactly: some earlier step interrupted its claimant where
      it was exposed, while the row was active. */
  lemma StuckExactly(tr: seq<State>, acts: seq<Action>, n: nat, r: RunId)
    requires Behaviour(tr, acts) && n < |tr|
    ensures Stuck(tr[n], r) <==> exists k | 0 <= k < n :: StrandedAt(tr, acts, k, r)
  {
    if Stuck(tr[n], r) { StrandedBefore(tr, acts, n, r); }
    if exists k | 0 <= k < n :: StrandedAt(tr, acts, k, r) {
      var k :| 0 <= k < n && StrandedAt(tr, acts, k, r);
      StrandingSticks(tr, acts, k, r);
      StuckForEver(tr, acts, k + 1, n, r);
    }
  }

  lemma StuckForEver(tr: seq<State>, acts: seq<Action>, i: nat, j: nat, r: RunId)
    requires Behaviour(tr, acts) && i <= j < |tr| && Stuck(tr[i], r)
    ensures Stuck(tr[j], r)
  {
    var stuck := (k: nat) => k < |tr| && Stuck(tr[k], r);
    forall k: nat | i <= k < j && stuck(k) ensures stuck(k + 1) {
      StuckStep(tr, acts, k, r);
    }
    Induction.Kept(stuck, i, j);
  }

  /** A stuck run blocks its assistant in the thread for ever: every later lookup for
      an active run finds it. */
  lemma StuckRunBlocks(tr: seq<State>, acts: seq<Action>, i: nat, j: nat, r: RunId)
    requires Behaviour(tr, acts) && i <= j < |tr| && Stuck(tr[i], r)
    ensures r < |tr[j].runs| && (tr[j].runs[r].status.Pending? || tr[j].runs[r].status.Running?)
    ensures FindActive(tr[j].runs, tr[i].runs[r].thread, tr[i].runs[r].assistant) == Some(r)
  {
    StuckForEver(tr, acts, i, j, r);
    RowsEvolve(tr, acts, i, j);
    InvAlways(tr, acts, j);
    QueriesAreFunctional(tr[j].runs, r, tr[j].runs[r].thread, tr[j].runs[r].assistant, "");
  }
}
