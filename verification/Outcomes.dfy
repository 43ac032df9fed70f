/** What each outcome of a handler makes of its run. */
module Outcomes {
  import opened Types
  import opened RunTable
  import opened Protocol
  import opened Invariant
  import opened Trace
  import Induction

  /** The driver is past its handler and leads its row to this status and error. */
  ghost predicate LeadsTo(s: State, i: nat, status: Status, error: Option<ErrorCode>) {
    && i < |s.procs| && s.procs[i].owner.Driver? && s.procs[i].owner.run < |s.runs|
    && var o, row := s.procs[i].owner, s.runs[s.procs[i].owner.run];
    match o.phase
    case Unwinding(_, cause) => StatusFor(cause) == status && ErrorFor(cause) == error
    case Writing(_, st, er) => st == status && er == error
    case Ending(_, st) => st == status && row.status == status && row.error == error
    case Flushing => row.status == status && row.error == error
    case Gone => row.status == status && row.error == error
    case Leaked => row.status == status && row.error == error
    case _ => false
  }

  /** The driver's own step, seen alone. */
  ghost predicate OwnLeads(s: State, p': Proc, e: Effect, status: Status, error: Option<ErrorCode>) {
    && (e.Write? ==> e.run < |s.runs|)
    && LeadsTo(s.(runs := RunsAfter(s.runs, e), procs := [p']), 0, status, error)
  }

  lemma OwnStepLeads(s: State, i: nat, c: Choice, status: Status, error: Option<ErrorCode>)
    requires i < |s.procs| && ProcOk(s.runs, s.procs[i]) && Enabled(s, s.procs[i], c)
    requires OnlyHandlerInterrupted(s, Act(i, c), i) && LeadsTo(s, i, status, error)
    ensures WellTyped(s, s.procs[i])
    ensures OwnLeads(s, LocalStep(s, s.procs[i], c).0, LocalStep(s, s.procs[i], c).1, status, error)
  {
    OkIsWellTyped(s, s.procs[i]);
    LocalStepOk(s, s.procs[i], c);
  }

  lemma OwnStepped(s: State, i: nat, p': Proc, e: Effect, t: State, status: Status, error: Option<ErrorCode>)
    requires Stepped(s, i, p', e, t) && OwnLeads(s, p', e, status, error)
    ensures LeadsTo(t, i, status, error)
  {
  }

  /** Nobody else writes the row. */
  lemma OthersLead(
    s: State, pid: nat, p': Proc, e: Effect, t: State, i: nat, status: Status, error: Option<ErrorCode>)
    requires Stepped(s, pid, p', e, t) && i != pid && LeadsTo(s, i, status, error)
    ensures LeadsTo(t, i, status, error)
  {
  }

  lemma StepLeads(tr: seq<State>, acts: seq<Action>, k: nat, i: nat, status: Status, error: Option<ErrorCode>)
    requires Behaviour(tr, acts) && k + 1 < |tr|
    requires OnlyHandlerInterrupted(tr[k], acts[k], i) && LeadsTo(tr[k], i, status, error)
    ensures LeadsTo(tr[k + 1], i, status, error)
  {
    InvAlways(tr, acts, k);
    if acts[k].Act? { ActLeads(tr[k], acts[k].pid, acts[k].choice, i, status, error); }
  }

  lemma ActLeads(s: State, pid: nat, c: Choice, i: nat, status: Status, error: Option<ErrorCode>)
    requires Inv(s) && CanApply(s, Act(pid, c))
    requires OnlyHandlerInterrupted(s, Act(pid, c), i) && LeadsTo(s, i, status, error)
    ensures LeadsTo(Apply(s, Act(pid, c)), i, status, error)
  {
    var t := Apply(s, Act(pid, c));
    ActFrame(s, pid, c);
    var (p', e) := LocalStep(s, s.procs[pid], c);
    if pid == i {
      OwnStepLeads(s, i, c, status, error);
      OwnStepped(s, i, p', e, t, status, error);
    } else {
      OthersLead(s, pid, p', e, t, i, status, error);
    }
  }

  /** How the handler ends, as a step of its driver: it returns, or the fault arrives. */
  function EndsBy(outcome: Option<Cause>): Choice {
    match outcome
    case None => Return
    case Some(cause) => Interrupt(cause)
  }

  lemma HandlerLeads(tr: seq<State>, acts: seq<Action>, k: nat, i: nat, outcome: Option<Cause>)
    requires Behaviour(tr, acts) && k + 1 < |tr| && acts[k] == Act(i, EndsBy(outcome))
    requires i < |tr[k].procs| && tr[k].procs[i].owner.Driver? && tr[k].procs[i].owner.phase.Consuming?
    ensures LeadsTo(tr[k + 1], i, if outcome.None? then Completed else StatusFor(outcome.value),
                    if outcome.None? then None else ErrorFor(outcome.value))
  {
    InvAlways(tr, acts, k);
    ActFrame(tr[k], i, acts[k].choice);
    OkIsWellTyped(tr[k], tr[k].procs[i]);
  }

  /** The row that an outcome leaves, if nothing interrupts the driver afterwards. */
  lemma OutcomeRow(tr: seq<State>, acts: seq<Action>, k: nat, n: nat, i: nat, outcome: Option<Cause>)
    requires Behaviour(tr, acts) && k < n < |tr| && i < |tr[n].procs| && Finished(tr[n].procs[i].owner)
    requires acts[k] == Act(i, EndsBy(outcome))
    requires i < |tr[k].procs| && tr[k].procs[i].owner.Driver? && tr[k].procs[i].owner.phase.Consuming?
    requires forall j | k < j < n :: OnlyHandlerInterrupted(tr[j], acts[j], i)
    ensures tr[n].procs[i].owner.run < |tr[n].runs|
    ensures exists end :: EndsAs(outcome, tr[n].runs[tr[n].procs[i].owner.run], end)
  {
    HandlerLeads(tr, acts, k, i, outcome);
    var status := if outcome.None? then Completed else StatusFor(outcome.value);
    var error := if outcome.None? then None else ErrorFor(outcome.value);
    var leads := (j: nat) => j < |tr| && LeadsTo(tr[j], i, status, error);
    forall j: nat | k + 1 <= j < n && leads(j) ensures leads(j + 1) { StepLeads(tr, acts, j, i, status, error); }
    Induction.Kept(leads, k + 1, n);
    assert EndsAs(outcome, tr[n].runs[tr[n].procs[i].owner.run], TerminalKind(status));
  }

  /** The whole line of the table, if nothing but the handler was interrupted: `last` is
      where the last event of the run is in the log. */
  lemma OutcomeTable(tr: seq<State>, acts: seq<Action>, k: nat, n: nat, i: nat, outcome: Option<Cause>)
    requires Behaviour(tr, acts) && k < n < |tr| && i < |tr[n].procs| && Finished(tr[n].procs[i].owner)
    requires acts[k] == Act(i, EndsBy(outcome))
    requires i < |tr[k].procs| && tr[k].procs[i].owner.Driver? && tr[k].procs[i].owner.phase.Consuming?
    requires forall j | 0 <= j < n :: OnlyHandlerInterrupted(tr[j], acts[j], i)
    ensures tr[n].procs[i].owner.run < |tr[n].runs|
    ensures var r, events := tr[n].procs[i].owner.run, tr[n].events;
      exists last | 0 <= last < |events| ::
        && events[last].run == Some(r) && (forall j | last < j < |events| :: events[j].run != Some(r))
        && EndsAs(outcome, tr[n].runs[r], events[last].kind)
  {
    OutcomeRow(tr, acts, k, n, i, outcome);
    HandlerOutcomesClose(tr, acts, n, i);
    var r, events := tr[n].procs[i].owner.run, tr[n].events;
    var at := RunEventsMeaning(events, r);
    var ks := RunTrace(events, r);
    var last := at[|at| - 1];
    assert events[last].kind == ks[|ks| - 1] && EndsAs(outcome, tr[n].runs[r], events[last].kind);
    assert forall x | 0 <= x < |at| :: at[x] <= last;
    assert forall j | j in at :: j <= last;
  }
}
