/** Whose event is in the log: what the events of a run say of its thread and author. */
module Authorship {
  import opened Types
  import opened RunTable
  import opened Protocol
  import opened Invariant
  import Exclusivity
  import Induction
  import Streams

  /** An event of a run is in the run's thread and comes from the run's assistant. */
  predicate Signed(runs: seq<Run>, e: Event) {
    e.run.Some? ==>
      && e.run.value < |runs|
      && e.thread == runs[e.run.value].thread && e.author == runs[e.run.value].assistant
  }

  predicate WorkSigned(runs: seq<Run>, w: Work) {
    var e := Streams.InFlight(w);
    e.Some? ==> Signed(runs, e.value)
  }

  ghost predicate AllSigned(s: State) {
    && (forall k | 0 <= k < |s.events| :: Signed(s.runs, s.events[k]))
    && (forall i | 0 <= i < |s.procs| :: WorkSigned(s.runs, s.procs[i].work))
  }

  lemma StaysSigned(before: seq<Run>, after: seq<Run>, e: Event)
    requires Signed(before, e) && Exclusivity.Evolves(before, after)
    ensures Signed(after, e)
  {
  }

  lemma OwnStepSigned(s: State, p: Proc, c: Choice)
    requires ProcOk(s.runs, p) && Enabled(s, p, c) && WorkSigned(s.runs, p.work)
    ensures WellTyped(s, p)
    ensures var (p', e) := LocalStep(s, p, c);
      && WorkSigned(s.runs, p'.work)
      && (e.Append? ==> Streams.InFlight(p.work) == Some(e.event))
  {
    OkIsWellTyped(s, p);
    if c.Advance? && p.work.Publishing? { PublishStepOk(s, p.work.publication, c.authorized); }
    if c.Advance? && p.work.Calling? && !p.work.call.pc.Returned? { CallStepOk(s, p.work.call); }
  }

  lemma StepKeepsSigned(s: State, pid: nat, p': Proc, e: Effect, t: State)
    requires Stepped(s, pid, p', e, t) && AllSigned(s) && Exclusivity.Evolves(s.runs, t.runs)
    requires WorkSigned(s.runs, p'.work) && (e.Append? ==> Streams.InFlight(s.procs[pid].work) == Some(e.event))
    ensures AllSigned(t)
  {
    assert WorkSigned(s.runs, s.procs[pid].work);
    forall k | 0 <= k < |t.events| ensures Signed(t.runs, t.events[k]) {
      if k < |s.events| { StaysSigned(s.runs, t.runs, s.events[k]); } else { StaysSigned(s.runs, t.runs, e.event); }
    }
    forall i | 0 <= i < |t.procs| ensures WorkSigned(t.runs, t.procs[i].work) {
      assert i < |s.procs| ==> WorkSigned(s.runs, s.procs[i].work);
    }
  }

  lemma SignedStep(tr: seq<State>, acts: seq<Action>, k: nat)
    requires Behaviour(tr, acts) && k + 1 < |tr| && AllSigned(tr[k])
    ensures AllSigned(tr[k + 1])
  {
    InvAlways(tr, acts, k);
    Exclusivity.StepEvolves(tr, acts, k);
    var s, a, t := tr[k], acts[k], tr[k + 1];
    if a.Act? {
      ActFrame(s, a.pid, a.choice);
      OwnStepSigned(s, s.procs[a.pid], a.choice);
      var (p', e) := LocalStep(s, s.procs[a.pid], a.choice);
      StepKeepsSigned(s, a.pid, p', e, t);
    } else {
      forall i | 0 <= i < |t.procs| ensures WorkSigned(t.runs, t.procs[i].work) {
        assert i < |s.procs| ==> t.procs[i] == s.procs[i];
      }
    }
  }

  /** Every event of a run, be it a lifecycle event, a yield or the event of a closing
      stream, is in the run's thread and comes from the run's assistant. */
  lemma RunEventsAreSigned(tr: seq<State>, acts: seq<Action>, n: nat, k: nat)
    requires Behaviour(tr, acts) && n < |tr| && k < |tr[n].events|
    ensures var e := tr[n].events[k];
      e.run.Some? ==>
        && e.run.value < |tr[n].runs|
        && e.thread == tr[n].runs[e.run.value].thread
        && e.author == tr[n].runs[e.run.value].assistant
  {
    var fine := (j: nat) => j < |tr| && AllSigned(tr[j]);
    forall j: nat | 0 <= j < n && fine(j) ensures fine(j + 1) { SignedStep(tr, acts, j); }
    Induction.Kept(fine, 0, n);
    assert Signed(tr[n].runs, tr[n].events[k]);
  }
}
