/** Where events and rows come from: nothing enters the log or the table of runs but
    what somebody asked for, unchanged. */
module Provenance {
  import opened Types
  import opened RunTable
  import opened Protocol
  import opened Invariant
  import Exclusivity
  import Recipients
  import Streams

  // ----- events -----

  /** The choice of driver `o` starts a publication of the event: a yield, a closing
      stream, or a lifecycle event. It is in the run's thread, from its assistant. */
  predicate DriverPublishes(row: Run, run: RunId, c: Choice, e: Event) {
    && e.run == Some(run) && e.thread == row.thread && e.author == row.assistant
    && match c
       case Yield(kind, recipients, text, stamp) =>
         && e.id == stamp.id && e.createdAt == stamp.createdAt && e.kind == kind && e.text == text && !e.streamed
         && e.recipients == Recipients.Normalize(recipients, row.assistant)
       case CloseStream(sid, kind, createdAt) =>
         e.id == sid && e.createdAt == createdAt && e.kind == kind && e.recipients.None? && e.streamed
       case Advance(stamp, _) =>
         && e.id == stamp.id && e.createdAt == stamp.createdAt && e.text == "" && !e.streamed && e.recipients.None?
         && (e.kind.RunStarted? || e.kind.RunCompleted? || e.kind.RunFailed? || e.kind.RunCancelled?)
       case _ => false
  }

  /** Step `k` started a publication of the event. */
  ghost predicate PublishedAt(tr: seq<State>, acts: seq<Action>, k: nat, e: Event) {
    && k < |acts| && k < |tr|
    && match acts[k]
       case PublishExternally(x) =>
         && e.id == x.id && e.createdAt == x.createdAt && e.thread == x.thread && e.run.None? && e.author == x.author
         && e.kind == x.kind && e.text == x.text && !e.streamed
         && e.recipients == Recipients.Normalize(x.recipients, x.author)
       case Act(i, c) =>
         && i < |tr[k].procs| && tr[k].procs[i].owner.Driver? && tr[k].procs[i].owner.run < |tr[k].runs|
         && DriverPublishes(tr[k].runs[tr[k].procs[i].owner.run], tr[k].procs[i].owner.run, c, e)
       case _ => false
  }

  ghost predicate Published(tr: seq<State>, acts: seq<Action>, n: nat, e: Event) {
    exists k | 0 <= k < n :: PublishedAt(tr, acts, k, e)
  }

  // ----- calls -----

  /** The choice of a coroutine starts a call for this row: a driver's `ctx.invoke`, on
      behalf of its assistant, or the recipient loop of an event, on behalf of its
      author. */
  predicate StepCalls(s: State, p: Proc, c: Choice, row: Run) {
    && row.key.None?
    && match c
       case Invoke(assistant) =>
         && p.owner.Driver? && p.owner.run < |s.runs| && row.assistant == assistant
         && row.thread == s.runs[p.owner.run].thread && row.triggeredBy == s.runs[p.owner.run].assistant
       case Advance(_, _) =>
         && p.work.Publishing? && p.work.publication.pc.AtInvoke? && p.work.publication.rest != []
         && var e := p.work.publication.event;
         && row.assistant == p.work.publication.rest[0] && row.thread == e.thread && row.triggeredBy == e.author
       case _ => false
  }

  /** Step `k` started a call of `execute` for this row. */
  ghost predicate RequestedAt(tr: seq<State>, acts: seq<Action>, k: nat, row: Run) {
    && k < |acts| && k < |tr|
    && match acts[k]
       case InvokeExternally(thread, assistant, triggeredBy, key) =>
         row.thread == thread && row.assistant == assistant && row.triggeredBy == triggeredBy && row.key == key
       case Act(i, c) => i < |tr[k].procs| && StepCalls(tr[k], tr[k].procs[i], c, row)
       case _ => false
  }

  ghost predicate Requested(tr: seq<State>, acts: seq<Action>, n: nat, row: Run) {
    exists k | 0 <= k < n :: RequestedAt(tr, acts, k, row)
  }

  ghost predicate WorkFrom(tr: seq<State>, acts: seq<Action>, n: nat, w: Work) {
    && (Streams.InFlight(w).Some? ==> Published(tr, acts, n, Streams.InFlight(w).value))
    && (w.Calling? ==> Requested(tr, acts, n, NewRow(w.call)))
  }

  ghost predicate AllFrom(tr: seq<State>, acts: seq<Action>, n: nat)
    requires n < |tr|
  {
    && (forall k | 0 <= k < |tr[n].events| :: Published(tr, acts, n, tr[n].events[k]))
    && (forall r | 0 <= r < |tr[n].runs| :: Requested(tr, acts, n, tr[n].runs[r]))
    && (forall i | 0 <= i < |tr[n].procs| :: WorkFrom(tr, acts, n, tr[n].procs[i].work))
  }

  lemma RequestedSame(tr: seq<State>, acts: seq<Action>, n: nat, n': nat, a: Run, b: Run)
    requires Requested(tr, acts, n, a) && n <= n'
    requires a.thread == b.thread && a.assistant == b.assistant && a.triggeredBy == b.triggeredBy && a.key == b.key
    ensures Requested(tr, acts, n', b)
  {
    var k :| 0 <= k < n && RequestedAt(tr, acts, k, a);
    assert RequestedAt(tr, acts, k, b);
  }

  lemma PublishedLater(tr: seq<State>, acts: seq<Action>, n: nat, n': nat, e: Event)
    requires Published(tr, acts, n, e) && n <= n'
    ensures Published(tr, acts, n', e)
  {
    var k :| 0 <= k < n && PublishedAt(tr, acts, k, e);
  }

  // ----- one step -----

  /** What a coroutine's own step publishes and calls is what it did before, or what its
      choice says. */
  ghost predicate OwnWork(s: State, p: Proc, c: Choice, p': Proc, e: Effect) {
    && (Streams.InFlight(p'.work).Some? && Streams.InFlight(p'.work) != Streams.InFlight(p.work) ==>
          && p.owner.Driver? && p.owner.run < |s.runs|
          && DriverPublishes(s.runs[p.owner.run], p.owner.run, c, Streams.InFlight(p'.work).value))
    && (p'.work.Calling? ==>
          || (p.work.Calling? && NewRow(p'.work.call) == NewRow(p.work.call))
          || StepCalls(s, p, c, NewRow(p'.work.call)))
    && (e.Append? ==> Streams.InFlight(p.work) == Some(e.event))
    && (e.Insert? ==> p.work.Calling? && e.row == NewRow(p.work.call))
  }

  lemma OwnStep(s: State, p: Proc, c: Choice)
    requires ProcOk(s.runs, p) && Enabled(s, p, c)
    ensures WellTyped(s, p)
    ensures OwnWork(s, p, c, LocalStep(s, p, c).0, LocalStep(s, p, c).1)
  {
    OkIsWellTyped(s, p);
    if c.Advance? && p.work.Publishing? { PublishStepOk(s, p.work.publication, c.authorized); }
    if c.Advance? && p.work.Calling? && !p.work.call.pc.Returned? { CallStepOk(s, p.work.call); }
  }

  lemma OwnWorkFrom(tr: seq<State>, acts: seq<Action>, k: nat, i: nat, c: Choice, p': Proc, e: Effect)
    requires k < |acts| && k + 1 < |tr| && acts[k] == Act(i, c) && i < |tr[k].procs|
    requires WorkFrom(tr, acts, k, tr[k].procs[i].work) && OwnWork(tr[k], tr[k].procs[i], c, p', e)
    ensures WorkFrom(tr, acts, k + 1, p'.work)
  {
    var p := tr[k].procs[i];
    var f := Streams.InFlight(p'.work);
    if f.Some? {
      if f == Streams.InFlight(p.work) { PublishedLater(tr, acts, k, k + 1, f.value); }
      else { assert PublishedAt(tr, acts, k, f.value); }
    }
    if p'.work.Calling? {
      if StepCalls(tr[k], p, c, NewRow(p'.work.call)) { assert RequestedAt(tr, acts, k, NewRow(p'.work.call)); }
      else { RequestedSame(tr, acts, k, k + 1, NewRow(p.work.call), NewRow(p'.work.call)); }
    }
  }

  lemma WorkLater(tr: seq<State>, acts: seq<Action>, k: nat, w: Work)
    requires WorkFrom(tr, acts, k, w)
    ensures WorkFrom(tr, acts, k + 1, w)
  {
    if Streams.InFlight(w).Some? { PublishedLater(tr, acts, k, k + 1, Streams.InFlight(w).value); }
    if w.Calling? { RequestedSame(tr, acts, k, k + 1, NewRow(w.call), NewRow(w.call)); }
  }

  lemma ActFrom(tr: seq<State>, acts: seq<Action>, k: nat, i: nat, c: Choice, p': Proc, e: Effect)
    requires k < |acts| && k + 1 < |tr| && acts[k] == Act(i, c) && AllFrom(tr, acts, k)
    requires Stepped(tr[k], i, p', e, tr[k + 1]) && OwnWork(tr[k], tr[k].procs[i], c, p', e)
    requires Exclusivity.Evolves(tr[k].runs, tr[k + 1].runs)
    ensures AllFrom(tr, acts, k + 1)
  {
    var s, t := tr[k], tr[k + 1];
    assert WorkFrom(tr, acts, k, s.procs[i].work);
    OwnWorkFrom(tr, acts, k, i, c, p', e);
    forall j | 0 <= j < |t.events| ensures Published(tr, acts, k + 1, t.events[j]) {
      if j < |s.events| { PublishedLater(tr, acts, k, k + 1, s.events[j]); }
      else { PublishedLater(tr, acts, k, k + 1, e.event); }
    }
    forall r | 0 <= r < |t.runs| ensures Requested(tr, acts, k + 1, t.runs[r]) {
      if r < |s.runs| { RequestedSame(tr, acts, k, k + 1, s.runs[r], t.runs[r]); }
      else { RequestedSame(tr, acts, k, k + 1, NewRow(s.procs[i].work.call), t.runs[r]); }
    }
    forall j | 0 <= j < |t.procs| ensures WorkFrom(tr, acts, k + 1, t.procs[j].work) {
      if j < |s.procs| && j != i { WorkLater(tr, acts, k, s.procs[j].work); }
    }
  }

  lemma OutsideFrom(tr: seq<State>, acts: seq<Action>, k: nat)
    requires Behaviour(tr, acts) && k < |acts| && !acts[k].Act? && AllFrom(tr, acts, k)
    ensures AllFrom(tr, acts, k + 1)
  {
    var s, t := tr[k], tr[k + 1];
    forall j | 0 <= j < |t.events| ensures Published(tr, acts, k + 1, t.events[j]) {
      PublishedLater(tr, acts, k, k + 1, s.events[j]);
    }
    forall r | 0 <= r < |t.runs| ensures Requested(tr, acts, k + 1, t.runs[r]) {
      RequestedSame(tr, acts, k, k + 1, s.runs[r], t.runs[r]);
    }
    forall j | 0 <= j < |t.procs| ensures WorkFrom(tr, acts, k + 1, t.procs[j].work) {
      if j < |s.procs| { WorkLater(tr, acts, k, s.procs[j].work); }
      else if acts[k].PublishExternally? { assert PublishedAt(tr, acts, k, Streams.InFlight(t.procs[j].work).value); }
      else { assert RequestedAt(tr, acts, k, NewRow(t.procs[j].work.call)); }
    }
  }

  lemma {:induction false} FromAlways(tr: seq<State>, acts: seq<Action>, n: nat)
    requires Behaviour(tr, acts) && n < |tr|
    ensures AllFrom(tr, acts, n)
  {
    if n > 0 {
      var k := n - 1;
      FromAlways(tr, acts, k);
      if acts[k].Act? {
        var i, c := acts[k].pid, acts[k].choice;
        InvAlways(tr, acts, k);
        ActFrame(tr[k], i, c);
        Exclusivity.StepEvolves(tr, acts, k);
        OwnStep(tr[k], tr[k].procs[i], c);
        ActFrom(tr, acts, k, i, c, LocalStep(tr[k], tr[k].procs[i], c).0, LocalStep(tr[k], tr[k].procs[i], c).1);
      } else {
        OutsideFrom(tr, acts, k);
      }
    }
  }

  // ----- the theorems -----

  /** Every logged event is one that an earlier step started to publish, unchanged but
      for its normalized recipients. */
  lemma LoggedWasPublished(tr: seq<State>, acts: seq<Action>, n: nat, j: nat)
    requires Behaviour(tr, acts) && n < |tr| && j < |tr[n].events|
    ensures exists k | 0 <= k < n :: PublishedAt(tr, acts, k, tr[n].events[j])
  {
    FromAlways(tr, acts, n);
    assert Published(tr, acts, n, tr[n].events[j]);
  }

  /** Every row was asked for by an earlier step: with this thread, assistant, triggerer
      and key. */
  lemma RunWasRequested(tr: seq<State>, acts: seq<Action>, n: nat, r: RunId)
    requires Behaviour(tr, acts) && n < |tr| && r < |tr[n].runs|
    ensures exists k | 0 <= k < n :: RequestedAt(tr, acts, k, tr[n].runs[r])
  {
    FromAlways(tr, acts, n);
    assert Requested(tr, acts, n, tr[n].runs[r]);
  }
}
