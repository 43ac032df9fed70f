/** From the log to the broadcast channel: every logged event is broadcast by the one
    call that logged it, unless that call is interrupted in between. */
module Delivery {
  import opened Types
  import opened Protocol
  import opened Invariant
  import Induction
  import EventLog

  /** The coroutine has logged the event and is about to broadcast it. */
  predicate SendsNext(p: Proc, e: Event) {
    p.work.Publishing? && p.work.publication.pc.AtBroadcast? && p.work.publication.event == e
  }

  ghost predicate OnWire(s: State, e: Event) {
    EventFrame(e) in s.wire
  }

  /** Each event has at most one sender, which has not yet sent it. */
  ghost predicate SendersOk(s: State) {
    && (forall i, e | 0 <= i < |s.procs| && SendsNext(s.procs[i], e) :: e in s.events && !OnWire(s, e))
    && (forall i, j, e | 0 <= i < j < |s.procs| :: !(SendsNext(s.procs[i], e) && SendsNext(s.procs[j], e)))
    && (forall e | OnWire(s, e) :: e in s.events)
  }

  /** The event is in the log, was not broadcast, and nobody is left to do so. */
  ghost predicate Dropped(s: State, e: Event) {
    && e in s.events && !OnWire(s, e)
    && forall i | 0 <= i < |s.procs| :: !SendsNext(s.procs[i], e)
  }

  /** An interruption between the append and the broadcast. */
  predicate Drops(s: State, a: Action, e: Event) {
    a.Act? && a.choice.Interrupt? && a.pid < |s.procs| && SendsNext(s.procs[a.pid], e)
  }

  /** What a step does to a coroutine's sending: it becomes the sender of what it
      logs, stops being one by sending or by an interruption, and sends nothing
      else. */
  ghost predicate SendingMoves(p: Proc, c: Choice, p': Proc, e: Effect) {
    && (forall x :: SendsNext(p', x) <==>
          e == Append(x) || (SendsNext(p, x) && !c.Interrupt? && e != Emit(EventFrame(x))))
    && (forall x | e == Emit(EventFrame(x)) :: SendsNext(p, x))
    && (c.Interrupt? ==> e.Quiet?)
  }

  lemma SendingStep(s: State, p: Proc, c: Choice)
    requires ProcOk(s.runs, p) && EventLog.ProcLogged(s, p) && Enabled(s, p, c)
    ensures WellTyped(s, p)
    ensures SendingMoves(p, c, LocalStep(s, p, c).0, LocalStep(s, p, c).1)
  {
    OkIsWellTyped(s, p);
    if c.Advance? && p.work.Publishing? { PublishStepOk(s, p.work.publication, c.authorized); }
  }

  /** One step of coroutine `pid`, as far as broadcasting goes. */
  ghost predicate SendingStepped(s: State, pid: nat, c: Choice, p': Proc, e: Effect, t: State) {
    && Stepped(s, pid, p', e, t)
    && SendersOk(s)
    && SendingMoves(s.procs[pid], c, p', e)
    && (e.Append? ==> e.event !in s.events)
  }

  lemma WireAfter(s: State, pid: nat, c: Choice, p': Proc, e: Effect, t: State, x: Event)
    requires SendingStepped(s, pid, c, p', e, t)
    ensures OnWire(t, x) <==> OnWire(s, x) || e == Emit(EventFrame(x))
    ensures x in t.events <==> x in s.events || e == Append(x)
  {
  }

  lemma SenderAfter(s: State, pid: nat, c: Choice, p': Proc, e: Effect, t: State, i: nat, x: Event)
    requires SendingStepped(s, pid, c, p', e, t) && i < |t.procs|
    ensures SendsNext(t.procs[i], x) <==>
      if i == pid then SendsNext(p', x) else i < |s.procs| && SendsNext(s.procs[i], x)
  {
  }

  lemma StepKeepsSenders(s: State, pid: nat, c: Choice, p': Proc, e: Effect, t: State)
    requires SendingStepped(s, pid, c, p', e, t)
    ensures SendersOk(t)
  {
    forall i, x | 0 <= i < |t.procs| && SendsNext(t.procs[i], x) ensures x in t.events && !OnWire(t, x) {
      SenderAfter(s, pid, c, p', e, t, i, x);
      WireAfter(s, pid, c, p', e, t, x);
    }
    forall i, j, x | 0 <= i < j < |t.procs| ensures !(SendsNext(t.procs[i], x) && SendsNext(t.procs[j], x)) {
      SenderAfter(s, pid, c, p', e, t, i, x);
      SenderAfter(s, pid, c, p', e, t, j, x);
    }
    forall x | OnWire(t, x) ensures x in t.events { WireAfter(s, pid, c, p', e, t, x); }
  }

  /** After a step of the coroutines an event is dropped if it was, or if this step
      interrupted its sender. */
  lemma StepDrops(s: State, pid: nat, c: Choice, p': Proc, e: Effect, t: State, x: Event)
    requires SendingStepped(s, pid, c, p', e, t)
    ensures Dropped(t, x) <==> Dropped(s, x) || (c.Interrupt? && SendsNext(s.procs[pid], x))
  {
    WireAfter(s, pid, c, p', e, t, x);
    forall i | 0 <= i < |t.procs|
      ensures SendsNext(t.procs[i], x) <==>
              if i == pid then SendsNext(p', x) else i < |s.procs| && SendsNext(s.procs[i], x)
    {
      SenderAfter(s, pid, c, p', e, t, i, x);
    }
    assert SendsNext(t.procs[pid], x) <==> SendsNext(p', x);
    forall i | 0 <= i < |s.procs| && i != pid ensures SendsNext(t.procs[i], x) <==> SendsNext(s.procs[i], x) {
      SenderAfter(s, pid, c, p', e, t, i, x);
    }
  }

  /** The step of coroutine `pid` in a reachable state is such a step. */
  lemma ActSends(s: State, pid: nat, c: Choice)
    requires Inv(s) && EventLog.LogOk(s) && SendersOk(s) && CanApply(s, Act(pid, c))
    ensures SendingStepped(s, pid, c, LocalStep(s, s.procs[pid], c).0, LocalStep(s, s.procs[pid], c).1,
      Apply(s, Act(pid, c)))
  {
    var p := s.procs[pid];
    ActFrame(s, pid, c);
    assert EventLog.ProcLogged(s, p);
    SendingStep(s, p, c);
    if p.work == Idle { EventLog.IdleLogged(s, p, c); } else { EventLog.WorkLogged(s, p, c); }
  }

  lemma SendersStep(tr: seq<State>, acts: seq<Action>, k: nat)
    requires Behaviour(tr, acts) && k + 1 < |tr| && SendersOk(tr[k])
    ensures SendersOk(tr[k + 1])
  {
    EventLog.LogAlways(tr, acts, k);
    var s, a := tr[k], acts[k];
    if a.Act? {
      ActSends(s, a.pid, a.choice);
      var (p', e) := LocalStep(s, s.procs[a.pid], a.choice);
      StepKeepsSenders(s, a.pid, a.choice, p', e, tr[k + 1]);
    } else {
      OutsideKeepsSenders(s, a);
    }
  }

  lemma OutsideKeepsSenders(s: State, a: Action)
    requires CanApply(s, a) && !a.Act? && SendersOk(s)
    ensures SendersOk(Apply(s, a))
    ensures forall x :: Dropped(Apply(s, a), x) <==> Dropped(s, x)
  {
    var t := Apply(s, a);
    forall i, x | 0 <= i < |t.procs|
      ensures SendsNext(t.procs[i], x) <==> i < |s.procs| && SendsNext(s.procs[i], x)
    {
      assert i < |s.procs| ==> t.procs[i] == s.procs[i];
    }
    assert forall x :: OnWire(t, x) <==> OnWire(s, x);
    forall x ensures Dropped(t, x) <==> Dropped(s, x) {
      assert forall i | 0 <= i < |s.procs| :: SendsNext(t.procs[i], x) <==> SendsNext(s.procs[i], x);
    }
  }

  lemma SendersAlways(tr: seq<State>, acts: seq<Action>, n: nat)
    requires Behaviour(tr, acts) && n < |tr|
    ensures SendersOk(tr[n])
  {
    var fine := (k: nat) => k < |tr| && SendersOk(tr[k]);
    forall k: nat | 0 <= k < n && fine(k) ensures fine(k + 1) { SendersStep(tr, acts, k); }
    Induction.Kept(fine, 0, n);
  }

  /** One step: an event is dropped afterwards exactly if it was before or the step
      interrupts its sender. */
  lemma DropStep(tr: seq<State>, acts: seq<Action>, k: nat, x: Event)
    requires Behaviour(tr, acts) && k + 1 < |tr|
    ensures Dropped(tr[k + 1], x) <==> Dropped(tr[k], x) || Drops(tr[k], acts[k], x)
  {
    EventLog.LogAlways(tr, acts, k);
    SendersAlways(tr, acts, k);
    var s, a := tr[k], acts[k];
    if a.Act? {
      ActSends(s, a.pid, a.choice);
      var (p', e) := LocalStep(s, s.procs[a.pid], a.choice);
      StepDrops(s, a.pid, a.choice, p', e, tr[k + 1], x);
    } else {
      OutsideKeepsSenders(s, a);
    }
  }

  // ----- the theorems -----

  /** Exactly the events whose publication was interrupted between the append and the
      broadcast are dropped, and they stay dropped. */
  lemma {:induction false} DroppedExactly(tr: seq<State>, acts: seq<Action>, n: nat, e: Event)
    requires Behaviour(tr, acts) && n < |tr|
    ensures Dropped(tr[n], e) <==> exists k | 0 <= k < n :: Drops(tr[k], acts[k], e)
  {
    if n > 0 {
      DroppedExactly(tr, acts, n - 1, e);
      DropStep(tr, acts, n - 1, e);
    }
  }

  /** Every logged event is on the wire, about to be sent by exactly one coroutine,
      or dropped by an interruption; these exclude each other. */
  lemma LoggedIsAccounted(tr: seq<State>, acts: seq<Action>, n: nat, e: Event)
    requires Behaviour(tr, acts) && n < |tr| && e in tr[n].events
    ensures !OnWire(tr[n], e) ==>
      || (exists i | 0 <= i < |tr[n].procs| :: SendsNext(tr[n].procs[i], e))
      || (exists k | 0 <= k < n :: Drops(tr[k], acts[k], e))
    ensures OnWire(tr[n], e) ==> forall k | 0 <= k < n :: !Drops(tr[k], acts[k], e)
    ensures forall i, j | 0 <= i < j < |tr[n].procs| :: !(SendsNext(tr[n].procs[i], e) && SendsNext(tr[n].procs[j], e))
  {
    SendersAlways(tr, acts, n);
    DroppedExactly(tr, acts, n, e);
  }

  /** A publication interrupted after its append is never broadcast: in every later
      state the event is in the log and not on the wire. */
  lemma InterruptDropsBroadcast(tr: seq<State>, acts: seq<Action>, k: nat, n: nat, e: Event)
    requires Behaviour(tr, acts) && k < n < |tr| && Drops(tr[k], acts[k], e)
    ensures e in tr[n].events && !OnWire(tr[n], e)
  {
    DroppedExactly(tr, acts, n, e);
  }
}
