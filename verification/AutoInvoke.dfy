/** Which recipients of a published message are invoked: the meaning of the recipient
    loop, and what it does while other coroutines move. */
module AutoInvoke {
  import opened Types
  import opened Sorting
  import opened Protocol
  import opened Invariant
  import Cascade
  import Deduplication
  import EventLog
  import Induction
  import Paging
  import Recipients

  function Accepted(handlers: set<Id>, members: map<Id, bool>, authorized: Id -> bool): Id -> bool {
    (x: Id) => Invokable(handlers, members, x, authorized(x))
  }

  /** The assistants a published event invokes, in recipient order. */
  function Invoked(
    e: Event, autoInvoke: bool, handlers: set<Id>, members: map<Id, bool>, authorized: Id -> bool,
    parentDepth: nat): seq<Id>
  {
    if autoInvoke && e.kind.Message? && e.recipients.Some? && (e.run.Some? ==> parentDepth < MAX_CHAIN_DEPTH)
    then Paging.Select(e.recipients.value, Accepted(handlers, members, authorized))
    else []
  }

  lemma {:induction false} SelectIsDedup<T>(s: seq<T>, wanted: T -> bool)
    requires Distinct(s)
    ensures Paging.Select(s, wanted) == Deduplication.Dedup(s, wanted)
    ensures forall x | x in Paging.Select(s, wanted) :: x in s
  {
    if s != [] {
      var init := s[..|s| - 1];
      assert s == init + [s[|s| - 1]];
      SelectIsDedup(init, wanted);
      assert s[|s| - 1] !in init;
    }
  }

  /** A directed message from below the depth cap invokes, once each and in recipient
      order, exactly the recipients that have a handler, pass authorization and
      are assistant members. Anything else invokes nobody. */
  lemma AutoInvokeExactly(
    e: Event, autoInvoke: bool, handlers: set<Id>, members: map<Id, bool>, authorized: Id -> bool, parentDepth: nat)
    requires Recipients.WellFormed(e.recipients, e.author)
    ensures var out := Invoked(e, autoInvoke, handlers, members, authorized, parentDepth);
      if autoInvoke && e.kind.Message? && e.recipients.Some? && (e.run.Some? ==> parentDepth < 8)
      then
        && Distinct(out)
        && (forall x :: x in out <==>
              x in e.recipients.value && x in handlers && authorized(x) && x in members && members[x])
        && Deduplication.OrderedDedup(e.recipients.value, Accepted(handlers, members, authorized), out)
      else out == []
  {
    if autoInvoke && e.kind.Message? && e.recipients.Some? && (e.run.Some? ==> parentDepth < MAX_CHAIN_DEPTH) {
      var wanted := Accepted(handlers, members, authorized);
      SelectIsDedup(e.recipients.value, wanted);
      Deduplication.DedupIsDistinct(e.recipients.value, wanted);
      Deduplication.DedupIsOrdered(e.recipients.value, wanted);
    }
  }

  lemma {:induction false} SelectPrefix<T>(s: seq<T>, n: nat, wanted: T -> bool)
    requires n <= |s|
    ensures Paging.Select(s[..n], wanted) <= Paging.Select(s, wanted)
  {
    if n < |s| {
      assert s[..|s| - 1][..n] == s[..n];
      SelectPrefix(s[..|s| - 1], n, wanted);
    } else {
      assert s[..n] == s;
    }
  }

  // ----- the loop under interleaving -----

  /** The loop has considered a prefix of the recipients, in order. */
  ghost predicate LoopOk(p: Publication) {
    if p.pc.AtInvoke? then
      && p.event.recipients.Some?
      && |p.decided| <= |p.event.recipients.value|
      && p.rest == p.event.recipients.value[|p.decided|..]
      && forall i | 0 <= i < |p.decided| :: p.decided[i].0 == p.event.recipients.value[i]
    else p.decided == []
  }

  ghost predicate ProcLoopOk(p: Proc) {
    match p.work
    case Idle => true
    case Publishing(q) => LoopOk(q)
    case Calling(None, _) => true
    case Calling(Some(q), c) =>
      LoopOk(q) && q.pc.AtInvoke? && q.decided != [] && q.decided[|q.decided| - 1] == (c.assistant, true)
  }

  /** The call of `execute` that the loop makes for one recipient. */
  function LoopCall(q: Publication, id: Id, clock: nat): Call {
    BeginCall(q.event.thread, id, q.event.author, None, q.depth + 1, clock)
  }

  /** The coroutine decided about the next recipient: it calls `execute` for it exactly
      when it is registered now, authorized, and an assistant of the snapshot. */
  ghost predicate Decides(s: State, p: Proc, c: Choice, p': Proc, q: Publication) {
    && c.Advance? && p.work.Publishing? && p.work.publication.pc.AtInvoke? && p.work.publication.rest != []
    && var before := p.work.publication;
    var id := before.rest[0];
    var b := Invokable(s.handlers, before.members, id, c.authorized);
    && q == before.(rest := before.rest[1..], decided := before.decided + [(id, b)])
    && p'.work == if b then Calling(Some(q), LoopCall(q, id, s.clock)) else Publishing(q)
  }

  /** After a step a publication has decided nothing, or as much as before, or about
      one more recipient. */
  ghost predicate LoopMoves(s: State, p: Proc, c: Choice, p': Proc) {
    var before, after := EventLog.PublicationOf(p.work), EventLog.PublicationOf(p'.work);
    after.Some? ==>
      || after.value.decided == []
      || after == before
      || Decides(s, p, c, p', after.value)
  }

  lemma LoopStep(s: State, p: Proc, c: Choice)
    requires ProcOk(s.runs, p) && ProcLoopOk(p) && Enabled(s, p, c)
    ensures WellTyped(s, p)
    ensures ProcLoopOk(LocalStep(s, p, c).0) && LoopMoves(s, p, c, LocalStep(s, p, c).0)
  {
    OkIsWellTyped(s, p);
    if c.Advance? && p.work.Publishing? {
      PublishLoopStep(s, p.work.publication, c.authorized);
    }
  }

  lemma PublishLoopStep(s: State, p: Publication, authorized: bool)
    requires PublicationOk(p) && LoopOk(p)
    ensures var (next, e) := PublishStep(s, p, authorized);
      next.Go? ==>
        && EventLog.PublicationOf(next.work).Some?
        && var q := EventLog.PublicationOf(next.work).value;
        && LoopOk(q)
        && if p.pc.AtInvoke? then
             && p.rest != []
             && var b := Invokable(s.handlers, p.members, p.rest[0], authorized);
             && q == p.(rest := p.rest[1..], decided := p.decided + [(p.rest[0], b)])
             && next.work == if b then Calling(Some(q), LoopCall(q, p.rest[0], s.clock)) else Publishing(q)
           else q.decided == [] && next.work == Publishing(q)
  {
  }

  /** The step from `tr[t]` was the decision about recipient `i` of the publication
      that coroutine `pid` is in. */
  ghost predicate DecidedAt(tr: seq<State>, acts: seq<Action>, t: nat, pid: nat, q: Publication, i: nat) {
    && t + 1 < |tr| && t < |acts| && acts[t].Act? && acts[t].pid == pid && acts[t].choice.Advance?
    && pid < |tr[t].procs| && pid < |tr[t + 1].procs| && i < |q.decided|
    && var w := tr[t].procs[pid].work;
    && w.Publishing? && w.publication.pc.AtInvoke? && w.publication.rest != []
    && var p, (id, b) := w.publication, q.decided[i];
    && p.since == q.since && p.event == q.event && p.members == q.members && p.depth == q.depth
    && p.decided == q.decided[..i] && p.rest[0] == id
    && (b <==> id in tr[t].handlers && acts[t].choice.authorized && id in q.members && q.members[id])
    && (b <==> tr[t + 1].procs[pid].work.Calling?)
    && (b ==>
          var call := tr[t + 1].procs[pid].work.call;
          && call.thread == q.event.thread && call.assistant == id && call.triggeredBy == q.event.author
          && call.key.None? && call.depth == q.depth + 1)
  }

  ghost predicate WasDecided(tr: seq<State>, acts: seq<Action>, n: nat, pid: nat, q: Publication, i: nat) {
    exists t: nat | t < n :: DecidedAt(tr, acts, t, pid, q, i)
  }

  ghost predicate LoopsOk(tr: seq<State>, acts: seq<Action>, n: nat)
    requires n < |tr|
  {
    forall pid | 0 <= pid < |tr[n].procs| :: ProcLoopOk(tr[n].procs[pid]) && Recorded(tr, acts, n, pid)
  }

  ghost predicate Recorded(tr: seq<State>, acts: seq<Action>, n: nat, pid: nat)
    requires n < |tr| && pid < |tr[n].procs|
  {
    var q := EventLog.PublicationOf(tr[n].procs[pid].work);
    q.Some? ==> forall i: nat | i < |q.value.decided| :: WasDecided(tr, acts, n, pid, q.value, i)
  }

  lemma OneMoreDecided(tr: seq<State>, acts: seq<Action>, t: nat, pid: nat, p: Publication, q: Publication, i: nat)
    requires DecidedAt(tr, acts, t, pid, p, i)
    requires p.since == q.since && p.event == q.event && p.members == q.members && p.depth == q.depth
    requires |p.decided| <= |q.decided| && p.decided == q.decided[..|p.decided|]
    ensures DecidedAt(tr, acts, t, pid, q, i)
  {
    assert p.decided[..i] == q.decided[..i] && p.decided[i] == q.decided[i];
  }

  lemma RecordedLater(tr: seq<State>, acts: seq<Action>, n: nat, pid: nat, c: Choice)
    requires 0 < n < |tr| && n <= |acts| && acts[n - 1] == Act(pid, c)
    requires pid < |tr[n - 1].procs| && pid < |tr[n].procs| && Recorded(tr, acts, n - 1, pid)
    requires LoopMoves(tr[n - 1], tr[n - 1].procs[pid], c, tr[n].procs[pid])
    ensures Recorded(tr, acts, n, pid)
  {
    var s, p, p' := tr[n - 1], tr[n - 1].procs[pid], tr[n].procs[pid];
    var before, after := EventLog.PublicationOf(p.work), EventLog.PublicationOf(p'.work);
    if after.Some? && after.value.decided != [] {
      var q := after.value;
      forall i: nat | i < |q.decided| ensures WasDecided(tr, acts, n, pid, q, i) {
        if i < |before.value.decided| {
          assert WasDecided(tr, acts, n - 1, pid, before.value, i);
          var t: nat :| t < n - 1 && DecidedAt(tr, acts, t, pid, before.value, i);
          OneMoreDecided(tr, acts, t, pid, before.value, q, i);
        } else {
          assert q.decided[..i] == before.value.decided;
          assert DecidedAt(tr, acts, n - 1, pid, q, i);
        }
      }
    }
  }

  lemma RecordedStill(tr: seq<State>, acts: seq<Action>, k: nat, pid: nat)
    requires k + 1 < |tr| && pid < |tr[k].procs| && pid < |tr[k + 1].procs| && Recorded(tr, acts, k, pid)
    requires tr[k + 1].procs[pid] == tr[k].procs[pid]
    ensures Recorded(tr, acts, k + 1, pid)
  {
    if EventLog.PublicationOf(tr[k].procs[pid].work).Some? {
      var q, n := EventLog.PublicationOf(tr[k].procs[pid].work).value, k + 1;
      forall i: nat | i < |q.decided| ensures WasDecided(tr, acts, n, pid, q, i) {
        assert WasDecided(tr, acts, k, pid, q, i);
      }
    }
  }

  lemma LoopsStep(tr: seq<State>, acts: seq<Action>, k: nat)
    requires Behaviour(tr, acts) && k + 1 < |tr| && LoopsOk(tr, acts, k)
    ensures LoopsOk(tr, acts, k + 1)
  {
    InvAlways(tr, acts, k);
    var s, a, t := tr[k], acts[k], tr[k + 1];
    if a.Act? {
      ActFrame(s, a.pid, a.choice);
      LoopStep(s, s.procs[a.pid], a.choice);
      RecordedLater(tr, acts, k + 1, a.pid, a.choice);
    }
    forall pid | 0 <= pid < |t.procs| ensures ProcLoopOk(t.procs[pid]) && Recorded(tr, acts, k + 1, pid) {
      if pid < |s.procs| && !(a.Act? && pid == a.pid) {
        assert t.procs[pid] == s.procs[pid];
        assert Recorded(tr, acts, k, pid);
        RecordedStill(tr, acts, k, pid);
      }
    }
  }

  lemma LoopsAlways(tr: seq<State>, acts: seq<Action>, n: nat)
    requires Behaviour(tr, acts) && n < |tr|
    ensures LoopsOk(tr, acts, n)
  {
    var fine := (k: nat) => k < |tr| && LoopsOk(tr, acts, k);
    forall k: nat | 0 <= k < n && fine(k) ensures fine(k + 1) { LoopsStep(tr, acts, k); }
    Induction.Kept(fine, 0, n);
  }

  /** Under any interleaving the loop takes the recipients in order, once each, and
      each was decided at a step of its own: `execute` was called for it then, at
      depth parent + 1, exactly when it was registered, authorized and an
      assistant of the members snapshot. */
  lemma LoopDecidesExactly(tr: seq<State>, acts: seq<Action>, n: nat, pid: nat)
    requires Behaviour(tr, acts) && n < |tr| && pid < |tr[n].procs|
    requires EventLog.PublicationOf(tr[n].procs[pid].work).Some?
    ensures var q := EventLog.PublicationOf(tr[n].procs[pid].work).value;
      && LoopOk(q)
      && forall i: nat | i < |q.decided| :: WasDecided(tr, acts, n, pid, q, i)
  {
    LoopsAlways(tr, acts, n);
    assert ProcLoopOk(tr[n].procs[pid]) && Recorded(tr, acts, n, pid);
  }

  /** The recipients that were invoked. */
  function Chosen(decided: seq<(Id, bool)>): seq<Id> {
    if decided == [] then []
    else
      var before := Chosen(decided[..|decided| - 1]);
      if decided[|decided| - 1].1 then before + [decided[|decided| - 1].0] else before
  }

  lemma {:induction false} ChosenIsSelect(decided: seq<(Id, bool)>, recipients: seq<Id>, wanted: Id -> bool)
    requires |decided| <= |recipients|
    requires forall i | 0 <= i < |decided| :: decided[i] == (recipients[i], wanted(recipients[i]))
    ensures Chosen(decided) == Paging.Select(recipients[..|decided|], wanted)
  {
    if decided != [] {
      var n := |decided| - 1;
      ChosenIsSelect(decided[..n], recipients, wanted);
      assert recipients[..n + 1][..n] == recipients[..n];
    }
  }

  /** The step after the append broadcasts the event. The coroutine then enters the
      recipient loop, at the depth recorded for the event's run, exactly when
      auto-invocation is on, the event is a directed message, and that depth is
      below 8. */
  lemma LoopBeginsExactly(tr: seq<State>, acts: seq<Action>, n: nat, pid: nat)
    requires Behaviour(tr, acts) && n + 1 < |tr| && pid < |tr[n].procs|
    requires acts[n].Act? && acts[n].pid == pid && acts[n].choice.Advance?
    requires tr[n].procs[pid].work.Publishing? && tr[n].procs[pid].work.publication.pc.AtBroadcast?
    ensures pid < |tr[n + 1].procs|
    ensures var s, p, after := tr[n], tr[n].procs[pid].work.publication, tr[n + 1].procs[pid].work;
      var run := p.event.run;
      && tr[n + 1].wire == s.wire + [EventFrame(p.event)] && tr[n + 1].events == s.events
      && if s.autoInvoke && p.event.kind.Message? && p.event.recipients.Some?
            && (run.Some? && run.value in s.depths ==> s.depths[run.value] < 8)
         then
           && after.Publishing? && after.publication.pc.AtInvoke? && after.publication.event == p.event
           && after.publication.members == p.members && after.publication.decided == []
           && after.publication.rest == p.event.recipients.value
           && after.publication.depth == (if run.Some? && run.value in s.depths then s.depths[run.value] else 0)
         else after == Idle
  {
    LoopsAlways(tr, acts, n);
    InvAlways(tr, acts, n);
    ActFrame(tr[n], pid, acts[n].choice);
    assert ProcLoopOk(tr[n].procs[pid]);
  }

  /** The loop runs for directed messages from below the depth cap only. */
  lemma LoopIsDue(tr: seq<State>, acts: seq<Action>, n: nat, pid: nat)
    requires Behaviour(tr, acts) && n < |tr| && pid < |tr[n].procs|
    requires EventLog.PublicationOf(tr[n].procs[pid].work).Some?
    requires EventLog.PublicationOf(tr[n].procs[pid].work).value.pc.AtInvoke?
    ensures var q := EventLog.PublicationOf(tr[n].procs[pid].work).value;
      q.event.kind.Message? && q.event.recipients.Some? && q.depth < 8
  {
    EventLog.LogAlways(tr, acts, n);
    Cascade.DepthsAlways(tr, acts, n);
    assert EventLog.ProcLogged(tr[n], tr[n].procs[pid]) && Cascade.ProcDepthOk(tr[n].procs[pid]);
  }

  /** With registrations and authorizations that do not change, the loop's calls are a
      prefix of the assistants that the event invokes, and all of them at its end,
      however other coroutines interleave. */
  lemma LoopCallsAreInvoked(
    tr: seq<State>, acts: seq<Action>, n: nat, pid: nat, handlers: set<Id>, authorized: Id -> bool)
    requires Behaviour(tr, acts) && n < |tr| && pid < |tr[n].procs|
    requires EventLog.PublicationOf(tr[n].procs[pid].work).Some?
    requires EventLog.PublicationOf(tr[n].procs[pid].work).value.pc.AtInvoke?
    requires forall t: nat, q, i: nat | t < n && DecidedAt(tr, acts, t, pid, q, i) ::
      tr[t].handlers == handlers && acts[t].choice.authorized == authorized(q.decided[i].0)
    ensures var q := EventLog.PublicationOf(tr[n].procs[pid].work).value;
      && q.event.recipients.Some?
      && var all := Invoked(q.event, true, handlers, q.members, authorized, q.depth);
      Chosen(q.decided) <= all && (q.rest == [] ==> Chosen(q.decided) == all)
  {
    LoopDecidesExactly(tr, acts, n, pid);
    LoopIsDue(tr, acts, n, pid);
    var q := EventLog.PublicationOf(tr[n].procs[pid].work).value;
    var recipients, wanted := q.event.recipients.value, Accepted(handlers, q.members, authorized);
    forall i: nat | i < |q.decided| ensures q.decided[i] == (recipients[i], wanted(recipients[i])) {
      assert WasDecided(tr, acts, n, pid, q, i);
      var t: nat :| t < n && DecidedAt(tr, acts, t, pid, q, i);
    }
    ChosenIsSelect(q.decided, recipients, wanted);
    SelectPrefix(recipients, |q.decided|, wanted);
    assert q.rest == [] ==> recipients[..|q.decided|] == recipients;
  }
}
