/** The recipient loop of `publish_event`: what it did in an event loop where anything
    may happen at its awaits, and what it comes to when nobody interferes. */
module RecipientLoop {
  import opened Types
  import opened RunTable
  import opened Protocol
  import opened EventLoop
  import opened Calls
  import AutoInvoke
  import Deduplication
  import Paging

  /** What the loop is asked to do. `members` is the snapshot of the publication. */
  datatype Task = Task(event: Event, members: map<Id, bool>, authorized: Id -> bool, depth: nat)

  function RecipientsOf(t: Task): seq<Id> {
    if t.event.recipients.Some? then t.event.recipients.value else []
  }

  function CallFor(t: Task, id: Id): Call {
    BeginCall(t.event.thread, id, t.event.author, None, t.depth, 0)
  }

  predicate Accepts(handlers: set<Id>, t: Task, id: Id) {
    Invokable(handlers, t.members, id, t.authorized(id))
  }

  // ----- what the loop did -----

  /** What became of one recipient. World `met` decided. A call of `execute` ran from
      world `begin` to before world `end`. `deeds` is all that the coroutine had done
      itself after the turn. */
  datatype Turn =
    | Skipped(id: Id, met: nat, deeds: seq<Deed>)
    | Called(id: Id, met: nat, begin: nat, end: nat, deeds: seq<Deed>,
             outcome: Result<ExecResult, Cause>, orphan: Option<RunId>)

  /** The call returned a run. */
  predicate Fine(turn: Turn) {
    turn.Called? ==> turn.outcome.Ok? && !turn.outcome.value.UniqueViolation?
  }

  ghost predicate AllFine(turns: seq<Turn>) {
    forall i | 0 <= i < |turns| :: Fine(turns[i])
  }

  /** The first world that may decide recipient `i`. */
  function Reached(from: nat, turns: seq<Turn>, i: nat): nat
    requires i <= |turns|
  {
    if i == 0 then from
    else match turns[i - 1]
      case Skipped(_, met, _) => met
      case Called(_, _, _, end, _, _, _) => if end == 0 then 0 else end - 1
  }

  /** All that the coroutine had done itself before recipient `i`. */
  function DeedsBefore(start: seq<Deed>, turns: seq<Turn>, i: nat): seq<Deed>
    requires i <= |turns|
  {
    if i == 0 then start else turns[i - 1].deeds
  }

  /** The row that the interrupted last call inserted, if it did. */
  function OrphanOf(turns: seq<Turn>): Option<RunId> {
    if turns != [] && turns[|turns| - 1].Called? then turns[|turns| - 1].orphan else None
  }

  /** A recipient is skipped, or `execute` is called for it, by what was true in the
      world that decided. The call did what `CallDid` says and nothing else, and its
      result is justified by the worlds it met. */
  ghost predicate TurnOk(t: Task, seen: seq<World>, earliest: nat, before: seq<Deed>, turn: Turn) {
    && earliest <= turn.met < |seen|
    && match turn
       case Skipped(id, met, deeds) => !Accepts(seen[met].handlers, t, id) && deeds == before
       case Called(id, met, begin, end, deeds, outcome, orphan) =>
         && Accepts(seen[met].handlers, t, id)
         && met < begin < end <= |seen|
         && CallDid(before, deeds, CallFor(t, id), outcome, orphan)
         && (outcome.Ok? ==> orphan.None? && Justified(seen[..end], begin, CallFor(t, id), outcome.value))
  }

  /** Recipient `i` had its turn. Only the last turn may have raised. */
  ghost predicate TookTurn(t: Task, seen: seq<World>, from: nat, start: seq<Deed>, turns: seq<Turn>, i: nat)
    requires i < |turns| <= |RecipientsOf(t)|
  {
    && turns[i].id == RecipientsOf(t)[i]
    && (i < |turns| - 1 ==> Fine(turns[i]))
    && TurnOk(t, seen, Reached(from, turns, i), DeedsBefore(start, turns, i), turns[i])
  }

  /** The loop took the first recipients in order, one turn each, and nothing but their
      calls changed anything. */
  ghost predicate LoopDid(
    t: Task, seen: seq<World>, from: nat, start: seq<Deed>, deeds: seq<Deed>, turns: seq<Turn>)
  {
    && |turns| <= |RecipientsOf(t)|
    && deeds == DeedsBefore(start, turns, |turns|)
    && forall i | 0 <= i < |turns| :: TookTurn(t, seen, from, start, turns, i)
  }

  /** The first `i` recipients had their turn, and no call raised. */
  ghost predicate Going(
    t: Task, seen: seq<World>, from: nat, start: seq<Deed>, deeds: seq<Deed>, turns: seq<Turn>, i: nat)
  {
    LoopDid(t, seen, from, start, deeds, turns) && |turns| == i && AllFine(turns)
  }

  /** Why the loop raised: its last call did, or a fault struck that call or the
      authorization of the next recipient. */
  ghost predicate LoopRaised(t: Task, turns: seq<Turn>, cause: Option<Cause>) {
    match cause
    case None => turns != [] && turns[|turns| - 1].Called? && turns[|turns| - 1].outcome == Ok(UniqueViolation)
    case Some(cause) =>
      || (turns != [] && turns[|turns| - 1].Called? && turns[|turns| - 1].outcome == Err(cause))
      || (AllFine(turns) && |turns| < |RecipientsOf(t)|)
  }

  /** A fault struck exactly when it stopped the coroutine, and it left an orphan
      exactly when that was at the insert of a row. */
  ghost predicate StoppedBy(
    before: seq<Strike>, after: seq<Strike>, stopped: Option<Cause>, orphan: Option<RunId>)
  {
    match stopped
    case None => after == before && orphan.None?
    case Some(cause) =>
      && |after| == |before| + 1 && before <= after
      && var strike := after[|before|];
      && strike.cause == cause
      && orphan == if strike.place.AtStart? then Some(strike.place.run) else None
  }

  lemma TurnLater(t: Task, seen: seq<World>, later: seq<World>, earliest: nat, before: seq<Deed>, turn: Turn)
    requires TurnOk(t, seen, earliest, before, turn) && seen <= later
    ensures TurnOk(t, later, earliest, before, turn)
  {
    assert later[turn.met] == seen[turn.met];
    if turn.Called? { assert later[..turn.end] == seen[..turn.end]; }
  }

  lemma LoopLater(
    t: Task, seen: seq<World>, later: seq<World>, from: nat, start: seq<Deed>, deeds: seq<Deed>, turns: seq<Turn>)
    requires LoopDid(t, seen, from, start, deeds, turns) && seen <= later
    ensures LoopDid(t, later, from, start, deeds, turns)
  {
    forall i | 0 <= i < |turns| ensures TookTurn(t, later, from, start, turns, i) {
      assert TookTurn(t, seen, from, start, turns, i);
      TurnLater(t, seen, later, Reached(from, turns, i), DeedsBefore(start, turns, i), turns[i]);
    }
  }

  /** One more turn. */
  lemma LoopNext(
    t: Task, seen: seq<World>, later: seq<World>, from: nat, start: seq<Deed>, deeds: seq<Deed>, turns: seq<Turn>,
    turn: Turn)
    requires Going(t, seen, from, start, deeds, turns, |turns|) && seen <= later && |turns| < |RecipientsOf(t)|
    requires turn.id == RecipientsOf(t)[|turns|] && TurnOk(t, later, Reached(from, turns, |turns|), deeds, turn)
    ensures LoopDid(t, later, from, start, turn.deeds, turns + [turn])
    ensures Fine(turn) ==> Going(t, later, from, start, turn.deeds, turns + [turn], |turns| + 1)
  {
    LoopLater(t, seen, later, from, start, deeds, turns);
    var next := turns + [turn];
    forall i | 0 <= i < |next| ensures TookTurn(t, later, from, start, next, i) {
      if i < |turns| { assert TookTurn(t, later, from, start, turns, i) && Fine(turns[i]); }
    }
  }

  lemma NoOrphanYet(
    t: Task, seen: seq<World>, from: nat, start: seq<Deed>, deeds: seq<Deed>, turns: seq<Turn>, i: nat)
    requires Going(t, seen, from, start, deeds, turns, i)
    ensures OrphanOf(turns).None?
  {
    if turns != [] {
      var last := |turns| - 1;
      assert TookTurn(t, seen, from, start, turns, last) && Fine(turns[last]);
    }
  }

  /** What a turn that created a run did, in the terms of the event: a recipient with a
      handler, authorization and an assistant membership; a pending row of the event's
      thread for it, on behalf of the event's author; and a driver at the depth of the
      task. */
  lemma CreatedTurn(t: Task, seen: seq<World>, earliest: nat, before: seq<Deed>, turn: Turn, r: RunId)
    requires TurnOk(t, seen, earliest, before, turn) && turn.Called? && turn.outcome == Ok(Created(r))
    ensures turn.id in seen[turn.met].handlers && t.authorized(turn.id) && turn.id in t.members && t.members[turn.id]
    ensures |turn.deeds| == |before| + 2 && before <= turn.deeds
    ensures var insert, start := turn.deeds[|before|], turn.deeds[|before| + 1];
      && r == |insert.before.runs|
      && insert.after.runs ==
         insert.before.runs + [Run(t.event.thread, turn.id, t.event.author, None, Pending, None, None)]
      && start.after.tasks == start.before.tasks + {r} && start.after.depths == start.before.depths[r := t.depth]
  {
  }

  /** The recipients that `execute` was called for. */
  function CalledIds(turns: seq<Turn>): seq<Id> {
    if turns == [] then []
    else
      var last := turns[|turns| - 1];
      CalledIds(turns[..|turns| - 1]) + if last.Called? then [last.id] else []
  }

  /** While no handler is registered, `execute` is called for exactly the recipients
      that the event invokes, once each and in order. */
  lemma {:induction false} CallsAreInvoked(
    t: Task, seen: seq<World>, from: nat, start: seq<Deed>, deeds: seq<Deed>, turns: seq<Turn>, handlers: set<Id>,
    n: nat)
    requires LoopDid(t, seen, from, start, deeds, turns) && n <= |turns|
    requires forall k | from <= k < |seen| :: seen[k].handlers == handlers
    ensures from <= Reached(from, turns, n)
    ensures CalledIds(turns[..n]) ==
            Paging.Select(RecipientsOf(t)[..n], AutoInvoke.Accepted(handlers, t.members, t.authorized))
  {
    if n > 0 {
      var i := n - 1;
      CallsAreInvoked(t, seen, from, start, deeds, turns, handlers, i);
      assert TookTurn(t, seen, from, start, turns, i);
      assert turns[..n][..i] == turns[..i] && RecipientsOf(t)[..n][..i] == RecipientsOf(t)[..i];
    }
  }

  // ----- the loop when nobody interferes -----

  /** Accepted, and without an active run in the thread. */
  function Wanted(w: World, t: Task): Id -> bool {
    (id: Id) => Accepts(w.handlers, t, id) && FindActive(w.runs, t.event.thread, id).None?
  }

  function NewRows(t: Task, ids: seq<Id>): seq<Run> {
    seq(|ids|, i requires 0 <= i < |ids| => NewRow(CallFor(t, ids[i])))
  }

  /** The ids of the next `k` rows of a table that has `n`. */
  function NextIds(n: nat, k: nat): (ids: set<RunId>)
    ensures forall r :: r in ids <==> n <= r < n + k
  {
    if k == 0 then {} else NextIds(n, k - 1) + {n + k - 1}
  }

  function AtDepth(runs: set<RunId>, depth: nat): map<RunId, nat> {
    map r | r in runs :: depth
  }

  /** The table gains one pending row for each of the ids, in order. Each row has a
      driver and the depth of the task. Nothing else changes. */
  function WithRuns(w: World, t: Task, ids: seq<Id>): World {
    var added := NextIds(|w.runs|, |ids|);
    w.(runs := w.runs + NewRows(t, ids), tasks := w.tasks + added,
       depths := w.depths + AtDepth(added, t.depth))
  }

  /** What the loop over these recipients makes of the world. */
  function LoneLoop(w: World, t: Task, recipients: seq<Id>): World {
    WithRuns(w, t, Deduplication.Dedup(recipients, Wanted(w, t)))
  }

  lemma WithOneMore(w: World, t: Task, ids: seq<Id>, id: Id)
    ensures WithRuns(w, t, ids + [id]) == Started(WithRuns(w, t, ids), CallFor(t, id))
  {
    var n, k := |w.runs|, |ids|;
    assert NewRows(t, ids + [id]) == NewRows(t, ids) + [NewRow(CallFor(t, id))];
    assert w.runs + NewRows(t, ids + [id]) == w.runs + NewRows(t, ids) + [NewRow(CallFor(t, id))];
    assert NextIds(n, k + 1) == NextIds(n, k) + {n + k};
    assert w.tasks + NextIds(n, k + 1) == w.tasks + NextIds(n, k) + {n + k};
    OneMoreKey(w.depths, NextIds(n, k), n + k, t.depth);
  }

  lemma OneMoreKey(depths: map<RunId, nat>, runs: set<RunId>, run: RunId, depth: nat)
    ensures depths + AtDepth(runs + {run}, depth) == (depths + AtDepth(runs, depth))[run := depth]
  {
  }

  /** Without an active run of the pair the table admits a row without a key. */
  lemma KeylessReturns(runs: seq<Run>, c: Call)
    requires c.key.None?
    ensures LoneResult(runs, c) == match FindActive(runs, c.thread, c.assistant)
                                   case Some(r) => Existing(r)
                                   case None => Created(|runs|)
  {
  }

  lemma ActiveAmong(w: World, t: Task, ids: seq<Id>, id: Id)
    ensures FindActive(WithRuns(w, t, ids).runs, t.event.thread, id).None? <==>
            FindActive(w.runs, t.event.thread, id).None? && id !in ids
  {
    var n, runs := |w.runs|, WithRuns(w, t, ids).runs;
    forall i | 0 <= i < |ids| ensures ActiveFor(runs[n + i], t.event.thread, id) <==> ids[i] == id {
    }
    forall r | 0 <= r < n ensures runs[r] == w.runs[r] {
    }
  }

  /** One more recipient. */
  lemma LoneNext(w: World, t: Task, recipients: seq<Id>, id: Id)
    ensures LoneLoop(w, t, recipients + [id]) ==
            var now := LoneLoop(w, t, recipients);
            if Accepts(w.handlers, t, id) then AfterCall(now, CallFor(t, id)) else now
  {
    var ids := Deduplication.Dedup(recipients, Wanted(w, t));
    Deduplication.DedupNext(recipients, id, Wanted(w, t));
    ActiveAmong(w, t, ids, id);
    KeylessReturns(WithRuns(w, t, ids).runs, CallFor(t, id));
    WithOneMore(w, t, ids, id);
  }

  /** What the turn of one recipient makes of the world. */
  function AfterTurn(w: World, t: Task, id: Id): World {
    if Accepts(w.handlers, t, id) then AfterCall(w, CallFor(t, id)) else w
  }

  lemma LoneStep(w: World, t: Task, i: nat)
    requires i < |RecipientsOf(t)|
    ensures LoneLoop(w, t, RecipientsOf(t)[..i + 1]) ==
            AfterTurn(LoneLoop(w, t, RecipientsOf(t)[..i]), t, RecipientsOf(t)[i])
  {
    var ids := RecipientsOf(t);
    assert ids[..i + 1] == ids[..i] + [ids[i]];
    LoneNext(w, t, ids[..i], ids[i]);
  }

  lemma LoneStart(w: World, t: Task)
    ensures LoneLoop(w, t, RecipientsOf(t)[..0]) == w
    ensures RecipientsOf(t)[..|RecipientsOf(t)|] == RecipientsOf(t)
  {
    assert w.depths + AtDepth({}, t.depth) == w.depths;
  }

  lemma {:induction false} RunsAreAdmitted(w: World, t: Task, ids: seq<Id>)
    requires IndexesHold(w.runs) && forall i | 0 <= i < |ids| :: FindActive(w.runs, t.event.thread, ids[i]).None?
    requires forall i, j | 0 <= i < j < |ids| :: ids[i] != ids[j]
    ensures IndexesHold(WithRuns(w, t, ids).runs)
  {
    if ids == [] {
      assert WithRuns(w, t, ids).runs == w.runs;
    } else {
      var init, id := ids[..|ids| - 1], ids[|ids| - 1];
      RunsAreAdmitted(w, t, init);
      assert ids == init + [id];
      WithOneMore(w, t, init, id);
      ActiveAmong(w, t, init, id);
      InsertKeepsIndexes(WithRuns(w, t, init).runs, NewRow(CallFor(t, id)));
    }
  }

  /** Row `r` is the one active run of the recipient in the thread. If it is new it is
      pending, on behalf of the event's author, with a driver at the depth of the task. */
  ghost predicate ServedBy(w: World, now: World, t: Task, id: Id, r: RunId) {
    && r < |now.runs|
    && (forall i: nat | i < |now.runs| ::
          i == r <==>
            && now.runs[i].thread == t.event.thread && now.runs[i].assistant == id
            && (now.runs[i].status.Pending? || now.runs[i].status.Running?))
    && (r >= |w.runs| ==>
          && now.runs[r] == Run(t.event.thread, id, t.event.author, None, Pending, None, None)
          && r in now.tasks && r in now.depths && now.depths[r] == t.depth)
  }

  /** Afterwards every accepted recipient is served exactly once, and the indexes hold. */
  lemma LoneLoopServes(w: World, t: Task, recipients: seq<Id>)
    requires IndexesHold(w.runs)
    ensures var now := LoneLoop(w, t, recipients);
      && IndexesHold(now.runs)
      && (forall id | id in recipients && id in w.handlers && t.authorized(id) && id in t.members && t.members[id] ::
            exists r :: ServedBy(w, now, t, id, r))
  {
    var ids := Deduplication.Dedup(recipients, Wanted(w, t));
    Deduplication.DedupIsDistinct(recipients, Wanted(w, t));
    forall i | 0 <= i < |ids| ensures FindActive(w.runs, t.event.thread, ids[i]).None? {
      assert ids[i] in ids;
    }
    RunsAreAdmitted(w, t, ids);
    forall id | id in recipients && Accepts(w.handlers, t, id)
      ensures exists r :: ServedBy(w, WithRuns(w, t, ids), t, id, r)
    {
      var r := OneActive(w, t, ids, id);
    }
  }

  /** All that the loop adds: rows of accepted recipients without an active run, in the
      order of the recipients, and a driver for each. Whatever was there stays. */
  lemma LoneLoopAdds(w: World, t: Task, recipients: seq<Id>)
    ensures var now := LoneLoop(w, t, recipients);
      && w.runs <= now.runs
      && (forall r | |w.runs| <= r < |now.runs| :: NewlyRun(w, t, recipients, now.runs[r].assistant))
      && (forall r, q | |w.runs| <= r < q < |now.runs| ::
            Deduplication.EarlierIn(recipients, now.runs[r].assistant, now.runs[q].assistant))
      && (forall r :: r in now.tasks <==> r in w.tasks || |w.runs| <= r < |now.runs|)
      && now.events == w.events && now.members == w.members && now.threads == w.threads && now.handlers == w.handlers
  {
    var ids, now := Deduplication.Dedup(recipients, Wanted(w, t)), LoneLoop(w, t, recipients);
    assert |now.runs| == |w.runs| + |ids|;
    forall r | |w.runs| <= r < |now.runs|
      ensures now.runs[r].assistant == ids[r - |w.runs|] && NewlyRun(w, t, recipients, now.runs[r].assistant)
    {
      NewlyRunAt(w, t, recipients, r - |w.runs|);
    }
    forall r, q | |w.runs| <= r < q < |now.runs|
      ensures Deduplication.EarlierIn(recipients, now.runs[r].assistant, now.runs[q].assistant)
    {
      Deduplication.InFirstOccurrenceOrder(recipients, Wanted(w, t), r - |w.runs|, q - |w.runs|);
    }
  }

  /** A recipient that is accepted and has no active run in the thread. */
  ghost predicate NewlyRun(w: World, t: Task, recipients: seq<Id>, id: Id) {
    && id in recipients && id in w.handlers && t.authorized(id) && id in t.members && t.members[id]
    && forall i | 0 <= i < |w.runs| && w.runs[i].thread == t.event.thread && w.runs[i].assistant == id ::
         !w.runs[i].status.Pending? && !w.runs[i].status.Running?
  }

  lemma NewlyRunAt(w: World, t: Task, recipients: seq<Id>, i: nat)
    requires i < |Deduplication.Dedup(recipients, Wanted(w, t))|
    ensures NewlyRun(w, t, recipients, Deduplication.Dedup(recipients, Wanted(w, t))[i])
  {
    var id := Deduplication.Dedup(recipients, Wanted(w, t))[i];
    Deduplication.DedupIsDistinct(recipients, Wanted(w, t));
    assert id in Deduplication.Dedup(recipients, Wanted(w, t));
    LookupMeaning(w.runs, t.event.thread, id, "");
  }

  lemma OneActive(w: World, t: Task, ids: seq<Id>, id: Id) returns (r: RunId)
    requires IndexesHold(w.runs) && IndexesHold(WithRuns(w, t, ids).runs)
    requires FindActive(w.runs, t.event.thread, id).None? ==> id in ids
    ensures ServedBy(w, WithRuns(w, t, ids), t, id, r)
  {
    var now := WithRuns(w, t, ids);
    ActiveAmong(w, t, ids, id);
    r := FindActive(now.runs, t.event.thread, id).value;
    forall i: nat | i < |now.runs| ensures ActiveFor(now.runs[i], t.event.thread, id) <==> i == r {
      QueriesAreFunctional(now.runs, i, t.event.thread, id, "");
    }
    if r >= |w.runs| { assert now.runs[r] == NewRow(CallFor(t, ids[r - |w.runs|])); }
  }
}
