/** `publish_event`: the single write path of the log, in an event loop whose other
    coroutines may change everything and interrupt it at every await. */
module Server {
  import opened Types
  import opened Protocol
  import opened Store
  import opened EventLoop
  import opened Calls
  import opened Executor
  import opened RecipientLoop
  import Deduplication
  import Namespace
  import Recipients
  import Tenant

  datatype PublishError =
    | RecipientNotMember(recipient: Id)
    | DuplicateEvent
    | NamespaceInvalid(violation: Namespace.Violation)
    | InvocationFailed
    | Stopped(cause: Cause)

  function ErrorIn<T>(r: Result<T, PublishError>): Option<PublishError> {
    match r
    case Ok(_) => None
    case Err(error) => Some(error)
  }

  /** The fault that stopped the coroutine, if one did. */
  function CauseOf(error: Option<PublishError>): Option<Cause> {
    match error
    case Some(Stopped(cause)) => Some(cause)
    case _ => None
  }

  /** How a call of `execute` lets the loop go on. */
  function CallError(outcome: Result<ExecResult, Cause>): Option<PublishError> {
    match outcome
    case Err(cause) => Some(Stopped(cause))
    case Ok(UniqueViolation) => Some(InvocationFailed)
    case Ok(_) => None
  }

  function MembersIn(w: World, thread: Id): map<Id, bool> {
    if thread in w.members then w.members[thread] else map[]
  }

  function ThreadIn(w: World, thread: Id): Option<Tenant.Scope> {
    if thread in w.threads then Some(w.threads[thread]) else None
  }

  function DepthIn(w: World, run: Option<RunId>): nat {
    if run.Some? && run.value in w.depths then w.depths[run.value] else 0
  }

  /** The event as it is logged. */
  function Normalized(e: Event): Event {
    e.(recipients := Recipients.Normalize(e.recipients, e.author))
  }

  /** Normalization touches the recipients only. What is left of them is the named ids
      other than the author and the empty id, once each in first-occurrence order. */
  lemma NormalizedMeaning(e: Event)
    ensures Normalized(e).(recipients := e.recipients) == e
    ensures Recipients.WellFormed(Normalized(e).recipients, e.author)
    ensures Normalized(e).recipients.None? <==>
            e.recipients.None? || forall x | x in e.recipients.value :: x == "" || x == e.author
    ensures Normalized(e).recipients.Some? ==>
      && e.recipients.Some?
      && var given, kept := e.recipients.value, Normalized(e).recipients.value;
      && (forall x :: x in kept <==> x in given && x != "" && x != e.author)
      && forall i, j | 0 <= i < j < |kept| :: Deduplication.EarlierIn(given, kept[i], kept[j])
  {
    Recipients.NormalizedShape(e.recipients, e.author);
    if e.recipients.Some? {
      var given, wanted := e.recipients.value, Recipients.NotAuthor(e.author);
      Deduplication.DedupIsOrdered(given, wanted);
      var kept := Recipients.Kept(given, e.author);
      forall i, j | 0 <= i < j < |kept| ensures Deduplication.EarlierIn(given, kept[i], kept[j]) {
        Deduplication.InFirstOccurrenceOrder(given, wanted, i, j);
      }
    }
  }

  // ----- what a publication met -----

  /** All recipients were members in one world, the one that `members` was read in. */
  ghost predicate Admitted(seen: seq<World>, from: nat, e: Event, members: map<Id, bool>) {
    e.recipients.Some? && exists k | from <= k < |seen| ::
      members == MembersIn(seen[k], e.thread) && forall x | x in e.recipients.value :: x in members
  }

  /** `x` is the first recipient that is not a member. */
  ghost predicate FirstStranger(w: World, e: Event, x: Id) {
    && e.recipients.Some? && x !in MembersIn(w, e.thread)
    && exists k | 0 <= k < |e.recipients.value| ::
         e.recipients.value[k] == x && forall j | 0 <= j < k :: e.recipients.value[j] in MembersIn(w, e.thread)
  }

  /** The call was refused for this reason: its first stranger among the recipients, an
      id already used, or an interruption. */
  ghost predicate RefusedFor(seen: seq<World>, from: nat, e: Event, error: PublishError) {
    match error
    case RecipientNotMember(x) => exists k | from <= k < |seen| :: FirstStranger(seen[k], e, x)
    case DuplicateEvent => UsedIn(seen, from, e.id)
    case Stopped(_) => true
    case _ => false
  }

  /** The event goes into the log under an unused id, and nothing else changes. */
  ghost predicate LogDeed(d: Deed, e: Event) {
    !IdUsed(d.before, e.id) && d.after == d.before.(events := d.before.events + [e])
  }

  /** The thread passed in, or what the store held for it in a world of the call. */
  ghost predicate ThreadMet(
    seen: seq<World>, from: nat, given: Option<Tenant.Scope>, id: Id, thread: Option<Tenant.Scope>)
  {
    if given.Some? then thread == given else exists k | from <= k < |seen| :: thread == ThreadIn(seen[k], id)
  }

  /** The depth recorded for the run in a world of the call. */
  ghost predicate DepthMet(seen: seq<World>, from: nat, run: Option<RunId>, depth: nat) {
    exists k | from <= k < |seen| :: depth == DepthIn(seen[k], run)
  }

  lemma AdmittedLater(seen: seq<World>, later: seq<World>, from: nat, e: Event, members: map<Id, bool>)
    requires seen <= later && Admitted(seen, from, e, members)
    ensures Admitted(later, from, e, members)
  {
    var k :| from <= k < |seen| && members == MembersIn(seen[k], e.thread)
             && forall x | x in e.recipients.value :: x in members;
    assert later[k] == seen[k];
  }

  lemma ThreadLater(
    seen: seq<World>, later: seq<World>, from: nat, from': nat, given: Option<Tenant.Scope>, id: Id,
    thread: Option<Tenant.Scope>)
    requires seen <= later && from' <= from && ThreadMet(seen, from, given, id, thread)
    ensures ThreadMet(later, from', given, id, thread)
  {
    if given.None? {
      var k :| from <= k < |seen| && thread == ThreadIn(seen[k], id);
      assert later[k] == seen[k];
    }
  }

  /** Thread and depth as they were read in the worlds up to the last of `seen`. */
  lemma MetLater(
    seen: seq<World>, later: seq<World>, from: nat, given: Option<Tenant.Scope>, e: Event,
    thread: Option<Tenant.Scope>, depth: nat)
    requires seen <= later && from < |seen| && ThreadMet(seen, from, given, e.thread, thread)
    requires depth == DepthIn(seen[|seen| - 1], e.run)
    ensures ThreadMet(later, from, given, e.thread, thread) && DepthMet(later, from, e.run, depth)
  {
    ThreadLater(seen, later, from, from, given, e.thread, thread);
    assert later[|seen| - 1] == seen[|seen| - 1];
  }

  // ----- a publication that nobody interferes with -----

  predicate MembersOnly(w: World, e: Event) {
    e.recipients.Some? ==> forall x | x in e.recipients.value :: x in MembersIn(w, e.thread)
  }

  /** The recipients are members and the id is unused. */
  ghost predicate Acceptable(w: World, e: Event) {
    MembersOnly(w, e) && !IdUsed(w, e.id)
  }

  function WithEvent(w: World, e: Event): World {
    w.(events := w.events + [e])
  }

  function LoneThread(w: World, given: Option<Tenant.Scope>, id: Id): Option<Tenant.Scope> {
    if given.Some? then given else ThreadIn(w, id)
  }

  /** The recipient loop at the depth after that of the event's run, below the cap. */
  function LoneInvocations(w: World, e: Event, members: map<Id, bool>, authorized: Id -> bool): World {
    var depth := DepthIn(w, e.run);
    if e.run.Some? && depth >= MAX_CHAIN_DEPTH then w
    else
      var t := Task(e, members, authorized, depth + 1);
      LoneLoop(w, t, RecipientsOf(t))
  }

  /** How the loop stands after `i` recipients, or why it ended. */
  ghost predicate Stands(
    t: Task, seen: seq<World>, from: nat, start: seq<Deed>, deeds: seq<Deed>, turns: seq<Turn>, i: nat,
    error: Option<PublishError>)
  {
    match error
    case None => Going(t, seen, from, start, deeds, turns, i)
    case Some(InvocationFailed) => LoopDid(t, seen, from, start, deeds, turns) && LoopRaised(t, turns, None)
    case Some(Stopped(cause)) => LoopDid(t, seen, from, start, deeds, turns) && LoopRaised(t, turns, Some(cause))
    case Some(_) => false
  }

  lemma LoneBelowCap(w: World, e: Event, members: map<Id, bool>, authorized: Id -> bool, depth: nat)
    requires depth == DepthIn(w, e.run) && (e.run.Some? ==> depth < MAX_CHAIN_DEPTH)
    ensures var t := Task(e, members, authorized, depth + 1);
            LoneInvocations(w, e, members, authorized) == LoneLoop(w, t, RecipientsOf(t))
  {
  }

  /** What the loop did for a message read at this depth of its run: nothing at the
      cap, and else one level deeper. */
  ghost predicate Looped(
    e: Event, members: map<Id, bool>, authorized: Id -> bool, depth: nat,
    seen: seq<World>, from: nat, start: seq<Deed>, deeds: seq<Deed>, turns: seq<Turn>, error: Option<PublishError>)
  {
    var t := Task(e, members, authorized, depth + 1);
    if e.run.Some? && depth >= 8 then error.None? && turns == [] && deeds == start
    else Stands(t, seen, from, start, deeds, turns, |RecipientsOf(t)|, error)
  }

  /** What became of a publication: the append if it was logged, the members it was checked
      against, the threads it was routed and forwarded by, the depth it read for the
      event's run, and the recipients' turns. */
  datatype Account = Account(
    logged: Option<Deed>,
    members: map<Id, bool>,
    route: Option<Tenant.Scope>,
    found: Option<Tenant.Scope>,
    depth: nat,
    turns: seq<Turn>)

  const NOTHING := Account(None, map[], None, None, 0, [])

  /** The call for the next recipient returned, raised or was struck. */
  lemma CallEnds(
    t: Task, seen: seq<World>, later: seq<World>, from: nat, start: seq<Deed>, deeds: seq<Deed>, turns: seq<Turn>,
    turn: Turn)
    requires Going(t, seen, from, start, deeds, turns, |turns|) && seen <= later && |turns| < |RecipientsOf(t)|
    requires turn.Called? && turn.id == RecipientsOf(t)[|turns|]
    requires TurnOk(t, later, Reached(from, turns, |turns|), deeds, turn)
    ensures Stands(t, later, from, start, turn.deeds, turns + [turn], |turns| + 1, CallError(turn.outcome))
    ensures Reached(from, turns + [turn], |turns| + 1) < |later| && OrphanOf(turns + [turn]) == turn.orphan
  {
    LoopNext(t, seen, later, from, start, deeds, turns, turn);
  }

  lemma SkipEnds(
    t: Task, seen: seq<World>, later: seq<World>, from: nat, start: seq<Deed>, deeds: seq<Deed>, turns: seq<Turn>,
    turn: Turn)
    requires Going(t, seen, from, start, deeds, turns, |turns|) && seen <= later && |turns| < |RecipientsOf(t)|
    requires turn.Skipped? && turn.id == RecipientsOf(t)[|turns|]
    requires TurnOk(t, later, Reached(from, turns, |turns|), deeds, turn)
    ensures Stands(t, later, from, start, deeds, turns + [turn], |turns| + 1, None)
    ensures Reached(from, turns + [turn], |turns| + 1) < |later| && OrphanOf(turns + [turn]).None?
  {
    LoopNext(t, seen, later, from, start, deeds, turns, turn);
  }

  /** A fault struck the authorization of the next recipient. */
  lemma AskEnds(
    t: Task, seen: seq<World>, later: seq<World>, from: nat, start: seq<Deed>, deeds: seq<Deed>, turns: seq<Turn>,
    cause: Cause)
    requires Going(t, seen, from, start, deeds, turns, |turns|) && seen <= later && |turns| < |RecipientsOf(t)|
    ensures Stands(t, later, from, start, deeds, turns, |turns| + 1, Some(Stopped(cause))) && OrphanOf(turns).None?
  {
    LoopLater(t, seen, later, from, start, deeds, turns);
    NoOrphanYet(t, seen, from, start, deeds, turns, |turns|);
  }

  class ThreadServer {
    const store: PostgresThreadStore
    const executor: RunExecutor
    const registry: HandlerTable
    const autoInvoke: bool
    const hasBroadcaster: bool
    const namespaceKeys: Option<seq<string>>
    var sent: seq<(string, Event)>   // what this object's calls broadcast, by namespace

    /** With keys that `_validate_namespace_keys` lets through. */
    constructor (
      executor: RunExecutor, registry: HandlerTable, autoInvoke: bool, hasBroadcaster: bool,
      namespaceKeys: Option<seq<string>>)
      requires namespaceKeys.Some? ==> Namespace.GoodKeys(namespaceKeys.value)
      ensures Keyed() && this.store == executor.store && this.executor == executor && this.registry == registry
      ensures this.autoInvoke == autoInvoke && this.hasBroadcaster == hasBroadcaster
      ensures this.namespaceKeys == namespaceKeys && sent == []
    {
      this.store, this.executor, this.registry := executor.store, executor, registry;
      this.autoInvoke, this.hasBroadcaster, this.namespaceKeys, sent := autoInvoke, hasBroadcaster, namespaceKeys, [];
    }

    ghost predicate Fits(env: Environment)
      reads env, store, executor, registry
    {
      executor.store == store && env.registry == registry && executor.Fits(env)
    }

    /** What the constructor's caller checked. */
    predicate Keyed() {
      namespaceKeys.Some? ==> Namespace.GoodKeys(namespaceKeys.value)
    }

    /** Since the last await this coroutine has not touched the handlers. */
    ghost predicate Current(env: Environment)
      reads env, registry
    {
      env.Awaited() && registry.ids == env.last.handlers
    }

    /** Nor the dicts. */
    ghost predicate Resumed(env: Environment)
      reads env, registry, executor
    {
      Current(env) && executor.chainDepths == env.last.depths
    }

    // ----- the recipient loop -----

    /** One call of `execute`, for a recipient that world `met` accepts. */
    method InvokeOne(t: Task, id: Id, env: Environment, ghost earliest: nat, ghost met: nat)
      returns (error: Option<PublishError>, ghost turn: Turn)
      requires Fits(env) && earliest <= met < |env.seen| && Accepts(env.seen[met].handlers, t, id)
      modifies executor, env, store, registry
      ensures Fits(env) && Current(env) && env.Grew() && old(store.events) <= store.events
      ensures turn.Called? && turn.id == id && turn.deeds == env.Deeds() && turn.end == |env.seen|
      ensures TurnOk(t, env.seen, earliest, old(env.Deeds()), turn)
      ensures error == CallError(turn.outcome)
      ensures StoppedBy(old(env.struck), env.struck, CauseOf(error), turn.orphan)
      ensures old(env.Silent()) ==>
        env.Silent() && error.None? && env.Now() == AfterCall(old(env.Now()), CallFor(t, id))
    {
      if env.Silent() { KeylessReturns(store.runs, CallFor(t, id)); }
      ghost var begin := |env.seen|;
      var outcome, orphan := executor.Execute(t.event.thread, id, t.event.author, None, t.depth, env);
      assert env.seen[..|env.seen|] == env.seen;
      turn := Called(id, met, begin, |env.seen|, env.Deeds(), outcome, orphan);
      if outcome.Err? { return Some(Stopped(outcome.error)), turn; }
      error := if outcome.value.UniqueViolation? then Some(InvocationFailed) else None;
    }

    /** Recipient `i`: skip it without a handler, and ask for authorization otherwise. */
    method Consider(
      t: Task, i: nat, env: Environment, ghost from: nat, ghost start: seq<Deed>, ghost before: seq<Turn>)
      returns (error: Option<PublishError>, ghost turns: seq<Turn>)
      requires Fits(env) && Current(env) && i < |RecipientsOf(t)| && Reached(from, before, |before|) < |env.seen|
      requires Going(t, env.seen, from, start, env.Deeds(), before, i)
      modifies executor, env, store, registry
      ensures Fits(env) && Current(env) && env.Grew() && old(store.events) <= store.events
      ensures Stands(t, env.seen, from, start, env.Deeds(), turns, i + 1, error)
      ensures error.None? ==> Reached(from, turns, |turns|) < |env.seen|
      ensures StoppedBy(old(env.struck), env.struck, CauseOf(error), OrphanOf(turns))
      ensures old(env.Silent()) ==>
        env.Silent() && error.None? && env.Now() == AfterTurn(old(env.Now()), t, RecipientsOf(t)[i])
    {
      var id := t.event.recipients.value[i];
      if id !in registry.ids {
        ghost var skipped := Skipped(id, |env.seen| - 1, env.Deeds());
        SkipEnds(t, env.seen, env.seen, from, start, env.Deeds(), before, skipped);
        return None, before + [skipped];
      }
      error, turns := Ask(t, i, env, from, start, before);
    }

    /** Skip a registered recipient when authorization is refused or it is no assistant
        member, and call `execute` otherwise. */
    method Ask(
      t: Task, i: nat, env: Environment, ghost from: nat, ghost start: seq<Deed>, ghost before: seq<Turn>)
      returns (error: Option<PublishError>, ghost turns: seq<Turn>)
      requires Fits(env) && Current(env) && i < |RecipientsOf(t)| && Reached(from, before, |before|) < |env.seen|
      requires Going(t, env.seen, from, start, env.Deeds(), before, i) && RecipientsOf(t)[i] in registry.ids
      modifies executor, env, store, registry
      ensures Fits(env) && Current(env) && env.Grew() && old(store.events) <= store.events
      ensures Stands(t, env.seen, from, start, env.Deeds(), turns, i + 1, error)
      ensures error.None? ==> Reached(from, turns, |turns|) < |env.seen|
      ensures StoppedBy(old(env.struck), env.struck, CauseOf(error), OrphanOf(turns))
      ensures old(env.Silent()) ==>
        env.Silent() && error.None? && env.Now() == AfterTurn(old(env.Now()), t, RecipientsOf(t)[i])
    {
      var id := t.event.recipients.value[i];
      ghost var met, seen, deeds := |env.seen| - 1, env.seen, env.Deeds();
      var fault := executor.Pause(env);
      if fault.Some? {
        AskEnds(t, seen, env.seen, from, start, deeds, before, fault.value);
        return Some(Stopped(fault.value)), before;
      }
      if !t.authorized(id) || id !in t.members || !t.members[id] {
        ghost var turn := Skipped(id, met, deeds);
        SkipEnds(t, seen, env.seen, from, start, deeds, before, turn);
        return None, before + [turn];
      }
      LoopLater(t, seen, env.seen, from, start, deeds, before);
      error, turns := CallNext(t, i, env, from, start, before, met);
    }

    /** The call of `execute` for recipient `i`, which world `met` accepts. */
    method CallNext(
      t: Task, i: nat, env: Environment, ghost from: nat, ghost start: seq<Deed>, ghost before: seq<Turn>,
      ghost met: nat)
      returns (error: Option<PublishError>, ghost turns: seq<Turn>)
      requires Fits(env) && i < |RecipientsOf(t)| && Reached(from, before, |before|) <= met < |env.seen|
      requires Going(t, env.seen, from, start, env.Deeds(), before, i)
      requires Accepts(env.seen[met].handlers, t, RecipientsOf(t)[i])
      modifies executor, env, store, registry
      ensures Fits(env) && Current(env) && env.Grew() && old(store.events) <= store.events
      ensures Stands(t, env.seen, from, start, env.Deeds(), turns, i + 1, error)
      ensures error.None? ==> Reached(from, turns, |turns|) < |env.seen|
      ensures StoppedBy(old(env.struck), env.struck, CauseOf(error), OrphanOf(turns))
      ensures old(env.Silent()) ==>
        && env.Silent() && error.None?
        && env.Now() == AfterCall(old(env.Now()), CallFor(t, RecipientsOf(t)[i]))
    {
      ghost var seen, deeds := env.seen, env.Deeds();
      ghost var turn;
      error, turn := InvokeOne(t, t.event.recipients.value[i], env, Reached(from, before, |before|), met);
      CallEnds(t, seen, env.seen, from, start, deeds, before, turn);
      turns := before + [turn];
    }

    /** The loop over the recipients. It stops at the first call that raises. Nothing
        but its calls changes anything, and when nobody interferes it is the lone
        loop: one new pending run for each accepted recipient without an active one. */
    method InvokeEach(t: Task, env: Environment, ghost from: nat)
      returns (error: Option<PublishError>, ghost turns: seq<Turn>)
      requires Fits(env) && Current(env) && t.event.recipients.Some? && from < |env.seen|
      modifies executor, env, store, registry
      ensures Fits(env) && env.Grew() && old(store.events) <= store.events
      ensures Stands(t, env.seen, from, old(env.Deeds()), env.Deeds(), turns, |RecipientsOf(t)|, error)
      ensures StoppedBy(old(env.struck), env.struck, CauseOf(error), OrphanOf(turns))
      ensures old(env.Silent()) ==>
        env.Silent() && error.None? && env.Now() == LoneLoop(old(env.Now()), t, RecipientsOf(t))
    {
      error, turns := None, [];
      ghost var start, lone, world, all := env.Deeds(), env.Silent(), env.Now(), RecipientsOf(t);
      LoneStart(world, t);
      for i := 0 to |t.event.recipients.value|
        invariant Fits(env) && Current(env) && env.Grew() && old(store.events) <= store.events
        invariant error.None? && Going(t, env.seen, from, start, env.Deeds(), turns, i)
        invariant Reached(from, turns, |turns|) < |env.seen| && env.struck == old(env.struck)
        invariant lone ==> env.Silent() && env.Now() == LoneLoop(world, t, all[..i])
      {
        LoneStep(world, t, i);
        error, turns := Consider(t, i, env, from, start, turns);
        if error.Some? { return; }
      }
      NoOrphanYet(t, env.seen, from, start, env.Deeds(), turns, |all|);
      assert all[..|all|] == all;
    }

    /** Nothing at the depth cap; below it, the loop one level deeper than the depth
        recorded for the event's run. */
    method AutoInvokeRecipients(
      event: Event, members: map<Id, bool>, authorized: Id -> bool, env: Environment, ghost from: nat)
      returns (error: Option<PublishError>, ghost depth: nat, ghost turns: seq<Turn>)
      requires Fits(env) && Resumed(env) && from < |env.seen| && event.recipients.Some?
      modifies executor, env, store, registry
      ensures Fits(env) && env.Grew() && old(store.events) <= store.events
      ensures depth == if event.run.Some? && event.run.value in old(env.last.depths)
                       then old(env.last.depths)[event.run.value] else 0
      ensures Looped(event, members, authorized, depth, env.seen, from, old(env.Deeds()), env.Deeds(), turns, error)
      ensures StoppedBy(old(env.struck), env.struck, CauseOf(error), OrphanOf(turns))
      ensures old(env.Silent()) ==>
        && env.Silent() && error.None?
        && env.Now() == LoneInvocations(old(env.Now()), event, members, authorized)
    {
      var parentDepth := 0;
      error, depth, turns := None, DepthIn(env.last, event.run), [];
      if event.run.Some? {
        parentDepth := executor.ChainDepthFor(event.run.value);
        if parentDepth >= MAX_CHAIN_DEPTH { return; }
      }
      var t := Task(event, members, authorized, parentDepth + 1);
      LoneBelowCap(env.Now(), event, members, authorized, parentDepth);
      error, turns := InvokeEach(t, env, from);
    }

    // ----- check and append -----

    /** The recipients, normalized and checked against one read of the members. */
    method CheckRecipients(event: Event, env: Environment) returns (r: Result<(Event, map<Id, bool>), PublishError>)
      requires Fits(env)
      modifies executor, env, store, registry
      ensures Fits(env) && env.Grew() && old(store.events) <= store.events
      ensures env.Deeds() == old(env.Deeds())
      ensures StoppedBy(old(env.struck), env.struck, CauseOf(ErrorIn(r)), None)
      ensures var published := Normalized(event);
        match r
        case Ok((e, members)) =>
          e == published && (e.recipients.Some? ==> Admitted(env.seen, |old(env.seen)|, e, members))
        case Err(error) => !error.DuplicateEvent? && RefusedFor(env.seen, |old(env.seen)|, published, error)
      ensures old(env.Silent()) ==>
        && env.Silent() && env.Now() == old(env.Now())
        && (r.Ok? <==> MembersOnly(env.Now(), Normalized(event)))
        && (r.Ok? && r.value.0.recipients.Some? ==> r.value.1 == MembersIn(env.Now(), event.thread))
    {
      if event.recipients.None? { return Ok((event, map[])); }
      var normalized := Recipients.NormalizeRecipients(event.recipients, event.author);
      var published := event.(recipients := normalized);
      if normalized.None? { return Ok((published, map[])); }
      r := CheckMembers(published, env);
    }

    /** One read of the members, which must cover the recipients. */
    method CheckMembers(published: Event, env: Environment) returns (r: Result<(Event, map<Id, bool>), PublishError>)
      requires Fits(env) && published.recipients.Some?
      modifies executor, env, store, registry
      ensures Fits(env) && env.Grew() && old(store.events) <= store.events
      ensures env.Deeds() == old(env.Deeds())
      ensures StoppedBy(old(env.struck), env.struck, CauseOf(ErrorIn(r)), None)
      ensures match r
        case Ok((e, members)) => e == published && Admitted(env.seen, |old(env.seen)|, e, members)
        case Err(error) => !error.DuplicateEvent? && RefusedFor(env.seen, |old(env.seen)|, published, error)
      ensures old(env.Silent()) ==>
        && env.Silent() && env.Now() == old(env.Now())
        && (r.Ok? <==> MembersOnly(env.Now(), published))
        && (r.Ok? ==> r.value.1 == MembersIn(env.Now(), published.thread))
    {
      var fault := executor.Pause(env);
      if fault.Some? { return Err(Stopped(fault.value)); }
      var members := store.MembersOf(published.thread);
      ghost var met := |env.seen| - 1;
      assert members == MembersIn(env.seen[met], published.thread);
      var stranger := FindStranger(published.recipients.value, members);
      if stranger.Some? {
        assert FirstStranger(env.seen[met], published, stranger.value);
        return Err(RecipientNotMember(stranger.value));
      }
      return Ok((published, members));
    }

    /** The first of the ids that is not a member. */
    method FindStranger(ids: seq<Id>, members: map<Id, bool>) returns (stranger: Option<Id>)
      ensures stranger.None? <==> forall x | x in ids :: x in members
      ensures stranger.Some? ==>
        && stranger.value !in members
        && exists k | 0 <= k < |ids| :: ids[k] == stranger.value && forall j | 0 <= j < k :: ids[j] in members
    {
      for k := 0 to |ids|
        invariant forall j | 0 <= j < k :: ids[j] in members
      {
        if ids[k] !in members { return Some(ids[k]); }
      }
      return None;
    }

    /** Check and append. An event that is refused is not logged, and an accepted one is
        all that is logged. */
    method Log(event: Event, env: Environment) returns (r: Result<(Event, map<Id, bool>), PublishError>)
      requires Fits(env)
      modifies executor, env, store, registry
      ensures Fits(env) && env.Grew() && old(store.events) <= store.events
      ensures StoppedBy(old(env.struck), env.struck, CauseOf(ErrorIn(r)), None)
      ensures match r
        case Ok((e, members)) =>
          && e == Normalized(event) && |env.seen| > |old(env.seen)| && Resumed(env)
          && env.Deeds() == old(env.Deeds()) + [Deed(env.last, env.Now())] && LogDeed(Deed(env.last, env.Now()), e)
          && (e.recipients.Some? ==> Admitted(env.seen, |old(env.seen)|, e, members))
        case Err(error) =>
          env.Deeds() == old(env.Deeds()) && RefusedFor(env.seen, |old(env.seen)|, Normalized(event), error)
      ensures old(env.Silent()) ==>
        && env.Silent() && (r.Ok? <==> Acceptable(old(env.Now()), Normalized(event)))
        && env.Now() == (if r.Ok? then WithEvent(old(env.Now()), Normalized(event)) else old(env.Now()))
        && (r.Ok? && r.value.0.recipients.Some? ==> r.value.1 == MembersIn(env.Now(), event.thread))
    {
      var checked := CheckRecipients(event, env);
      if checked.Err? { return Err(checked.error); }
      var (published, members) := checked.value;
      ghost var seen := env.seen;
      var error := Append(published, env);
      if error.Some? { return Err(error.value); }
      if published.recipients.Some? { AdmittedLater(seen, env.seen, |old(env.seen)|, published, members); }
      return Ok((published, members));
    }

    /** The insert of the event, unless its id is used or a fault strikes. */
    method Append(e: Event, env: Environment) returns (error: Option<PublishError>)
      requires Fits(env)
      modifies executor, env, store, registry
      ensures Fits(env) && env.Grew() && old(store.events) <= store.events && |env.seen| > |old(env.seen)|
      ensures StoppedBy(old(env.struck), env.struck, CauseOf(error), None)
      ensures match error
        case None =>
          && Resumed(env) && LogDeed(Deed(env.last, env.Now()), e)
          && env.Deeds() == old(env.Deeds()) + [Deed(env.last, env.Now())]
        case Some(DuplicateEvent) => env.Deeds() == old(env.Deeds()) && UsedIn(env.seen, |old(env.seen)|, e.id)
        case Some(Stopped(_)) => env.Deeds() == old(env.Deeds())
        case Some(_) => false
      ensures old(env.Silent()) ==>
        && env.Silent() && (error.None? <==> !IdUsed(old(env.Now()), e.id))
        && env.Now() == if error.None? then WithEvent(old(env.Now()), e) else old(env.Now())
    {
      var fault := executor.Pause(env);
      if fault.Some? { return Some(Stopped(fault.value)); }
      ghost var met := |env.seen| - 1;
      var appended := store.AppendEvent(e);
      if appended.Err? {
        assert IdUsed(env.seen[met], e.id);
        return Some(DuplicateEvent);
      }
      return None;
    }

    // ----- after the append -----

    /** The thread of an event: the one passed in, or an await and a read. */
    method ReadThread(given: Option<Tenant.Scope>, id: Id, env: Environment, ghost from: nat)
      returns (r: Result<Option<Tenant.Scope>, PublishError>)
      requires Fits(env) && Resumed(env) && from < |env.seen|
      modifies executor, env, store, registry
      ensures Fits(env) && Resumed(env) && env.Grew() && old(store.events) <= store.events
      ensures env.Deeds() == old(env.Deeds())
      ensures StoppedBy(old(env.struck), env.struck, CauseOf(ErrorIn(r)), None)
      ensures if r.Ok? then ThreadMet(env.seen, from, given, id, r.value) else given.None? && r.error.Stopped?
      ensures old(env.Silent()) ==>
        env.Silent() && env.Now() == old(env.Now()) && r == Ok(LoneThread(env.Now(), given, id))
    {
      if given.Some? { return Ok(given); }
      var fault := executor.Pause(env);
      if fault.Some? { return Err(Stopped(fault.value)); }
      var thread := store.GetThread(id);
      assert thread == ThreadIn(env.seen[|env.seen| - 1], id);
      return Ok(thread);
    }

    /** Where an event of this thread belongs: on the default path without keys or
        thread, and on the path of the thread's tenant otherwise. */
    ghost predicate OnPathOf(path: string, thread: Option<Tenant.Scope>) {
      if namespaceKeys.None? || thread.None? then path == "/"
      else Namespace.IsPathOf(path, thread.value, namespaceKeys.value)
    }

    /** The event was sent once, where it belongs, or nothing without a broadcaster. */
    ghost predicate SentOnce(
      before: seq<(string, Event)>, after: seq<(string, Event)>, e: Event, thread: Option<Tenant.Scope>)
    {
      if !hasBroadcaster then after == before
      else
        && |after| == |before| + 1 && before <= after
        && after[|before|].1 == e && OnPathOf(after[|before|].0, thread)
    }

    /** The namespace path of the event, and what is known of its thread afterwards. */
    method FindRoute(id: Id, given: Option<Tenant.Scope>, env: Environment, ghost from: nat)
      returns (path: Result<string, PublishError>, thread: Option<Tenant.Scope>)
      requires Fits(env) && Keyed() && Resumed(env) && from < |env.seen| && hasBroadcaster
      modifies executor, env, store, registry
      ensures Fits(env) && Resumed(env) && env.Grew() && old(store.events) <= store.events
      ensures env.Deeds() == old(env.Deeds())
      ensures StoppedBy(old(env.struck), env.struck, CauseOf(ErrorIn(path)), None)
      ensures Routed(given, id, env.seen, from, thread, ErrorIn(path))
      ensures path.Ok? ==> OnPathOf(path.value, thread)
      ensures old(env.Silent()) ==>
        && env.Silent() && env.Now() == old(env.Now()) && (path.Err? ==> path.error.NamespaceInvalid?)
        && thread == if namespaceKeys.Some? then LoneThread(env.Now(), given, id) else given
    {
      thread := given;
      if namespaceKeys.None? { return Ok("/"), thread; }
      var read := ReadThread(given, id, env, from);
      if read.Err? { return Err(read.error), thread; }
      thread := read.value;
      if thread.None? { return Ok("/"), thread; }
      var derived := Namespace.DeriveNamespacePath(thread.value, namespaceKeys);
      Namespace.DerivedIsPath(thread.value, namespaceKeys.value);
      path := if derived.Ok? then Ok(derived.value) else Err(NamespaceInvalid(derived.error));
    }

    /** Broadcast a logged event on the namespace of its thread. `thread` is what the
        coroutine knows of the thread afterwards. */
    method Broadcast(published: Event, given: Option<Tenant.Scope>, env: Environment, ghost from: nat)
      returns (error: Option<PublishError>, thread: Option<Tenant.Scope>)
      requires Fits(env) && Keyed() && Resumed(env) && from < |env.seen|
      modifies this`sent, executor, env, store, registry
      ensures Fits(env) && Resumed(env) && env.Grew() && old(store.events) <= store.events
      ensures env.Deeds() == old(env.Deeds())
      ensures StoppedBy(old(env.struck), env.struck, CauseOf(error), None)
      ensures Routed(given, published.thread, env.seen, from, thread, error)
      ensures if error.None? then SentOnce(old(sent), sent, published, thread) else sent == old(sent)
      ensures old(env.Silent()) ==>
        && env.Silent() && env.Now() == old(env.Now()) && (error.Some? ==> error.value.NamespaceInvalid?)
        && thread == if hasBroadcaster && namespaceKeys.Some?
                     then LoneThread(env.Now(), given, published.thread) else given
    {
      if !hasBroadcaster { return None, given; }
      var path;
      path, thread := FindRoute(published.thread, given, env, from);
      if path.Err? { return Some(path.error), thread; }
      ghost var seen := env.seen;
      var fault := executor.Pause(env);
      if namespaceKeys.Some? { ThreadLater(seen, env.seen, from, from, given, published.thread, thread); }
      if fault.Some? { return Some(Stopped(fault.value)), thread; }
      sent := sent + [(path.value, published)];
      return None, thread;
    }

    /** How the broadcast ended: sent, or not without a broadcaster; else the thread has
        no namespace, or a fault struck. */
    ghost predicate Routed(
      given: Option<Tenant.Scope>, id: Id, seen: seq<World>, from: nat, thread: Option<Tenant.Scope>,
      error: Option<PublishError>)
    {
      && (given.Some? ==> thread == given)
      && match error
         case None =>
           if !hasBroadcaster then thread == given
           else if namespaceKeys.Some? then ThreadMet(seen, from, given, id, thread) else thread == given
         case Some(NamespaceInvalid(v)) =>
           && hasBroadcaster && namespaceKeys.Some? && thread.Some? && ThreadMet(seen, from, given, id, thread)
           && Namespace.Derive(thread.value, namespaceKeys) == Err(v)
         case Some(Stopped(_)) => hasBroadcaster
         case Some(_) => false
    }

    lemma RoutedLater(
      seen: seq<World>, later: seq<World>, from: nat, given: Option<Tenant.Scope>, id: Id,
      thread: Option<Tenant.Scope>)
      requires Routed(given, id, seen, from, thread, None) && seen <= later
      ensures Routed(given, id, later, from, thread, None)
    {
      if hasBroadcaster && namespaceKeys.Some? { ThreadLater(seen, later, from, from, given, id, thread); }
    }

    /** After the broadcast: the recipient loop, for a directed message whose thread
        exists. `given` is the thread passed to `publish_event`, `known` what the
        coroutine knows of it by now. */
    method Forward(
      e: Event, members: map<Id, bool>, ghost given: Option<Tenant.Scope>, known: Option<Tenant.Scope>,
      authorized: Id -> bool, env: Environment, ghost from: nat)
      returns (error: Option<PublishError>, ghost found: Option<Tenant.Scope>, ghost depth: nat, ghost turns: seq<Turn>)
      requires Fits(env) && Resumed(env) && from < |env.seen|
      requires known == given || ThreadMet(env.seen, from, given, e.thread, known)
      modifies executor, env, store, registry
      ensures Fits(env) && env.Grew() && old(store.events) <= store.events
      ensures Forwarded(given, e, members, authorized, env.seen, from, old(env.Deeds()), env.Deeds(), error,
                        found, depth, turns)
      ensures StoppedBy(old(env.struck), env.struck, CauseOf(error), OrphanOf(turns))
      ensures old(env.Silent()) ==>
        env.Silent() && error.None? && env.Now() == AfterForward(old(env.Now()), known, e, members, authorized)
    {
      error, found, depth, turns := None, None, 0, [];
      if !autoInvoke || !e.kind.Message? || e.recipients.None? { return; }
      ghost var before := env.seen;
      var thread := ReadThread(known, e.thread, env, from);
      if thread.Err? {
        error := Some(thread.error);
        return;
      }
      found := thread.value;
      if known.Some? { ThreadLater(before, env.seen, from, from, given, e.thread, known); }
      if thread.value.None? { return; }
      error, depth, turns := ForwardTo(e, members, authorized, env, from, given, found);
    }

    /** The recipient loop, for a directed message whose thread was found. */
    method ForwardTo(
      e: Event, members: map<Id, bool>, authorized: Id -> bool, env: Environment, ghost from: nat,
      ghost given: Option<Tenant.Scope>, ghost found: Option<Tenant.Scope>)
      returns (error: Option<PublishError>, ghost depth: nat, ghost turns: seq<Turn>)
      requires Fits(env) && Resumed(env) && from < |env.seen| && autoInvoke
      requires e.kind.Message? && e.recipients.Some?
      requires found.Some? && ThreadMet(env.seen, from, given, e.thread, found)
      modifies executor, env, store, registry
      ensures Fits(env) && env.Grew() && old(store.events) <= store.events
      ensures Forwarded(given, e, members, authorized, env.seen, from, old(env.Deeds()), env.Deeds(), error,
                        found, depth, turns)
      ensures StoppedBy(old(env.struck), env.struck, CauseOf(error), OrphanOf(turns))
      ensures old(env.Silent()) ==>
        && env.Silent() && error.None?
        && env.Now() == LoneInvocations(old(env.Now()), e, members, authorized)
    {
      ghost var read := env.seen;
      assert env.last == read[|read| - 1];
      error, depth, turns := AutoInvokeRecipients(e, members, authorized, env, from);
      MetLater(read, env.seen, from, given, e, found, depth);
    }

    /** What forwarding makes of the world when nobody interferes. */
    function AfterForward(
      w: World, known: Option<Tenant.Scope>, e: Event, members: map<Id, bool>, authorized: Id -> bool): World
    {
      if autoInvoke && e.kind.Message? && e.recipients.Some? && LoneThread(w, known, e.thread).Some?
      then LoneInvocations(w, e, members, authorized) else w
    }

    /** What `Forward` did: `found` is the thread it went by and `depth` the depth it
        read for the event's run. */
    ghost predicate Forwarded(
      given: Option<Tenant.Scope>, e: Event, members: map<Id, bool>, authorized: Id -> bool,
      seen: seq<World>, from: nat, start: seq<Deed>, deeds: seq<Deed>, error: Option<PublishError>,
      found: Option<Tenant.Scope>, depth: nat, turns: seq<Turn>)
    {
      var directed := autoInvoke && e.kind.Message? && e.recipients.Some?;
      if directed && found.Some? then
        && ThreadMet(seen, from, given, e.thread, found) && DepthMet(seen, from, e.run, depth)
        && Looped(e, members, authorized, depth, seen, from, start, deeds, turns, error)
      else
        && turns == [] && deeds == start
        && match error
           case None => directed ==> ThreadMet(seen, from, given, e.thread, None)
           case Some(Stopped(_)) => directed
           case Some(_) => false
    }

    /** Broadcast a logged event, and hand it to the recipient loop. */
    method Spread(
      e: Event, members: map<Id, bool>, given: Option<Tenant.Scope>, authorized: Id -> bool,
      env: Environment, ghost from: nat)
      returns (error: Option<PublishError>, ghost a: Account)
      requires Fits(env) && Keyed() && Resumed(env) && from < |env.seen|
      requires e.recipients.Some? ==> Admitted(env.seen, from, e, members)
      modifies this`sent, executor, env, store, registry
      ensures Fits(env) && env.Grew() && old(store.events) <= store.events
      ensures e.recipients.Some? ==> Admitted(env.seen, from, e, a.members)
      ensures Spreads(given, e, authorized, env.seen, from, old(env.Deeds()), env.Deeds(), old(sent), sent, error, a)
      ensures StoppedBy(old(env.struck), env.struck, CauseOf(error), OrphanOf(a.turns))
      ensures old(env.Silent()) ==>
        && env.Silent()
        && (error.None? <==> Routable(old(env.Now()), given, e.thread))
        && env.Now() == if error.None? then AfterForward(old(env.Now()), given, e, members, authorized)
                        else old(env.Now())
    {
      var thread;
      ghost var before := env.seen;
      error, thread := Broadcast(e, given, env, from);
      a := Account(None, members, thread, None, 0, []);
      if error.Some? {
        if e.recipients.Some? { AdmittedLater(before, env.seen, from, e, members); }
        return;
      }
      ghost var seen, found, depth, turns := env.seen, None, 0, [];
      error, found, depth, turns := Forward(e, members, given, thread, authorized, env, from);
      a := a.(found := found, depth := depth, turns := turns);
      RoutedLater(seen, env.seen, from, given, e.thread, thread);
      if e.recipients.Some? { AdmittedLater(before, env.seen, from, e, members); }
    }

    /** What happened after the append: the broadcast failed, or the event was sent and
        forwarded. */
    ghost predicate Spreads(
      given: Option<Tenant.Scope>, e: Event, authorized: Id -> bool, seen: seq<World>, from: nat,
      start: seq<Deed>, deeds: seq<Deed>, before: seq<(string, Event)>, after: seq<(string, Event)>,
      error: Option<PublishError>, a: Account)
    {
      || (&& error.Some? && Routed(given, e.thread, seen, from, a.route, error)
          && after == before && deeds == start && a.turns == [])
      || (&& Routed(given, e.thread, seen, from, a.route, None)
          && SentOnce(before, after, e, a.route)
          && Forwarded(given, e, a.members, authorized, seen, from, start, deeds, error, a.found, a.depth, a.turns))
    }

    /** The thread has a namespace to broadcast to, or nothing is broadcast. */
    predicate Routable(w: World, given: Option<Tenant.Scope>, id: Id) {
      hasBroadcaster && namespaceKeys.Some? && LoneThread(w, given, id).Some? ==>
        Namespace.Derive(LoneThread(w, given, id).value, namespaceKeys).Ok?
    }

    /** What a publication did. A refused event is neither logged nor sent, and invokes
        nobody. An accepted one is logged once, and stays logged whatever raises
        afterwards. */
    ghost predicate PublicationDid(
      given: Option<Tenant.Scope>, e: Event, authorized: Id -> bool, seen: seq<World>, from: nat,
      start: seq<Deed>, deeds: seq<Deed>, before: seq<(string, Event)>, after: seq<(string, Event)>,
      r: Result<Event, PublishError>, a: Account)
    {
      && (r.Ok? ==> r.value == e)
      && match a.logged
         case None =>
           && r.Err? && RefusedFor(seen, from, e, r.error)
           && after == before && deeds == start && a.turns == []
         case Some(d) =>
           && LogDeed(d, e) && (e.recipients.Some? ==> Admitted(seen, from, e, a.members))
           && Spreads(given, e, authorized, seen, from, start + [d], deeds, before, after, ErrorIn(r), a)
    }

    /** The world after an accepted publication that nobody interfered with. */
    function LonePublication(w: World, given: Option<Tenant.Scope>, e: Event, authorized: Id -> bool): World {
      var logged := WithEvent(w, e);
      if Routable(w, given, e.thread)
      then AfterForward(logged, given, e, MembersIn(w, e.thread), authorized)
      else logged
    }

    lemma LonePublishes(w: World, given: Option<Tenant.Scope>, e: Event, authorized: Id -> bool)
      ensures var logged := WithEvent(w, e);
        && (Routable(logged, given, e.thread) <==> Routable(w, given, e.thread))
        && LonePublication(w, given, e, authorized) ==
           if Routable(logged, given, e.thread)
           then AfterForward(logged, given, e, MembersIn(logged, e.thread), authorized) else logged
    {
    }

    /** The coroutine changes nothing but by logging the event and by the calls of
        `execute` that `a` accounts for. When nobody interferes, the event is logged
        exactly if it is acceptable, sent exactly if its thread is routable, and the
        recipients of a directed message get their runs. */
    method PublishEvent(event: Event, given: Option<Tenant.Scope>, authorized: Id -> bool, env: Environment)
      returns (r: Result<Event, PublishError>, ghost a: Account)
      requires Fits(env) && Keyed()
      modifies this`sent, executor, env, store, registry
      ensures Fits(env) && env.Grew() && old(store.events) <= store.events
      ensures PublicationDid(given, Normalized(event), authorized, env.seen, |old(env.seen)|,
                             old(env.Deeds()), env.Deeds(), old(sent), sent, r, a)
      ensures StoppedBy(old(env.struck), env.struck, CauseOf(ErrorIn(r)), OrphanOf(a.turns))
      ensures old(env.Silent()) ==>
        && (a.logged.Some? <==> Acceptable(old(env.Now()), Normalized(event)))
        && (r.Ok? <==> a.logged.Some? && Routable(old(env.Now()), given, event.thread))
        && env.Now() == if a.logged.Some?
                        then LonePublication(old(env.Now()), given, Normalized(event), authorized) else old(env.Now())
    {
      a := NOTHING;
      var logged := Log(event, env);
      if logged.Err? {
        r := Err(logged.error);
        return;
      }
      var (e, members) := logged.value;
      ghost var posted := Deed(env.last, env.Now());
      if env.Silent() { LonePublishes(old(env.Now()), given, e, authorized); }
      var error;
      error, a := Spread(e, members, given, authorized, env, |old(env.seen)|);
      a := a.(logged := Some(posted));
      r := if error.None? then Ok(e) else Err(error.value);
    }

  }
}
