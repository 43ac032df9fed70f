/** The executor object, in an event loop whose other coroutines may change anything
    they share with it, and interrupt it, at every await. */
module Executor {
  import opened Types
  import opened RunTable
  import opened Protocol
  import opened Store
  import opened EventLoop
  import opened Calls
  import opened Job
  import Exclusivity
  import Linearization
  import Trace

  // ----- the rest of the event loop -----

  /** The registered handlers, by assistant id. */
  class HandlerTable {
    var ids: set<Id>

    constructor ()
      ensures ids == {}
    {
      ids := {};
    }
  }

  /** At each await the next move takes effect. The moves are arbitrary, so they stand
      for every interleaving and every interruption.

      The ghost fields record the execution: `history` has the awaits, and the others
      are what it amounts to. The moves and the world at the start are constants, so
      whoever leaves the environment `Honest` cannot make up a fault or a move of the
      others, nor hide a deed of the coroutine. */
  class Environment {
    const store: PostgresThreadStore
    const executor: RunExecutor
    const registry: HandlerTable
    const moves: seq<Move>
    ghost const start: World
    var turn: nat
    ghost var history: seq<Suspension>
    ghost var seen: seq<World>
    ghost var struck: seq<Strike>
    ghost var deeds: seq<Deed>
    ghost var last: World

    constructor (executor: RunExecutor, registry: HandlerTable, moves: seq<Move>)
      ensures this.executor == executor && this.store == executor.store && this.registry == registry
      ensures this.moves == moves && turn == 0 && Honest() && seen == [] && struck == [] && Deeds() == []
    {
      this.executor, this.store, this.registry := executor, executor.store, registry;
      this.moves, turn, history, seen, struck, deeds := moves, 0, [], [], [], [];
      var store := executor.store;
      start := World(store.runs, store.events, store.members, store.threads, registry.ids, executor.tasks,
                     executor.chainDepths);
      last := start;
    }

    function Now(): World
      reads store, executor, registry
    {
      World(store.runs, store.events, store.members, store.threads, registry.ids, executor.tasks, executor.chainDepths)
    }

    /** All that the coroutine did itself. */
    ghost function Deeds(): seq<Deed>
      reads this, store, executor, registry
    {
      if Now() == last then deeds else deeds + [Deed(last, Now())]
    }

    ghost function See(): View
      reads this, store, executor, registry
    {
      View(Now(), Deeds(), seen, history)
    }

    /** `last` is the last world met. */
    ghost predicate Awaited()
      reads this
    {
      seen != [] && last == seen[|seen| - 1]
    }

    /** The records are those of awaits that followed the script. */
    ghost predicate Honest()
      reads this
    {
      turn == |history| && Replay(start, moves, history) == Some(Record(seen, struck, deeds, last))
    }

    ghost predicate Ready()
      reads this, store, executor, registry
    {
      executor.store == store && Sound(Now()) && Honest()
    }

    /** From now on nobody else moves and nothing fails. */
    ghost predicate Silent()
      reads this
    {
      |moves| <= turn
    }

    /** The records only grow. */
    twostate predicate Grew()
      reads this
    {
      old(history) <= history && old(seen) <= seen
    }

    method Await(mine: set<RunId>, ghost place: Place) returns (fault: Option<Cause>)
      requires Ready()
      modifies this, store, registry, executor`tasks, executor`chainDepths
      ensures Ready() && Allowed(old(Now()), Now(), mine) && Grew()
      ensures seen == old(seen) + [Now()] && last == Now()
      ensures deeds == old(Deeds()) && Deeds() == old(Deeds())
      ensures struck == old(struck) + StrikeAt(place, fault)
      ensures old(Silent()) ==> Silent() && fault.None? && Now() == old(Now())
    {
      ghost var before, following := Now(), Deeds();
      if turn < |moves| { LetOthersMove(mine, moves[turn].world); }
      fault := if turn < |moves| then moves[turn].fault else None;
      ghost var h := Suspension(before, mine, place, Now(), fault);
      ReplayNext(start, moves, history, h);
      turn, history := turn + 1, history + [h];
      seen, struck, deeds, last := seen + [Now()], struck + StrikeAt(place, fault), following, Now();
    }

    method LetOthersMove(mine: set<RunId>, next: World)
      requires executor.store == store && Sound(Now())
      modifies store, registry, executor`tasks, executor`chainDepths
      ensures Now() == if Allowed(old(Now()), next, mine) then next else old(Now())
    {
      if Allowed(Now(), next, mine) {
        store.runs, store.events, store.members, store.threads := next.runs, next.events, next.members, next.threads;
        registry.ids, executor.tasks, executor.chainDepths := next.handlers, next.tasks, next.depths;
      }
    }
  }

  datatype InvokeError = NoResolver | NotRegistered | NotAMember | Interrupted(cause: Cause)

  class RunExecutor {
    const store: PostgresThreadStore
    const resolver: Option<HandlerTable>
    var tasks: set<RunId>
    var chainDepths: map<RunId, nat>

    constructor (store: PostgresThreadStore, resolver: Option<HandlerTable>)
      ensures this.store == store && this.resolver == resolver && tasks == {} && chainDepths == map[]
    {
      this.store, this.resolver, tasks, chainDepths := store, resolver, {}, map[];
    }

    function ChainDepthFor(run: RunId): nat
      reads this
    {
      if run in chainDepths then chainDepths[run] else 0
    }

    ghost predicate Fits(env: Environment)
      reads env, this, store, env.registry
    {
      env.executor == this && env.store == store && env.Ready()
    }

    /** One await of a coroutine that is responsible for no row. */
    method Pause(env: Environment) returns (fault: Option<Cause>)
      requires Fits(env)
      modifies this, env, store, env.registry
      ensures Fits(env) && env.Grew() && env.seen == old(env.seen) + [env.Now()] && env.last == env.Now()
      ensures env.Deeds() == old(env.Deeds()) && old(store.events) <= store.events
      ensures env.struck == old(env.struck) + StrikeAt(Elsewhere, fault)
      ensures old(env.Silent()) ==> env.Silent() && fault.None? && env.Now() == old(env.Now())
    {
      fault := env.Await({}, Elsewhere);
    }

    /** One await of the coroutine that is responsible for the row `run`. */
    method Wait(run: RunId, env: Environment, ghost place: Place) returns (fault: Option<Cause>)
      requires Fits(env) && run < |store.runs|
      modifies this, env, store, env.registry
      ensures Fits(env) && env.Grew() && env.seen == old(env.seen) + [env.Now()] && env.last == env.Now()
      ensures env.Deeds() == old(env.Deeds()) && Grown()
      ensures env.struck == old(env.struck) + StrikeAt(place, fault)
      ensures run < |store.runs| && store.runs[run] == old(store.runs)[run] && Logged(run) == old(Logged(run))
      ensures run in tasks <==> run in old(tasks)
      ensures old(env.Silent()) ==> env.Silent() && fault.None? && env.Now() == old(env.Now())
    {
      fault := env.Await({run}, place);
    }

    /** The events of the run so far. */
    ghost function Logged(run: RunId): seq<Event>
      reads store
    {
      Trace.RunEvents(store.events, run)
    }

    /** Rows and log only grow. */
    twostate predicate Grown()
      reads store
    {
      Exclusivity.Evolves(old(store.runs), store.runs) && old(store.events) <= store.events
    }

    // ----- execute -----

    /** Whatever the others did between the steps, the result is justified by the
        worlds this call met, and a row that holds the key in the first of them is
        the result. The call itself changes nothing but what `CallDid` says, and a
        fault after the insert leaves the new row, pending and without a task. When
        nobody else moves, it is the lone call of the protocol. `CallMeaning` says what
        this comes to for the caller. */
    method Execute(thread: Id, assistant: Id, triggeredBy: Id, key: Option<string>, depth: nat, env: Environment)
      returns (result: Result<ExecResult, Cause>, ghost orphan: Option<RunId>)
      requires Fits(env)
      modifies this, env, store, env.registry
      ensures Fits(env) && env.Grew() && |env.seen| > |old(env.seen)| && env.Awaited()
      ensures old(store.events) <= store.events
      ensures var c := BeginCall(thread, assistant, triggeredBy, key, depth, 0);
        && (result.Ok? ==> Justified(env.seen, |old(env.seen)|, c, result.value))
        && CallLeft(c, env.last, env.Now(), result, orphan)
        && CallDid(old(env.Deeds()), env.Deeds(), c, result, orphan)
        && CallStruck(old(env.struck), env.struck, result, orphan)
        && (old(env.Silent()) ==> env.Silent() && CallAlone(c, old(env.Now()), env.Now(), result))
      ensures KeyDecides(env.seen[|old(env.seen)|].runs, thread, key, result)
    {
      ghost var c, lone, world := BeginCall(thread, assistant, triggeredBy, key, depth, 0), env.Silent(), env.Now();
      orphan := None;
      var found := Lookup(c, thread, assistant, key, env);
      ghost var from, met, first := |env.seen|, env.seen, env.seen[|old(env.seen)|].runs;
      if found.Err? { return Err(found.error), None; }
      if found.value.Some? {
        MatchesAt(env.seen, |old(env.seen)|, |env.seen| - 1, c, found.value.value);
        if lone { FoundAlone(c, world, found.value.value); }
        return Ok(Existing(found.value.value)), None;
      }
      assert lone ==> env.Now() == world && LookedUp(world.runs, thread, assistant, key).None?;
      assert !Truthy(key) || FindByKey(first, thread, key.value).None?;
      result, orphan := Insert(c, thread, assistant, triggeredBy, key, depth, env);
      assert env.seen[|old(env.seen)|] == met[|old(env.seen)|];
      if result.Ok? { JustifiedEarlier(env.seen, from, |old(env.seen)|, c, result.value); }
    }

    /** The insert, and the start of the driver if it succeeds. */
    method Insert(
      ghost c: Call, thread: Id, assistant: Id, triggeredBy: Id, key: Option<string>, depth: nat, env: Environment)
      returns (result: Result<ExecResult, Cause>, ghost orphan: Option<RunId>)
      requires Fits(env) && env.last == env.Now()
      requires c == BeginCall(thread, assistant, triggeredBy, key, depth, 0)
      modifies this, env, store, env.registry
      ensures Fits(env) && env.Grew() && |env.seen| > |old(env.seen)| && env.Awaited()
      ensures old(store.events) <= store.events
      ensures result.Ok? ==> Justified(env.seen, |old(env.seen)|, c, result.value)
      ensures CallLeft(c, env.last, env.Now(), result, orphan)
      ensures CallDid(old(env.Deeds()), env.Deeds(), c, result, orphan)
      ensures CallStruck(old(env.struck), env.struck, result, orphan)
      ensures old(env.Silent()) && LookedUp(old(store.runs), thread, assistant, key).None? ==>
        env.Silent() && CallAlone(c, old(env.Now()), env.Now(), result)
    {
      var fault := Pause(env);
      if fault.Some? { return Err(fault.value), None; }
      result, orphan := InsertRow(c, thread, assistant, triggeredBy, key, depth, env);
    }

    /** The statement itself, in the world that the await left. */
    method InsertRow(
      ghost c: Call, thread: Id, assistant: Id, triggeredBy: Id, key: Option<string>, depth: nat, env: Environment)
      returns (result: Result<ExecResult, Cause>, ghost orphan: Option<RunId>)
      requires Fits(env) && env.last == env.Now() && env.Awaited()
      requires c == BeginCall(thread, assistant, triggeredBy, key, depth, 0)
      modifies this, env, store, env.registry
      ensures Fits(env) && env.Grew() && env.Awaited()
      ensures old(store.events) <= store.events
      ensures result.Ok? ==> Justified(env.seen, |old(env.seen)| - 1, c, result.value)
      ensures CallLeft(c, env.last, env.Now(), result, orphan)
      ensures CallDid(old(env.Deeds()), env.Deeds(), c, result, orphan)
      ensures CallStruck(old(env.struck), env.struck, result, orphan)
      ensures old(env.Silent()) && LookedUp(old(store.runs), thread, assistant, key).None? ==>
        env.Silent() && CallAlone(c, old(env.Now()), env.Now(), result)
    {
      orphan := None;
      ghost var attempt := |env.seen| - 1;
      var inserted := store.CreateRun(Run(thread, assistant, triggeredBy, key, Pending, None, None));
      if inserted.Err? {
        result := Recover(c, thread, assistant, key, env, attempt);
        return;
      }
      var run := inserted.value;
      var fault := Start(c, run, depth, env);
      if fault.Some? { return Err(fault.value), Some(run); }
      CreatedAt(env.seen, attempt, attempt, c, run);
      return Ok(Created(run)), None;
    }

    /** The insert returns, and the driver is started. */
    method Start(ghost c: Call, run: RunId, depth: nat, env: Environment) returns (fault: Option<Cause>)
      requires Fits(env) && run < |store.runs| && depth == c.depth
      requires InsertDeed(Deed(env.last, env.Now()), c, run) && Sound(env.last)
      modifies this, env, store, env.registry
      ensures Fits(env) && |env.seen| == |old(env.seen)| + 1 && env.Grew()
      ensures old(store.events) <= store.events && env.Awaited()
      ensures var result := if fault.Some? then Err(fault.value) else Ok(Created(run));
        var orphan := if fault.Some? then Some(run) else None;
        && CallLeft(c, env.last, env.Now(), result, orphan)
        && CallDid(old(env.deeds), env.Deeds(), c, result, orphan)
        && CallStruck(old(env.struck), env.struck, result, orphan)
      ensures old(env.Silent()) ==>
        env.Silent() && fault.None? && env.Now() == Started(old(env.last), c)
    {
      assert run !in tasks && env.Now() != env.last;
      fault := Wait(run, env, AtStart(run));
      if fault.Some? { return; }
      chainDepths := chainDepths[run := depth];
      tasks := tasks + {run};
      assert run in tasks && run !in env.last.tasks;
    }

    /** An await, and then the row that holds the key. */
    method ByKey(thread: Id, key: string, env: Environment) returns (found: Result<Option<RunId>, Cause>)
      requires Fits(env)
      modifies this, env, store, env.registry
      ensures Fits(env) && env.Grew() && env.seen == old(env.seen) + [env.Now()] && env.last == env.Now()
      ensures old(store.events) <= store.events && env.Deeds() == old(env.Deeds())
      ensures env.struck == old(env.struck) + if found.Err? then [Strike(Elsewhere, found.error)] else []
      ensures found.Ok? ==> found.value == FindByKey(env.last.runs, thread, key)
      ensures old(env.Silent()) ==> env.Silent() && found.Ok? && env.Now() == old(env.Now())
    {
      var fault := Pause(env);
      if fault.Some? { return Err(fault.value); }
      var row := store.FindRunByIdempotencyKey(thread, key);
      return Ok(row);
    }

    /** An await, and then the active row of the pair. */
    method Active(thread: Id, assistant: Id, env: Environment) returns (found: Result<Option<RunId>, Cause>)
      requires Fits(env)
      modifies this, env, store, env.registry
      ensures Fits(env) && env.Grew() && env.seen == old(env.seen) + [env.Now()] && env.last == env.Now()
      ensures old(store.events) <= store.events && env.Deeds() == old(env.Deeds())
      ensures env.struck == old(env.struck) + if found.Err? then [Strike(Elsewhere, found.error)] else []
      ensures found.Ok? ==> found.value == FindActive(env.last.runs, thread, assistant)
      ensures old(env.Silent()) ==> env.Silent() && found.Ok? && env.Now() == old(env.Now())
    {
      var fault := Pause(env);
      if fault.Some? { return Err(fault.value); }
      var row := store.FindActiveRun(thread, assistant);
      return Ok(row);
    }

    /** The two lookups before the insert: by key if it is truthy, then for an active run. */
    method Lookup(ghost c: Call, thread: Id, assistant: Id, key: Option<string>, env: Environment)
      returns (found: Result<Option<RunId>, Cause>)
      requires Fits(env)
      requires c.thread == thread && c.assistant == assistant && c.key == key
      modifies this, env, store, env.registry
      ensures Fits(env) && env.Grew() && |env.seen| > |old(env.seen)| && env.Now() == env.last && env.Awaited()
      ensures old(store.events) <= store.events && env.Deeds() == old(env.Deeds())
      ensures env.struck == old(env.struck) + if found.Err? then [Strike(Elsewhere, found.error)] else []
      ensures found.Ok? && found.value.Some? ==>
        Linearization.Matches(env.last.runs, c, found.value.value)
      ensures var first := env.seen[|old(env.seen)|].runs;
        Truthy(key) && FindByKey(first, thread, key.value).Some? ==>
          found.Err? || found.value == FindByKey(first, thread, key.value)
      ensures old(env.Silent()) ==>
        && env.Silent() && env.Now() == old(env.Now())
        && found == Ok(LookedUp(env.last.runs, thread, assistant, key))
    {
      if key.Some? && key.value != "" {
        found := ByKey(thread, key.value, env);
        if found.Err? { return; }
        if found.value.Some? { return; }
      }
      found := Active(thread, assistant, env);
    }

    /** The handler of the unique violation. `attempt` is the world that refused the row. */
    method Recover(ghost c: Call, thread: Id, assistant: Id, key: Option<string>, env: Environment, ghost attempt: nat)
      returns (result: Result<ExecResult, Cause>)
      requires Fits(env)
      requires c.thread == thread && c.assistant == assistant && c.key == key
      requires attempt < |env.seen| && !Admits(env.seen[attempt].runs, NewRow(c))
      modifies this, env, store, env.registry
      ensures Fits(env) && env.Grew() && |env.seen| > |old(env.seen)| && env.Now() == env.last && env.Awaited()
      ensures old(store.events) <= store.events && env.Deeds() == old(env.Deeds())
      ensures env.struck == old(env.struck) + if result.Err? then [Strike(Elsewhere, result.error)] else []
      ensures result.Ok? ==> !result.value.Created? && Justified(env.seen, attempt, c, result.value)
      ensures old(env.Silent()) ==> env.Silent() && result.Ok? && env.Now() == old(env.Now())
      ensures old(env.Silent()) && LookedUp(old(store.runs), thread, assistant, key).None? ==>
        result == Ok(UniqueViolation)
    {
      var found := LookAgain(c, thread, assistant, key, env);
      if found.Err? { return Err(found.error); }
      if found.value.Some? {
        MatchesAt(env.seen, attempt, |env.seen| - 1, c, found.value.value);
        return Ok(Existing(found.value.value));
      }
      RaisesAt(env.seen, attempt, attempt, |old(env.seen)|, |env.seen| - 1, c);
      return Ok(UniqueViolation);
    }

    /** The two lookups after a refused insert: for an active run, then by key if it is
        truthy. */
    method LookAgain(ghost c: Call, thread: Id, assistant: Id, key: Option<string>, env: Environment)
      returns (found: Result<Option<RunId>, Cause>)
      requires Fits(env)
      requires c.thread == thread && c.assistant == assistant && c.key == key
      modifies this, env, store, env.registry
      ensures Fits(env) && env.Grew() && |env.seen| > |old(env.seen)| && env.Now() == env.last && env.Awaited()
      ensures old(store.events) <= store.events && env.Deeds() == old(env.Deeds())
      ensures env.struck == old(env.struck) + if found.Err? then [Strike(Elsewhere, found.error)] else []
      ensures found.Ok? && found.value.Some? ==> Linearization.Matches(env.last.runs, c, found.value.value)
      ensures found == Ok(None) ==>
        && Linearization.NoActive(env.seen[|old(env.seen)|].runs, c)
        && (Truthy(key) ==> Linearization.NoKey(env.last.runs, c))
      ensures old(env.Silent()) ==>
        && env.Silent() && found.Ok? && env.Now() == old(env.Now())
        && (LookedUp(env.last.runs, thread, assistant, key).None? ==> found.value.None?)
    {
      found := Active(thread, assistant, env);
      if found.Ok? && found.value.None? && key.Some? && key.value != "" {
        found := ByKey(thread, key.value, env);
      }
    }

    /** `ctx.invoke`: an assistant that is not registered when asked, or not an
        assistant member in the world the member read met, is an error. Otherwise a
        keyless call that starts a new chain at depth 0. */
    method InvokeFromHandler(thread: Id, triggeredBy: Id, assistant: Id, env: Environment)
      returns (r: Result<ExecResult, InvokeError>, ghost orphan: Option<RunId>)
      requires Fits(env)
      requires resolver.Some? ==> resolver.value == env.registry
      modifies this, env, store, env.registry
      ensures Fits(env) && env.Grew()
      ensures r == Err(NoResolver) <==> resolver.None?
      ensures r == Err(NotRegistered) <==> resolver.Some? && assistant !in old(env.registry.ids)
      ensures r.Err? && !r.error.Interrupted? ==> env.Deeds() == old(env.Deeds()) && env.struck == old(env.struck)
      ensures r.Ok? || r.error.NotAMember? ==>
        && |env.seen| > |old(env.seen)|
        && var met := env.seen[|old(env.seen)|].members;
           var members := if thread in met then met[thread] else map[];
           r.Ok? <==> assistant in members && members[assistant]
      ensures var c := BeginCall(thread, assistant, triggeredBy, None, 0, 0);
        match r
        case Ok(result) =>
          && Justified(env.seen, |old(env.seen)|, c, result)
          && CallDid(old(env.Deeds()), env.Deeds(), c, Ok(result), orphan)
          && CallStruck(old(env.struck), env.struck, Ok(result), orphan)
        case Err(Interrupted(cause)) =>
          && CallDid(old(env.Deeds()), env.Deeds(), c, Err(cause), orphan)
          && CallStruck(old(env.struck), env.struck, Err(cause), orphan)
        case Err(_) => true
    {
      orphan := None;
      if resolver.None? { return Err(NoResolver), None; }
      if assistant !in resolver.value.ids { return Err(NotRegistered), None; }
      var fault := Pause(env);
      if fault.Some? { return Err(Interrupted(fault.value)), None; }
      var members := store.MembersOf(thread);
      if assistant !in members || !members[assistant] { return Err(NotAMember), None; }
      ghost var from := |env.seen|;
      var result;
      result, orphan := Execute(thread, assistant, triggeredBy, None, 0, env);
      if result.Err? { return Err(Interrupted(result.error)), orphan; }
      JustifiedEarlier(env.seen, from, |old(env.seen)|, BeginCall(thread, assistant, triggeredBy, None, 0, 0),
                       result.value);
      return Ok(result.value), orphan;
    }

    // ----- the driver -----

    /** The run's row, and exactly these drafts in the log. */
    ghost predicate Holding(w: Assignment, row: Run, drafts: seq<Draft>)
      reads store
    {
      && w.run < |store.runs| && store.runs[w.run] == row
      && row.thread == w.row.thread && row.assistant == w.row.assistant
      && Logged(w.run) == EventsOf(w.row, w.run, drafts)
    }

    /** Nobody else moves, nothing fails, and the drafts still to come have fresh ids. */
    ghost predicate Quiet(env: Environment, pending: seq<Draft>)
      reads env, store
    {
      env.Silent() && FreshIds(pending, store.events)
    }

    /** One await of the driver. */
    method DriverWait(w: Assignment, env: Environment, ghost place: Place, ghost row: Run, ghost drafts: seq<Draft>)
      returns (fault: Option<Cause>)
      requires Fits(env) && Holding(w, row, drafts)
      modifies this, env, store, env.registry
      ensures Fits(env) && Holding(w, row, drafts) && Acts(w.run, old(env.See()), env.See())
      ensures env.Grew() && env.seen == old(env.seen) + [env.Now()] && env.last == env.Now()
      ensures env.struck == old(env.struck) + StrikeAt(place, fault)
      ensures old(env.Silent()) ==> env.Silent() && fault.None? && env.Now() == old(env.Now())
    {
      fault := Wait(w.run, env, place);
    }

    /** `publish_event`, as far as the driver can tell: it may raise before or after
        the event is logged. `rest` are the drafts that come after this one. */
    method Publish(
      w: Assignment, d: Draft, env: Environment,
      ghost phase: Phase, ghost row: Run, ghost drafts: seq<Draft>, ghost rest: seq<Draft>)
      returns (fault: Option<Cause>, ghost h: Option<Hit>, ghost logged: bool)
      requires Fits(env) && Holding(w, row, drafts)
      modifies this, env, store, env.registry
      ensures Fits(env) && Holding(w, row, if logged then drafts + [d] else drafts)
      ensures Acts(w.run, old(env.See()), env.See())
      ensures HitOf(h, fault, phase, logged, d.stamp.id, env.seen, |old(env.seen)|)
      ensures env.struck == old(env.struck) + StrikesOf(h)
      ensures old(Quiet(env, [d] + rest)) ==> Quiet(env, rest) && fault.None?
    {
      logged := false;
      fault, h := LogEvent(w, d, env, phase, row, drafts, rest);
      if fault.Some? { return; }
      logged := true;
      ghost var recorded := env.See();
      fault := DriverWait(w, env, AtDriver(phase, true), row, drafts + [d]);
      ActsTwice(w.run, old(env.See()), recorded, env.See());
      if fault.Some? { h := Some(Hit(phase, true, fault.value, Delivered)); }
    }

    /** An await, and then the insert of the event. */
    method LogEvent(
      w: Assignment, d: Draft, env: Environment,
      ghost phase: Phase, ghost row: Run, ghost drafts: seq<Draft>, ghost rest: seq<Draft>)
      returns (fault: Option<Cause>, ghost h: Option<Hit>)
      requires Fits(env) && Holding(w, row, drafts)
      modifies this, env, store, env.registry
      ensures Fits(env) && Holding(w, row, if fault.None? then drafts + [d] else drafts)
      ensures Acts(w.run, old(env.See()), env.See())
      ensures HitOf(h, fault, phase, fault.None?, d.stamp.id, env.seen, |old(env.seen)|)
      ensures env.struck == old(env.struck) + StrikesOf(h)
      ensures old(Quiet(env, [d] + rest)) ==> Quiet(env, rest) && fault.None?
    {
      h := None;
      fault := DriverWait(w, env, AtDriver(phase, false), row, drafts);
      if fault.Some? {
        h := Some(Hit(phase, false, fault.value, Delivered));
        return;
      }
      ghost var waited := env.See();
      var appended := Append(w, d, env, row, drafts, rest);
      ActsTwice(w.run, old(env.See()), waited, env.See());
      if !appended {
        assert IdUsed(env.seen[|old(env.seen)|], d.stamp.id);
        return Some(Raised), Some(Hit(phase, false, Raised, Refused));
      }
    }

    /** The insert of one event; it fails exactly when the id is used. */
    method Append(
      w: Assignment, d: Draft, env: Environment, ghost row: Run, ghost drafts: seq<Draft>, ghost rest: seq<Draft>)
      returns (ok: bool)
      requires Fits(env) && Holding(w, row, drafts) && env.last == env.Now()
      modifies store`events
      ensures Fits(env) && Holding(w, row, if ok then drafts + [d] else drafts)
      ensures Acts(w.run, old(env.See()), env.See())
      ensures ok <==> !IdUsed(old(env.Now()), d.stamp.id)
      ensures old(Quiet(env, [d] + rest)) ==> ok && Quiet(env, rest)
    {
      var event := EventOf(store.runs[w.run], w.run, d);
      if Quiet(env, [d] + rest) { FreshNext(d, rest, store.events, event); }
      Trace.RunEventsOfAppend(store.events, event, w.run);
      assert EventsOf(w.row, w.run, drafts + [d]) == EventsOf(w.row, w.run, drafts) + [event];
      ghost var before := env.See();
      var appended := store.AppendEvent(event);
      ok := appended.Ok?;
      if ok { AppendActs(w.run, before, env.See(), event); }
    }

    /** An await, and then the status write of the run's own row. */
    method WriteStatus(
      w: Assignment, status: Status, error: Option<ErrorCode>, at: int, env: Environment,
      ghost phase: Phase, ghost row: Run, ghost drafts: seq<Draft>, ghost pending: seq<Draft>)
      returns (fault: Option<Cause>)
      requires Fits(env) && Holding(w, row, drafts)
      requires Rank(row.status) <= Rank(status) && (IsActive(status) ==> IsActive(row.status))
      modifies this, env, store, env.registry
      ensures Fits(env) && Acts(w.run, old(env.See()), env.See())
      ensures Holding(w, if fault.None? then WithStatus(row, status, error, at) else row, drafts)
      ensures env.struck == old(env.struck) + StrikeAt(AtDriver(phase, false), fault)
      ensures old(Quiet(env, pending)) ==> Quiet(env, pending) && fault.None?
    {
      fault := DriverWait(w, env, AtDriver(phase, false), row, drafts);
      if fault.Some? { return; }
      ghost var waited := env.See();
      var updated := store.UpdateRunStatus(w.run, status, error, at);
      WriteActs(w.run, waited, env.See(), status, error, at);
      ActsTwice(w.run, old(env.See()), waited, env.See());
    }

    /** Write a final status and publish its event. */
    method EndRun(
      w: Assignment, guarded: bool, status: Status, error: Option<ErrorCode>, stamp: Stamp, env: Environment,
      ghost row: Run, ghost drafts: seq<Draft>, ghost rest: seq<Draft>)
      returns (fault: Option<Cause>, ghost h: Option<Hit>, ghost wrote: bool, ghost logged: bool)
      requires Fits(env) && Holding(w, row, drafts) && !IsActive(status)
      modifies this, env, store, env.registry
      ensures Fits(env) && Acts(w.run, old(env.See()), env.See())
      ensures Holding(w, if wrote then WithStatus(row, status, error, stamp.createdAt) else row,
                      if logged then drafts + [LifecycleDraft(TerminalKind(status), stamp)] else drafts)
      ensures env.struck == old(env.struck) + StrikesOf(h)
      ensures if wrote then HitOf(h, fault, Ending(guarded, status), logged, stamp.id, env.seen, |old(env.seen)|)
              else
                && fault.Some? && !logged
                && h == Some(Hit(Writing(guarded, status, error), false, fault.value, Delivered))
      ensures wrote ==> store.runs[w.run].status == status && store.runs[w.run].error == error
      ensures logged ==> EndedBy(w.run, stamp) && EndMatches(w.run, status)
      ensures old(Quiet(env, [LifecycleDraft(TerminalKind(status), stamp)] + rest)) ==> Quiet(env, rest) && fault.None?
    {
      h, wrote, logged := None, false, false;
      fault := WriteStatus(w, status, error, stamp.createdAt, env, Writing(guarded, status, error), row, drafts,
                           [LifecycleDraft(TerminalKind(status), stamp)] + rest);
      if fault.Some? {
        h := Some(Hit(Writing(guarded, status, error), false, fault.value, Delivered));
        return;
      }
      wrote := true;
      ghost var written, from := env.See(), |env.seen|;
      fault, h, logged := Publish(w, LifecycleDraft(TerminalKind(status), stamp), env, Ending(guarded, status),
                                  WithStatus(row, status, error, stamp.createdAt), drafts, rest);
      ActsTwice(w.run, old(env.See()), written, env.See());
      HitEarlier(h, fault, Ending(guarded, status), logged, stamp.id, env.seen, from, |old(env.seen)|);
      if logged { EndLogged(w, WithStatus(row, status, error, stamp.createdAt), drafts, status, stamp); }
    }

    lemma EndLogged(w: Assignment, row: Run, drafts: seq<Draft>, status: Status, stamp: Stamp)
      requires Holding(w, row, drafts + [LifecycleDraft(TerminalKind(status), stamp)]) && !IsActive(status)
      ensures EndedBy(w.run, stamp) && EndMatches(w.run, status)
    {
      EventsAreSigned(w.row, w.run, drafts + [LifecycleDraft(TerminalKind(status), stamp)]);
    }

    /** The last event of the run has this stamp. */
    ghost predicate EndedBy(run: RunId, stamp: Stamp)
      reads store
    {
      var es := Logged(run);
      es != [] && es[|es| - 1].id == stamp.id && es[|es| - 1].createdAt == stamp.createdAt
    }

    /** The last event of the run is the terminal one for this status. */
    ghost predicate EndMatches(run: RunId, status: Status)
      reads store
    {
      var es := Logged(run);
      && es != []
      && match status
         case Completed => es[|es| - 1].kind.RunCompleted?
         case Failed => es[|es| - 1].kind.RunFailed?
         case Cancelled => es[|es| - 1].kind.RunCancelled?
         case _ => false
    }

    /** Row, last event and task are those of this line of the table of outcomes. */
    ghost predicate EndsInTable(w: Assignment, outcome: Option<Cause>, raised: Option<Cause>)
      reads store
    {
      var es := Logged(w.run);
      && w.run < |store.runs| && es != []
      && Trace.EndsAs(outcome, store.runs[w.run], es[|es| - 1].kind)
      && (raised.None? <==> outcome.None? || outcome == Some(RaisedTimeout) || outcome == Some(DeadlinePassed))
      && (raised.Some? ==> raised == outcome)
    }

    lemma LeftInTable(w: Assignment, hits: Hits, n: nat)
      requires Possible(w, hits, n) && n <= |w.drafts| && hits.clause.None? && hits.cleanup.None?
      requires Holding(w, RowLeft(w, hits), DraftsLeft(w, hits, n))
      ensures EndsInTable(w, OutcomeOf(hits), RaisedBy(hits))
      ensures EndedBy(w.run, if hits.body.None? then w.completed else w.ended)
    {
      LeftTable(w, hits, n);
      EventsAreSigned(w.row, w.run, DraftsLeft(w, hits, n));
    }

    /** Publishing `run.started` failed. */
    lemma StartFailed(w: Assignment, h: Hit, cause: Cause, logged: bool, seen: seq<World>, from: nat, from': nat)
      requires HitOf(Some(h), Some(cause), Announcing, logged, w.started.id, seen, from) && from' <= from
      requires Holding(w, RunningRow(w), if logged then [StartDraft(w)] else [])
      ensures TriedAs(w, h, 0, cause, seen, from')
    {
      HitEarlier(Some(h), Some(cause), Announcing, logged, w.started.id, seen, from, from');
    }

    /** The start of the `try` block: write status running and publish `run.started`. */
    method Announce(w: Assignment, env: Environment, ghost rest: seq<Draft>)
      returns (fault: Option<Cause>, ghost h: Option<Hit>)
      requires Fits(env) && Holding(w, w.row, []) && w.row.status.Pending?
      modifies this, env, store, env.registry
      ensures Fits(env) && Acts(w.run, old(env.See()), env.See())
      ensures env.struck == old(env.struck) + StrikesOf(h)
      ensures if fault.None? then h.None? && Holding(w, RunningRow(w), [StartDraft(w)])
              else
                && h.Some? && TriedAs(w, h.value, 0, fault.value, env.seen, |old(env.seen)|)
                && (h.value.phase.Starting? || h.value.phase.Announcing?)
      ensures old(Quiet(env, [StartDraft(w)] + rest)) ==> Quiet(env, rest) && fault.None?
    {
      h := None;
      fault := WriteStatus(w, Running, None, w.started.createdAt, env, Starting, w.row, [], [StartDraft(w)] + rest);
      if fault.Some? {
        h := Some(Hit(Starting, false, fault.value, Delivered));
        return;
      }
      ghost var written, from, logged := env.See(), |env.seen|, false;
      assert [] + [StartDraft(w)] == [StartDraft(w)];
      fault, h, logged := Publish(w, StartDraft(w), env, Announcing, RunningRow(w), [], rest);
      ActsTwice(w.run, old(env.See()), written, env.See());
      if fault.Some? { StartFailed(w, h.value, fault.value, logged, env.seen, from, |old(env.seen)|); }
    }

    /** The `try` block ended with this hit, and left what it says. */
    ghost predicate TriedAs(w: Assignment, h: Hit, n: nat, cause: Cause, seen: seq<World>, from: nat)
      reads store
    {
      && h.cause == cause && BodyFits(w, h, n) && RefusalFits(Some(h))
      && Holding(w, RowTried(w, Some(h)), DraftsTried(w, Some(h), n))
      && RefusalTrue(Some(h), w, n, seen, from)
    }

    /** Publishing yield `i` failed; `n` yields are logged. */
    lemma YieldFailed(
      w: Assignment, h: Hit, i: nat, n: nat, cause: Cause, logged: bool, seen: seq<World>, from: nat, from': nat)
      requires i < |w.drafts| && n == (if logged then i + 1 else i) && from' <= from
      requires HitOf(Some(h), Some(cause), Consuming(map[]), logged, w.drafts[i].stamp.id, seen, from)
      requires Holding(w, RunningRow(w), [StartDraft(w)] + w.drafts[..n])
      ensures TriedAs(w, h, n, cause, seen, from')
    {
      HitEarlier(Some(h), Some(cause), Consuming(map[]), logged, w.drafts[i].stamp.id, seen, from, from');
    }

    /** The loop over the handler's events, ended by a fault or by the handler. */
    method Consume(w: Assignment, env: Environment, ghost rest: seq<Draft>)
      returns (fault: Option<Cause>, ghost h: Option<Hit>, ghost n: nat)
      requires Fits(env) && Holding(w, RunningRow(w), [StartDraft(w)])
      modifies this, env, store, env.registry
      ensures Fits(env) && Acts(w.run, old(env.See()), env.See()) && n <= |w.drafts|
      ensures Holding(w, RunningRow(w), [StartDraft(w)] + w.drafts[..n])
      ensures env.struck == old(env.struck) + StrikesOf(h)
      ensures if fault.None? then h.None? && n == |w.drafts| && w.outcome.None?
              else
                && h.Some? && h.value.phase.Consuming? && TriedAs(w, h.value, n, fault.value, env.seen, |old(env.seen)|)
      ensures old(Quiet(env, w.drafts + rest)) ==>
        && Quiet(env, rest) && fault == w.outcome && (h.Some? ==> h.value.source.Own?)
    {
      ghost var quiet, start, phase := Quiet(env, w.drafts + rest), env.See(), Consuming(map[]);
      h, n := None, 0;
      AllSlices(w.drafts);
      assert [StartDraft(w)] + [] == [StartDraft(w)];
      for i := 0 to |w.drafts|
        invariant n == i && h.None? && Fits(env) && env.struck == old(env.struck)
        invariant Acts(w.run, start, env.See())
        invariant Holding(w, RunningRow(w), [StartDraft(w)] + w.drafts[..i])
        invariant quiet ==> Quiet(env, w.drafts[i..] + rest)
      {
        ghost var view, from, logged := env.See(), |env.seen|, false;
        NextDraft(StartDraft(w), w.drafts, i, rest);
        fault, h, logged := Publish(w, w.drafts[i], env, phase, RunningRow(w), [StartDraft(w)] + w.drafts[..i],
                                    w.drafts[i + 1..] + rest);
        ActsTwice(w.run, start, view, env.See());
        if logged { n := i + 1; }
        if fault.Some? {
          YieldFailed(w, h.value, i, n, fault.value, logged, env.seen, from, |old(env.seen)|);
          return;
        }
      }
      assert w.drafts[|w.drafts|..] + rest == rest;
      fault := w.outcome;
      if fault.Some? { h := Some(Hit(phase, false, fault.value, Own)); }
    }

    /** Completing the run failed. */
    lemma CompletionFailed(
      w: Assignment, h: Hit, cause: Cause, wrote: bool, logged: bool, seen: seq<World>, from: nat, from': nat)
      requires w.outcome.None? && from' <= from
      requires if wrote then HitOf(Some(h), Some(cause), Ending(true, Completed), logged, w.completed.id, seen, from)
               else h == Hit(Writing(true, Completed, None), false, cause, Delivered) && !logged
      requires var logs := [StartDraft(w)] + w.drafts;
        Holding(w, if wrote then CompletedRow(w) else RunningRow(w),
                if logged then logs + [CompletionDraft(w)] else logs)
      ensures TriedAs(w, h, |w.drafts|, cause, seen, from')
    {
      AllSlices(w.drafts);
      if wrote { HitEarlier(Some(h), Some(cause), Ending(true, Completed), logged, w.completed.id, seen, from, from'); }
    }

    /** Consume the handler and complete the run. */
    method Proceed(w: Assignment, env: Environment, ghost rest: seq<Draft>)
      returns (fault: Option<Cause>, ghost h: Option<Hit>, ghost n: nat)
      requires Fits(env) && Holding(w, RunningRow(w), [StartDraft(w)])
      modifies this, env, store, env.registry
      ensures Fits(env) && Acts(w.run, old(env.See()), env.See()) && n <= |w.drafts|
      ensures env.struck == old(env.struck) + StrikesOf(h)
      ensures TryEnded(w, fault, h, n, env.seen, |old(env.seen)|)
      ensures old(Quiet(env, w.drafts + ([CompletionDraft(w)] + rest))) ==>
        && fault == w.outcome && (h.Some? ==> h.value.source.Own?)
        && Quiet(env, if w.outcome.None? then rest else [CompletionDraft(w)] + rest)
    {
      fault, h, n := Consume(w, env, [CompletionDraft(w)] + rest);
      if fault.Some? { return; }
      AllSlices(w.drafts);
      ghost var consumed, from, wrote, logged := env.See(), |env.seen|, false, false;
      fault, h, wrote, logged := EndRun(w, true, Completed, None, w.completed, env,
                                        RunningRow(w), [StartDraft(w)] + w.drafts, rest);
      ActsTwice(w.run, old(env.See()), consumed, env.See());
      if fault.Some? { CompletionFailed(w, h.value, fault.value, wrote, logged, env.seen, from, |old(env.seen)|); }
    }

    /** How the `try` block ended. */
    ghost predicate TryEnded(
      w: Assignment, fault: Option<Cause>, h: Option<Hit>, n: nat, seen: seq<World>, from: nat)
      requires n <= |w.drafts|
      reads store
    {
      match fault
      case None => h.None? && n == |w.drafts| && w.outcome.None? && Holding(w, CompletedRow(w), DraftsTried(w, None, n))
      case Some(cause) => h.Some? && TriedAs(w, h.value, n, cause, seen, from)
    }

    /** The `try` block: announce the run, consume the handler, complete the run. */
    method Try(w: Assignment, env: Environment, ghost rest: seq<Draft>)
      returns (fault: Option<Cause>, ghost h: Option<Hit>, ghost n: nat)
      requires Fits(env) && Holding(w, w.row, []) && w.row.status.Pending?
      modifies this, env, store, env.registry
      ensures Fits(env) && Acts(w.run, old(env.See()), env.See()) && n <= |w.drafts|
      ensures env.struck == old(env.struck) + StrikesOf(h)
      ensures TryEnded(w, fault, h, n, env.seen, |old(env.seen)|)
      ensures old(Quiet(env, [StartDraft(w)] + (w.drafts + ([CompletionDraft(w)] + rest)))) ==>
        && fault == w.outcome && (h.Some? ==> h.value.source.Own?)
        && Quiet(env, if w.outcome.None? then rest else [CompletionDraft(w)] + rest)
    {
      n := 0;
      fault, h := Announce(w, env, w.drafts + ([CompletionDraft(w)] + rest));
      if fault.Some? { return; }
      ghost var announced, from := env.See(), |env.seen|;
      fault, h, n := Proceed(w, env, rest);
      ActsTwice(w.run, old(env.See()), announced, env.See());
      RefusalEarlier(h, w, n, env.seen, from, |old(env.seen)|);
    }

    /** The hits are possible ones, the store refused only used ids, and row and log are
        what they leave. */
    ghost predicate LeftAs(w: Assignment, hits: Hits, n: nat, seen: seq<World>, from: nat)
      reads store
    {
      && Possible(w, hits, n) && n <= |w.drafts|
      && Holding(w, RowLeft(w, hits), DraftsLeft(w, hits, n))
      && RefusalTrue(hits.body, w, n, seen, from) && RefusalTrue(hits.clause, w, n, seen, from)
    }

    /** The hit `h` ended the `try` block after the worlds `tried`, and its handler
        clause ran after them. */
    lemma LeftByBoth(
      w: Assignment, h: Hit, k: Option<Hit>, n: nat, tried: seq<World>, seen: seq<World>, from: nat)
      requires n <= |w.drafts| && BodyFits(w, h, n) && RefusalFits(Some(h))
      requires RefusalTrue(Some(h), w, n, tried, from) && tried <= seen && from <= |tried|
      requires k.Some? ==> ClauseFits(h.cause, k.value) && RefusalFits(k)
      requires RefusalTrue(k, w, n, seen, |tried|)
      requires Holding(w, RowLeft(w, Hits(Some(h), k, None)), DraftsLeft(w, Hits(Some(h), k, None), n))
      ensures LeftAs(w, Hits(Some(h), k, None), n, seen, from)
    {
      RefusalLater(Some(h), w, n, tried, seen, from);
      RefusalEarlier(k, w, n, seen, |tried|, from);
    }

    /** The `try` block and its handler clauses. */
    method TryExcept(w: Assignment, env: Environment)
      returns (raised: Option<Cause>, ghost hits: Hits, ghost n: nat)
      requires Fits(env) && Holding(w, w.row, []) && w.row.status.Pending?
      modifies this, env, store, env.registry
      ensures Fits(env) && Acts(w.run, old(env.See()), env.See())
      ensures hits.cleanup.None? && LeftAs(w, hits, n, env.seen, |old(env.seen)|)
      ensures env.struck == old(env.struck) + Strikes(hits)
      ensures raised == RaisedBy(hits)
      ensures hits.clause.None? ==> EndsInTable(w, OutcomeOf(hits), raised)
      ensures old(Quiet(env, AllDrafts(w))) ==> env.Silent() && OnlyOutcome(w, hits)
    {
      var fault;
      ghost var h, k := None, None;
      fault, h, n := Try(w, env, [LifecycleDraft(RunFailed, w.ended)]);
      if fault.None? {
        hits := Hits(None, None, None);
        LeftInTable(w, hits, n);
        return None, hits, n;
      }
      ghost var tried, struck := env.See(), env.struck;
      raised, k := Clause(w, fault.value, env, h.value, n);
      hits := Hits(h, k, None);
      StruckTwice(old(env.struck), struck, env.struck, h, k);
      ActsTwice(w.run, old(env.See()), tried, env.See());
      LeftByBoth(w, h.value, k, n, tried.seen, env.seen, |old(env.seen)|);
      if k.None? { LeftInTable(w, hits, n); }
    }

    /** The handler clause for `cause`, the fault of the hit `h`. It raises the fault
        again, except a timeout, unless another one strikes it. */
    method Clause(w: Assignment, cause: Cause, env: Environment, ghost h: Hit, ghost n: nat)
      returns (raised: Option<Cause>, ghost k: Option<Hit>)
      requires Fits(env) && n <= |w.drafts| && h.cause == cause
      requires Holding(w, RowTried(w, Some(h)), DraftsTried(w, Some(h), n))
      modifies this, env, store, env.registry
      ensures Fits(env) && Acts(w.run, old(env.See()), env.See())
      ensures env.struck == old(env.struck) + StrikesOf(k)
      ensures k.Some? ==> ClauseFits(cause, k.value) && RefusalFits(k)
      ensures raised == RaisedBy(Hits(Some(h), k, None))
      ensures var hits := Hits(Some(h), k, None); Holding(w, RowLeft(w, hits), DraftsLeft(w, hits, n))
      ensures RefusalTrue(k, w, n, env.seen, |old(env.seen)|)
      ensures old(Quiet(env, [CompletionDraft(w)] + [LifecycleDraft(RunFailed, w.ended)])) ==> env.Silent() && k.None?
    {
      ghost var wrote, logged, row, drafts := false, false, RowTried(w, Some(h)), DraftsTried(w, Some(h), n);
      LastIsFresh(CompletionDraft(w), w.ended, TerminalKind(StatusFor(cause)), store.events);
      raised, k, wrote, logged := EndRun(w, false, StatusFor(cause), ErrorFor(cause), w.ended, env,
                                         row, drafts, []);
      ClauseEnds(w, h, k, raised, wrote, logged, n, env.seen, |old(env.seen)|);
      assert drafts + [] == drafts;
      if raised.None? && cause != DeadlinePassed && cause != RaisedTimeout { raised := Some(cause); }
    }

    /** What the row and the events that the hits leave mean. */
    lemma RunIsLeft(w: Assignment, hits: Hits, n: nat)
      requires Possible(w, hits, n) && n <= |w.drafts| && w.row.status.Pending?
      requires Holding(w, RowLeft(w, hits), DraftsLeft(w, hits, n))
      requires forall i | 0 <= i < |w.drafts| :: IsHandlerKind(w.drafts[i].kind)
      ensures Trace.ClosedTrace(Trace.RunTrace(store.events, w.run), store.runs[w.run].status) <==>
              SpoilOf(hits).Unspoilt?
      ensures SpoilOf(hits).Unspoilt? ==> EndMatches(w.run, store.runs[w.run].status)
      ensures IsActive(store.runs[w.run].status) <==> Strands(hits)
      ensures hits.clause.None? && hits.cleanup.None? ==>
        && EndsInTable(w, OutcomeOf(hits), RaisedBy(hits))
        && EndedBy(w.run, if hits.body.None? then w.completed else w.ended)
      ensures Signed(w, DraftsLeft(w, hits, n))
    {
      var drafts := DraftsLeft(w, hits, n);
      Trace.TraceIsKinds(store.events, w.run);
      KindsOfEvents(w.row, w.run, drafts);
      LeftIsClosed(w, hits, n);
      LeftIsActive(w, hits, n);
      EventsAreSigned(w.row, w.run, drafts);
      if hits.clause.None? && hits.cleanup.None? { LeftInTable(w, hits, n); }
    }

    /** The run's events are those of the drafts, and name its thread and assistant. */
    ghost predicate Signed(w: Assignment, drafts: seq<Draft>)
      reads store
    {
      var es := Logged(w.run);
      && |es| == |drafts|
      && forall i | 0 <= i < |es| ::
           && es[i].thread == w.row.thread && es[i].author == w.row.assistant && es[i].run == Some(w.run)
           && es[i].id == drafts[i].stamp.id && es[i].createdAt == drafts[i].stamp.createdAt
           && es[i].kind == drafts[i].kind && es[i].text == drafts[i].text && !es[i].streamed
    }

    /** The body of the task. `hits` are the faults that struck it: exactly those that
        its awaits delivered, a refusal of a used event id, and the handler's own
        outcome. They and `n`, the number of handler events logged, determine the
        row, the log and what the task raises; the run's events are closed if and
        only if the hits did not spoil them; the coroutine touches nothing but its
        run; and unless a fault strikes the cleanup, both dict entries go. */
    method Drive(w: Assignment, env: Environment)
      returns (raised: Option<Cause>, ghost hits: Hits, ghost n: nat)
      requires Fits(env) && Holding(w, w.row, []) && w.row.status.Pending?
      requires forall i | 0 <= i < |w.drafts| :: IsHandlerKind(w.drafts[i].kind)
      modifies this, env, store, env.registry
      ensures Fits(env) && OwnDeeds(old(env.Deeds()), env.Deeds(), w.run)
      ensures LeftAs(w, hits, n, env.seen, |old(env.seen)|)
      ensures env.struck == old(env.struck) + Strikes(hits)
      ensures raised == RaisedBy(hits)
      ensures Trace.ClosedTrace(Trace.RunTrace(store.events, w.run), store.runs[w.run].status) <==>
              SpoilOf(hits).Unspoilt?
      ensures SpoilOf(hits).Unspoilt? ==> EndMatches(w.run, store.runs[w.run].status)
      ensures IsActive(store.runs[w.run].status) <==> Strands(hits)
      ensures hits.clause.None? && hits.cleanup.None? ==>
        EndsInTable(w, OutcomeOf(hits), raised) && EndedBy(w.run, if hits.body.None? then w.completed else w.ended)
      ensures hits.clause.Some? || hits.cleanup.Some? ==>
        raised == Some(if hits.cleanup.Some? then hits.cleanup.value.cause else hits.clause.value.cause)
      ensures Signed(w, DraftsLeft(w, hits, n))
      ensures env.Now() ==
        if hits.cleanup.Some? then env.last
        else env.last.(tasks := env.last.tasks - {w.run}, depths := env.last.depths - {w.run})
      ensures old(Quiet(env, AllDrafts(w))) ==> OnlyOutcome(w, hits)
    {
      raised, hits, n := TryExcept(w, env);
      ghost var left, seen, struck := env.See(), env.seen, env.struck;
      ghost var row, drafts := RowLeft(w, hits), DraftsLeft(w, hits, n);
      var fault := CleanUp(w, env, row, drafts);
      OwnDeedsTwice(old(env.Deeds()), left.deeds, env.Deeds(), w.run);
      if fault.Some? {
        hits := hits.(cleanup := Some(Hit(Flushing, false, fault.value, Delivered)));
        raised := fault;
      }
      StruckLast(old(env.struck), struck, env.struck, hits);
      RefusalLater(hits.body, w, n, seen, env.seen, |old(env.seen)|);
      RefusalLater(hits.clause, w, n, seen, env.seen, |old(env.seen)|);
      RunIsLeft(w, hits, n);
    }

    /** The `finally` block: both dict entries go, unless a fault strikes its await. */
    method CleanUp(w: Assignment, env: Environment, ghost row: Run, ghost drafts: seq<Draft>)
      returns (fault: Option<Cause>)
      requires Fits(env) && Holding(w, row, drafts)
      modifies this, env, store, env.registry
      ensures Fits(env) && Holding(w, row, drafts) && OwnDeeds(old(env.Deeds()), env.Deeds(), w.run)
      ensures env.Grew()
      ensures env.struck == old(env.struck) + StrikeAt(AtDriver(Flushing, false), fault)
      ensures env.Now() == if fault.Some? then env.last
                           else env.last.(tasks := env.last.tasks - {w.run}, depths := env.last.depths - {w.run})
      ensures old(env.Silent()) ==> fault.None?
    {
      fault := DriverWait(w, env, AtDriver(Flushing, false), row, drafts);
      if fault.Some? { return; }
      ghost var before := env.See();
      tasks := tasks - {w.run};
      chainDepths := chainDepths - {w.run};
      OwnDeedsNext(old(env.Deeds()), before, env.See(), w.run);
    }
  }
}
