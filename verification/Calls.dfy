/** What one call of `execute` returns and does, and what it comes to when nobody
    interferes. */
module Calls {
  import opened Types
  import opened RunTable
  import opened Protocol
  import opened EventLoop
  import Linearization

  /** `seen[from..]` are the worlds a call met. It returns a row it inserted into a
      table that admitted it, or a row that matched its request in one, or it
      raises after one that refused its row, a later one without an active run
      and, if it has a key, one in which no row holds the key. */
  ghost predicate Justified(seen: seq<World>, from: nat, c: Call, result: ExecResult) {
    match result
    case Created(r) => exists k | from <= k < |seen| :: Admits(seen[k].runs, NewRow(c)) && r == |seen[k].runs|
    case Existing(r) => exists k | from <= k < |seen| :: Linearization.Matches(seen[k].runs, c, r)
    case UniqueViolation =>
      exists j, k, l | from <= j < k <= l < |seen| ::
        && !Admits(seen[j].runs, NewRow(c))
        && Linearization.NoActive(seen[k].runs, c)
        && (Truthy(c.key) ==> Linearization.NoKey(seen[l].runs, c))
  }

  lemma CreatedAt(seen: seq<World>, from: nat, k: nat, c: Call, r: RunId)
    requires from <= k < |seen| && Admits(seen[k].runs, NewRow(c)) && r == |seen[k].runs|
    ensures Justified(seen, from, c, Created(r))
  {
  }

  lemma MatchesAt(seen: seq<World>, from: nat, k: nat, c: Call, r: RunId)
    requires from <= k < |seen| && Linearization.Matches(seen[k].runs, c, r)
    ensures Justified(seen, from, c, Existing(r))
  {
  }

  lemma RaisesAt(seen: seq<World>, from: nat, attempt: nat, active: nat, held: nat, c: Call)
    requires from <= attempt < active <= held < |seen|
    requires !Admits(seen[attempt].runs, NewRow(c)) && Linearization.NoActive(seen[active].runs, c)
    requires Truthy(c.key) ==> Linearization.NoKey(seen[held].runs, c)
    ensures Justified(seen, from, c, UniqueViolation)
  {
    assert Truthy(c.key) ==> Linearization.NoKey(seen[held].runs, c);
  }

  lemma RaisesLater(seen: seq<World>, from: nat, later: seq<World>, from': nat, c: Call)
    requires seen <= later && from' <= from && Justified(seen, from, c, UniqueViolation)
    ensures Justified(later, from', c, UniqueViolation)
  {
    var j, k, l :| from <= j < k <= l < |seen| && !Admits(seen[j].runs, NewRow(c))
                   && Linearization.NoActive(seen[k].runs, c)
                   && (Truthy(c.key) ==> Linearization.NoKey(seen[l].runs, c));
    assert later[j] == seen[j] && later[k] == seen[k] && later[l] == seen[l];
    RaisesAt(later, from', j, k, l, c);
  }

  lemma JustifiedEarlier(seen: seq<World>, from: nat, from': nat, c: Call, result: ExecResult)
    requires from' <= from && Justified(seen, from, c, result)
    ensures Justified(seen, from', c, result)
  {
    JustifiedLater(seen, from, seen, from', c, result);
  }

  lemma JustifiedLater(seen: seq<World>, from: nat, later: seq<World>, from': nat, c: Call, result: ExecResult)
    requires seen <= later && from' <= from && Justified(seen, from, c, result)
    ensures Justified(later, from', c, result)
  {
    match result
    case Created(r) =>
      var k :| from <= k < |seen| && Admits(seen[k].runs, NewRow(c)) && r == |seen[k].runs|;
      assert later[k] == seen[k];
    case Existing(r) =>
      var k :| from <= k < |seen| && Linearization.Matches(seen[k].runs, c, r);
      assert later[k] == seen[k];
    case UniqueViolation => RaisesLater(seen, from, later, from', c);
  }

  /** The row was one the call may hand out, in a world it met: an active one of the pair,
      or one that holds its key, if that is not empty. */
  ghost predicate FoundIn(seen: seq<World>, from: nat, thread: Id, assistant: Id, key: Option<string>, r: RunId) {
    exists k | from <= k < |seen| ::
      && r < |seen[k].runs|
      && var row := seen[k].runs[r];
      && row.thread == thread
      && ((row.assistant == assistant && (row.status.Pending? || row.status.Running?))
          || (key.Some? && key.value != "" && row.key == key))
  }

  lemma FoundWhenJustified(seen: seq<World>, from: nat, c: Call, r: RunId)
    requires Justified(seen, from, c, Existing(r))
    ensures FoundIn(seen, from, c.thread, c.assistant, c.key, r)
  {
    var k :| from <= k < |seen| && Linearization.Matches(seen[k].runs, c, r);
    assert r < |seen[k].runs|;
  }

  /** The row that the lookups find in one table. */
  function LookedUp(runs: seq<Run>, thread: Id, assistant: Id, key: Option<string>): Option<RunId> {
    if Truthy(key) && FindByKey(runs, thread, key.value).Some? then FindByKey(runs, thread, key.value)
    else FindActive(runs, thread, assistant)
  }

  // ----- what a call of `execute` does itself -----

  /** It inserts its row into a table that admits it. */
  ghost predicate InsertDeed(d: Deed, c: Call, run: RunId) {
    && Admits(d.before.runs, NewRow(c)) && run == |d.before.runs|
    && d.after == d.before.(runs := d.before.runs + [NewRow(c)])
  }

  /** It enters the run in both dicts, which is when the driver is started. */
  ghost predicate StartDeed(d: Deed, run: RunId, depth: nat) {
    d.after == d.before.(tasks := d.before.tasks + {run}, depths := d.before.depths[run := depth])
  }

  /** A created run is one insert and one start, an interruption after the insert is an
      insert alone, and everything else changes nothing. */
  ghost predicate CallDid(
    before: seq<Deed>, after: seq<Deed>, c: Call, result: Result<ExecResult, Cause>, orphan: Option<RunId>)
  {
    if result.Ok? && result.value.Created? then
      && |after| == |before| + 2 && before <= after
      && InsertDeed(after[|before|], c, result.value.run)
      && StartDeed(after[|before| + 1], result.value.run, c.depth)
    else if orphan.Some? then
      |after| == |before| + 1 && before <= after && InsertDeed(after[|before|], c, orphan.value)
    else after == before
  }

  /** A call is interrupted exactly when a fault strikes it, and it leaves an orphan
      exactly when that is at the insert of its row. */
  ghost predicate CallStruck(
    before: seq<Strike>, after: seq<Strike>, result: Result<ExecResult, Cause>, orphan: Option<RunId>)
  {
    match result
    case Ok(_) => after == before && orphan.None?
    case Err(cause) =>
      && |after| == |before| + 1 && before <= after
      && var strike := after[|before|];
      && strike.cause == cause
      && orphan == if strike.place.AtStart? then Some(strike.place.run) else None
  }

  /** The result of a call that nobody interferes with. */
  function LoneResult(runs: seq<Run>, c: Call): ExecResult {
    match LookedUp(runs, c.thread, c.assistant, c.key)
    case Some(r) => Existing(r)
    case None => if Admits(runs, NewRow(c)) then Created(|runs|) else UniqueViolation
  }

  /** It is what the steps of the protocol come to. */
  lemma LoneIsAlone(runs: seq<Run>, c: Call)
    requires c == BeginCall(c.thread, c.assistant, c.triggeredBy, c.key, c.depth, c.since)
    ensures Linearization.CanRunAlone(c) && LoneResult(runs, c) == Linearization.Alone(runs, c)
  {
    Linearization.AloneShape(runs, c);
  }

  /** What the call leaves: a created run is pending and has just entered the dicts, an
      orphan is pending and has no task, and otherwise it left the last world it met. */
  ghost predicate CallLeft(c: Call, last: World, now: World, result: Result<ExecResult, Cause>, orphan: Option<RunId>) {
    && (if result.Ok? && result.value.Created? then
          && result.value.run < |now.runs| && now.runs[result.value.run] == NewRow(c)
          && StartDeed(Deed(last, now), result.value.run, c.depth)
        else now == last)
    && (orphan.Some? ==>
          orphan.value < |now.runs| && now.runs[orphan.value] == NewRow(c) && orphan.value !in now.tasks)
  }

  /** It was the lone call. */
  ghost predicate CallAlone(c: Call, before: World, after: World, result: Result<ExecResult, Cause>) {
    result == Ok(LoneResult(before.runs, c)) && after == AfterCall(before, c)
  }

  lemma FoundAlone(c: Call, w: World, run: RunId)
    requires LookedUp(w.runs, c.thread, c.assistant, c.key) == Some(run)
    ensures CallAlone(c, w, w, Ok(Existing(run)))
  {
  }

  /** A row that holds a truthy key in the first world decides the call. */
  ghost predicate KeyDecides(runs: seq<Run>, thread: Id, key: Option<string>, result: Result<ExecResult, Cause>) {
    Truthy(key) && FindByKey(runs, thread, key.value).Some? ==>
      result.Err? || result.value == Existing(FindByKey(runs, thread, key.value).value)
  }

  /** The world with the call's new row and its driver started. */
  function Started(w: World, c: Call): World {
    w.(runs := w.runs + [NewRow(c)], tasks := w.tasks + {|w.runs|}, depths := w.depths[|w.runs| := c.depth])
  }

  /** What a lone call makes of the world. */
  function AfterCall(w: World, c: Call): World {
    if LoneResult(w.runs, c).Created? then Started(w, c) else w
  }

  /** The outcome of a call in the terms of its caller: a created run is the pending row
      that was asked for, with a driver at this depth; an existing one was found; an
      orphan is the pending row, without more. */
  ghost predicate CallMeans(
    now: World, seen: seq<World>, from: nat, thread: Id, assistant: Id, triggeredBy: Id, key: Option<string>,
    depth: nat, result: Result<ExecResult, Cause>, orphan: Option<RunId>)
  {
    match result
    case Ok(Created(r)) =>
      && r < |now.runs| && now.runs[r] == Run(thread, assistant, triggeredBy, key, Pending, None, None)
      && r in now.tasks && r in now.depths && now.depths[r] == depth
    case Ok(Existing(r)) => FoundIn(seen, from, thread, assistant, key, r)
    case Ok(UniqueViolation) => true
    case Err(_) =>
      orphan.Some? ==>
        && orphan.value < |now.runs| && orphan.value !in now.tasks
        && now.runs[orphan.value] == Run(thread, assistant, triggeredBy, key, Pending, None, None)
  }

  lemma CallMeaning(
    c: Call, last: World, now: World, seen: seq<World>, from: nat, result: Result<ExecResult, Cause>,
    orphan: Option<RunId>)
    requires c == BeginCall(c.thread, c.assistant, c.triggeredBy, c.key, c.depth, c.since)
    requires CallLeft(c, last, now, result, orphan) && (result.Ok? ==> Justified(seen, from, c, result.value))
    ensures CallMeans(now, seen, from, c.thread, c.assistant, c.triggeredBy, c.key, c.depth, result, orphan)
  {
    if result.Ok? && result.value.Existing? { FoundWhenJustified(seen, from, c, result.value.run); }
  }
}
