/** An event loop as one coroutine meets it: the state it shares with the others, what
    they do at its awaits, and what it did itself. */
module EventLoop {
  import opened Types
  import opened RunTable
  import opened Protocol
  import Exclusivity
  import Keys
  import Tenant
  import Trace

  /** Everything that coroutines share. */
  datatype World = World(
    runs: seq<Run>,
    events: seq<Event>,
    members: map<Id, map<Id, bool>>,
    threads: map<Id, Tenant.Scope>,
    handlers: set<Id>,
    tasks: set<RunId>,
    depths: map<RunId, nat>)

  /** The schema's guarantees, and both dicts have the same keys, which are rows. */
  predicate Sound(w: World) {
    && IndexesHold(w.runs)
    && Keys.UniqueIds(w.events)
    && w.tasks == w.depths.Keys
    && forall r | r in w.tasks :: r < |w.runs|
  }

  /** What the protocol lets the others do while a coroutine that is responsible for
      the rows `mine` waits: anything but touch those rows, their events and their
      dict entries. */
  predicate Allowed(before: World, after: World, mine: set<RunId>) {
    && Sound(after)
    && Exclusivity.Evolves(before.runs, after.runs)
    && before.events <= after.events
    && before.handlers <= after.handlers
    && forall r | r in mine ::
         && (r < |before.runs| ==> r < |after.runs| && after.runs[r] == before.runs[r])
         && Trace.RunEvents(after.events, r) == Trace.RunEvents(before.events, r)
         && (r in before.tasks <==> r in after.tasks)
         && (r in before.depths && r in after.depths ==> before.depths[r] == after.depths[r])
  }

  /** Where a coroutine awaits: in a driver, at the insert of a row it is about to
      start, or anywhere else. `logged` tells whether the event that the driver is
      publishing is already in the log. */
  datatype Place = AtDriver(phase: Phase, logged: bool) | AtStart(run: RunId) | Elsewhere

  /** A fault that an await delivered. */
  datatype Strike = Strike(place: Place, cause: Cause)

  function StrikeAt(place: Place, fault: Option<Cause>): seq<Strike> {
    if fault.Some? then [Strike(place, fault.value)] else []
  }

  /** What the coroutine itself changed between two awaits. */
  datatype Deed = Deed(before: World, after: World)

  /** What the others do at one await: they leave this world, if they may, and a fault
      may strike the coroutine. */
  datatype Move = Move(world: World, fault: Option<Cause>)

  /** One await, made in the world `before`. */
  datatype Suspension = Suspension(
    before: World, mine: set<RunId>, place: Place, after: World, fault: Option<Cause>)

  function MovedTo(moves: seq<Move>, k: nat, before: World, mine: set<RunId>): World {
    if k < |moves| && Allowed(before, moves[k].world, mine) then moves[k].world else before
  }

  function FaultAt(moves: seq<Move>, k: nat): Option<Cause> {
    if k < |moves| then moves[k].fault else None
  }

  /** What awaits amount to: the worlds they left, the faults they delivered, what the
      coroutine did itself between them, and the last of the worlds. */
  datatype Record = Record(seen: seq<World>, struck: seq<Strike>, deeds: seq<Deed>, last: World)

  function WithAwait(r: Record, h: Suspension): Record {
    Record(r.seen + [h.after], r.struck + StrikeAt(h.place, h.fault),
           if h.before == r.last then r.deeds else r.deeds + [Deed(r.last, h.before)], h.after)
  }

  /** The record of these awaits, if at each of them the others made their move. */
  function Replay(start: World, moves: seq<Move>, history: seq<Suspension>): Option<Record> {
    if history == [] then Some(Record([], [], [], start))
    else
      var k := |history| - 1;
      var r, h := Replay(start, moves, history[..k]), history[k];
      if r.Some? && h.after == MovedTo(moves, k, h.before, h.mine) && h.fault == FaultAt(moves, k)
      then Some(WithAwait(r.value, h)) else None
  }

  lemma ReplayNext(start: World, moves: seq<Move>, history: seq<Suspension>, h: Suspension)
    requires Replay(start, moves, history).Some?
    requires h.after == MovedTo(moves, |history|, h.before, h.mine) && h.fault == FaultAt(moves, |history|)
    ensures Replay(start, moves, history + [h]) == Some(WithAwait(Replay(start, moves, history).value, h))
  {
    assert (history + [h])[..|history|] == history;
  }

  /** The shared state, what the coroutine did so far, the worlds it met, its awaits. */
  datatype View = View(now: World, deeds: seq<Deed>, seen: seq<World>, history: seq<Suspension>)

  ghost predicate IdUsed(w: World, id: Id) {
    exists j | 0 <= j < |w.events| :: w.events[j].id == id
  }

  ghost predicate UsedIn(seen: seq<World>, from: nat, id: Id) {
    exists k | from <= k < |seen| :: IdUsed(seen[k], id)
  }

  lemma UsedLater(seen: seq<World>, from: nat, later: seq<World>, from': nat, id: Id)
    requires seen <= later && from' <= from && UsedIn(seen, from, id)
    ensures UsedIn(later, from', id)
  {
    var k :| from <= k < |seen| && IdUsed(seen[k], id);
    assert IdUsed(later[k], id);
  }
}
