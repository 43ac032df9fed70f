/** The store object: tables updated in place by atomic statements. */
module Store {
  import opened Types
  import opened RunTable
  import Keys
  import Tenant

  /** `Conflict` is a unique violation. */
  datatype StoreError = Conflict | NotFound(run: RunId)

  /** What the unique indexes say of an update that keeps thread, assistant and key. */
  lemma UpdateClashes(runs: seq<Run>, id: RunId, row: Run)
    requires IndexesHold(runs) && id < |runs|
    requires row.thread == runs[id].thread && row.assistant == runs[id].assistant && row.key == runs[id].key
    ensures IndexesHold(runs[id := row]) <==>
            !(IsActive(row.status) && exists i | 0 <= i < |runs| && i != id ::
              ActiveFor(runs[i], row.thread, row.assistant))
    ensures IsActive(runs[id].status) ==>
            !exists i | 0 <= i < |runs| && i != id :: ActiveFor(runs[i], row.thread, row.assistant)
  {
    var after := runs[id := row];
    assert forall i | 0 <= i < |runs| && i != id :: !Clash(runs[id], runs[i]) && !Clash(runs[i], runs[id]);
    forall i, j | 0 <= i < |runs| && 0 <= j < |runs| && i != j
      ensures i != id && j != id ==> !Clash(after[i], after[j])
      ensures !(IsActive(row.status) && exists i | 0 <= i < |runs| && i != id ::
        ActiveFor(runs[i], row.thread, row.assistant))
              ==> !Clash(after[i], after[j])
    {
      assert !Clash(runs[i], runs[j]);
    }
    forall i | 0 <= i < |runs| && i != id && IsActive(row.status) && ActiveFor(runs[i], row.thread, row.assistant)
      ensures !IndexesHold(after)
    {
      assert Clash(after[id], after[i]);
    }
  }

  class PostgresThreadStore {
    var runs: seq<Run>
    var events: seq<Event>
    var members: map<Id, map<Id, bool>>
    var threads: map<Id, Tenant.Scope>

    constructor ()
      ensures runs == [] && events == [] && members == map[] && threads == map[]
    {
      runs, events, members, threads := [], [], map[], map[];
    }

    /** What the schema's keys and indexes guarantee. */
    ghost predicate Valid()
      reads this
    {
      IndexesHold(runs) && Keys.UniqueIds(events)
    }

    /** What the executor keeps beyond the schema: see `RunTable.Coherent`. */
    ghost predicate RowsCoherent()
      reads this
    {
      forall r | 0 <= r < |runs| :: Coherent(runs[r])
    }

    method CreateRun(run: Run) returns (r: Result<RunId, StoreError>)
      requires Valid()
      modifies this`runs
      ensures Valid() && (old(RowsCoherent()) && Coherent(run) ==> RowsCoherent())
      ensures r.Ok? <==> Admits(old(runs), run)
      ensures r.Ok? <==> forall i | 0 <= i < |old(runs)| && old(runs)[i].thread == run.thread ::
        && (run.status.Pending? || run.status.Running? ==>
              old(runs)[i].assistant != run.assistant
              || !(old(runs)[i].status.Pending? || old(runs)[i].status.Running?))
        && (run.key.Some? ==> old(runs)[i].key != run.key)
      ensures r.Ok? ==> r.value == |old(runs)| && runs == old(runs) + [run]
      ensures r.Err? ==> r.error == Conflict && runs == old(runs)
    {
      assert forall i | 0 <= i < |runs| && runs[i].thread != run.thread :: !Clash(run, runs[i]);
      if Admits(runs, run) {
        assert forall i | 0 <= i < |runs| :: !Clash(run, runs[i]);
        InsertKeepsIndexes(runs, run);
        runs := runs + [run];
        return Ok(|runs| - 1);
      }
      return Err(Conflict);
    }

    /** The statement overwrites status and error, and keeps an earlier
        `completed_at` unless it has a new one. The active index refuses it exactly
        when it would revive the row beside another active one of its pair. */
    method UpdateRunStatus(id: RunId, status: Status, error: Option<ErrorCode>, now: int)
      returns (r: Result<Run, StoreError>)
      requires Valid()
      modifies this`runs
      ensures Valid()
      ensures id >= |old(runs)| ==> r == Err(NotFound(id))
      ensures id < |old(runs)| ==>
        var row := WithStatus(old(runs)[id], status, error, now);
        r == if IsActive(status) && exists i | 0 <= i < |old(runs)| && i != id ::
          ActiveFor(old(runs)[i], row.thread, row.assistant)
             then Err(Conflict) else Ok(row)
      ensures r.Ok? ==>
        var row, before := r.value, old(runs)[id];
        && row.status == status && row.error == error
        && row.completedAt ==
           (if status.Completed? || status.Failed? || status.Cancelled? then Some(now) else before.completedAt)
        && row.thread == before.thread && row.assistant == before.assistant
        && row.triggeredBy == before.triggeredBy && row.key == before.key
      ensures runs == if r.Ok? then old(runs)[id := r.value] else old(runs)
      ensures id < |old(runs)| && (IsActive(status) ==> IsActive(old(runs)[id].status)) ==>
        r.Ok? && (old(RowsCoherent()) && (error.Some? <==> status.Failed?) ==> RowsCoherent())
    {
      if id >= |runs| { return Err(NotFound(id)); }
      var completedAt := if status.Completed? || status.Failed? || status.Cancelled? then Some(now) else None;
      var row := runs[id].(status := status, error := error,
                           completedAt := if completedAt.Some? then completedAt else runs[id].completedAt);
      UpdateClashes(runs, id, row);
      if IsActive(row.status) && exists i | 0 <= i < |runs| && i != id ::
        ActiveFor(runs[i], row.thread, row.assistant) {
        return Err(Conflict);
      }
      runs := runs[id := row];
      return Ok(row);
    }

    method FindRunByIdempotencyKey(thread: Id, key: string) returns (r: Option<RunId>)
      ensures r == FindByKey(runs, thread, key)
    {
      r := FindByKey(runs, thread, key);
    }

    method FindActiveRun(thread: Id, assistant: Id) returns (r: Option<RunId>)
      ensures r == FindActive(runs, thread, assistant)
    {
      r := FindActive(runs, thread, assistant);
    }

    method AppendEvent(event: Event) returns (r: Result<Event, StoreError>)
      requires Valid()
      modifies this`events
      ensures Valid()
      ensures r.Ok? <==> forall k | 0 <= k < |old(events)| :: old(events)[k].id != event.id
      ensures r.Ok? ==> r.value == event && events == old(events) + [event]
      ensures r.Err? ==> events == old(events)
    {
      if exists k | 0 <= k < |events| :: events[k].id == event.id { return Err(Conflict); }
      events := events + [event];
      return Ok(event);
    }

    /** `get_thread`, as far as the tenant goes. */
    function GetThread(thread: Id): Option<Tenant.Scope>
      reads this`threads
    {
      if thread in threads then Some(threads[thread]) else None
    }

    function MembersOf(thread: Id): map<Id, bool>
      reads this`members
    {
      if thread in members then members[thread] else map[]
    }

    /** A member that is already there keeps its row. */
    method AddMember(thread: Id, member: Id, isAssistant: bool) returns (stored: bool)
      modifies this`members
      ensures member in MembersOf(thread) && MembersOf(thread)[member] == stored
      ensures stored == (if member in old(MembersOf(thread)) then old(MembersOf(thread))[member] else isAssistant)
      ensures MembersOf(thread) == old(MembersOf(thread))[member := stored]
      ensures forall t | t != thread :: MembersOf(t) == old(MembersOf(t))
    {
      var before := MembersOf(thread);
      if member in before {
        stored := before[member];
      } else {
        members := members[thread := before[member := isAssistant]];
        stored := isAssistant;
      }
    }

    method RemoveMember(thread: Id, member: Id)
      modifies this`members
      ensures MembersOf(thread) == old(MembersOf(thread)) - {member}
      ensures forall t | t != thread :: MembersOf(t) == old(MembersOf(t))
    {
      members := members[thread := MembersOf(thread) - {member}];
    }
  }
}
