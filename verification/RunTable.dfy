/** The `runs` table: its rows, its two partial unique indexes and its queries. */
module RunTable {
  import opened Types

  datatype Status = Pending | Running | Completed | Failed | Cancelled

  datatype ErrorCode = HandlerError | Timeout

  datatype Run = Run(
    thread: Id,
    assistant: Id,
    triggeredBy: Id,
    key: Option<string>,
    status: Status,
    error: Option<ErrorCode>,
    completedAt: Option<int>)

  predicate IsActive(s: Status) {
    s.Pending? || s.Running?
  }

  function Rank(s: Status): nat {
    match s
    case Pending => 0
    case Running => 1
    case _ => 2
  }

  predicate ActiveFor(run: Run, thread: Id, assistant: Id) {
    run.thread == thread && run.assistant == assistant && IsActive(run.status)
  }

  predicate HoldsKey(run: Run, thread: Id, key: string) {
    run.thread == thread && run.key == Some(key)
  }

  /** Two rows that one of the unique indexes keeps apart. The key index covers
      every non-null key, the empty string included. */
  predicate Clash(a: Run, b: Run) {
    || (IsActive(a.status) && ActiveFor(b, a.thread, a.assistant))
    || (a.key.Some? && HoldsKey(b, a.thread, a.key.value))
  }

  predicate Admits(runs: seq<Run>, row: Run) {
    forall i | 0 <= i < |runs| :: !Clash(row, runs[i])
  }

  predicate IndexesHold(runs: seq<Run>) {
    forall i, j | 0 <= i < |runs| && 0 <= j < |runs| && i != j :: !Clash(runs[i], runs[j])
  }

  /** `completed_at` is set exactly on terminal rows, `error` exactly on failed ones. */
  predicate Coherent(run: Run) {
    (run.completedAt.Some? <==> !IsActive(run.status)) && (run.error.Some? <==> run.status.Failed?)
  }

  function FindActive(runs: seq<Run>, thread: Id, assistant: Id): (r: Option<RunId>)
    ensures r.Some? ==> r.value < |runs| && ActiveFor(runs[r.value], thread, assistant)
    ensures r.None? ==> forall i | 0 <= i < |runs| :: !ActiveFor(runs[i], thread, assistant)
  {
    if runs == [] then None
    else if ActiveFor(runs[|runs| - 1], thread, assistant) then Some(|runs| - 1)
    else FindActive(runs[..|runs| - 1], thread, assistant)
  }

  function FindByKey(runs: seq<Run>, thread: Id, key: string): (r: Option<RunId>)
    ensures r.Some? ==> r.value < |runs| && HoldsKey(runs[r.value], thread, key)
    ensures r.None? ==> forall i | 0 <= i < |runs| :: !HoldsKey(runs[i], thread, key)
  {
    if runs == [] then None
    else if HoldsKey(runs[|runs| - 1], thread, key) then Some(|runs| - 1)
    else FindByKey(runs[..|runs| - 1], thread, key)
  }

  /** The two lookups, in the columns of the table. */
  lemma LookupMeaning(runs: seq<Run>, thread: Id, assistant: Id, key: string)
    ensures match FindActive(runs, thread, assistant)
      case Some(r) =>
        && r < |runs| && runs[r].thread == thread && runs[r].assistant == assistant
        && (runs[r].status.Pending? || runs[r].status.Running?)
      case None =>
        forall i | 0 <= i < |runs| && runs[i].thread == thread && runs[i].assistant == assistant ::
          !runs[i].status.Pending? && !runs[i].status.Running?
    ensures match FindByKey(runs, thread, key)
      case Some(r) => r < |runs| && runs[r].thread == thread && runs[r].key == Some(key)
      case None => forall i | 0 <= i < |runs| && runs[i].thread == thread :: runs[i].key != Some(key)
  {
    if FindActive(runs, thread, assistant).None? {
      forall i | 0 <= i < |runs| ensures !ActiveFor(runs[i], thread, assistant) {}
    }
    if FindByKey(runs, thread, key).None? {
      forall i | 0 <= i < |runs| ensures !HoldsKey(runs[i], thread, key) {}
    }
  }

  /** `update_run_status`: a terminal status stamps `completed_at`, any other
      status keeps it, and the error column is overwritten either way. */
  function WithStatus(run: Run, status: Status, error: Option<ErrorCode>, now: int): Run {
    run.(status := status, error := error,
         completedAt := if IsActive(status) then run.completedAt else Some(now))
  }

  /** While the indexes hold, the queries have at most one possible answer. */
  lemma QueriesAreFunctional(runs: seq<Run>, i: nat, thread: Id, assistant: Id, key: string)
    requires IndexesHold(runs) && i < |runs|
    ensures ActiveFor(runs[i], thread, assistant) ==> FindActive(runs, thread, assistant) == Some(i)
    ensures HoldsKey(runs[i], thread, key) ==> FindByKey(runs, thread, key) == Some(i)
  {
    var a, k := FindActive(runs, thread, assistant), FindByKey(runs, thread, key);
    assert a.Some? && a.value != i ==> !Clash(runs[i], runs[a.value]);
    assert k.Some? && k.value != i ==> !Clash(runs[i], runs[k.value]);
  }

  /** An admitted insert keeps both indexes. */
  lemma InsertKeepsIndexes(runs: seq<Run>, row: Run)
    requires IndexesHold(runs) && Admits(runs, row)
    ensures IndexesHold(runs + [row])
  {
    var after := runs + [row];
    forall i, j | 0 <= i < |after| && 0 <= j < |after| && i != j ensures !Clash(after[i], after[j]) {
      assert j < |runs| ==> !Clash(row, runs[j]);
      assert i < |runs| ==> !Clash(row, runs[i]);
    }
  }

  /** A status write that does not revive a finished row keeps both indexes. */
  lemma WriteKeepsIndexes(runs: seq<Run>, r: RunId, row: Run)
    requires IndexesHold(runs) && r < |runs|
    requires row.thread == runs[r].thread && row.assistant == runs[r].assistant && row.key == runs[r].key
    requires IsActive(row.status) ==> IsActive(runs[r].status)
    ensures IndexesHold(runs[r := row])
  {
    var after := runs[r := row];
    forall i, j | 0 <= i < |after| && 0 <= j < |after| && i != j ensures !Clash(after[i], after[j]) {
      assert !Clash(runs[i], runs[j]);
    }
  }
}
