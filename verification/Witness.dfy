/** Concrete executions that reach the states in which a run goes wrong: a thread "t",
    one call of `execute` for assistant "a", and the driver it starts. */
module Witness {
  import opened Types
  import opened RunTable
  import opened Protocol
  import opened Invariant
  import Delivery
  import Exclusivity
  import Trace

  ghost predicate Reachable(s: State) {
    exists tr, acts :: Behaviour(tr, acts) && tr[|tr| - 1] == s
  }

  lemma ReachStep(s: State, a: Action)
    requires Reachable(s) && CanApply(s, a)
    ensures Reachable(Apply(s, a))
  {
    var tr, acts :| Behaviour(tr, acts) && tr[|tr| - 1] == s;
    var tr', acts' := tr + [Apply(s, a)], acts + [a];
    forall i | 0 <= i < |acts'| ensures CanApply(tr'[i], acts'[i]) && tr'[i + 1] == Apply(tr'[i], acts'[i]) {
      assert i < |acts| ==> tr'[i] == tr[i] && tr'[i + 1] == tr[i + 1] && acts'[i] == acts[i];
    }
    assert Behaviour(tr', acts');
  }

  function Go(pid: nat, id: Id): Action {
    Act(pid, Advance(Stamp(id, 0), false))
  }

  function PendingRow(): Run {
    Run("t", "a", "u", None, Pending, None, None)
  }

  /** The caller at this point of its call, and nobody else. */
  function Caller(runs: seq<Run>, pc: CallPc, clock: nat): State {
    State(runs, [], [], map[], {}, false, {}, map[],
          [Proc(External, 0, Calling(None, Call("t", "a", "u", None, 0, 0, pc)))], clock,
          if runs == [] then [] else [0])
  }

  /** The caller has returned, and the driver of row 0 is at this phase and work. */
  function Driven(row: Run, events: seq<Event>, wire: seq<Frame>, phase: Phase, work: Work, clock: nat): State {
    State([row], events, wire, map[], {}, false, {0}, map[0 := 0],
          [Proc(External, 0, Calling(None, Call("t", "a", "u", None, 0, 0, Returned(Created(0))))),
           Proc(Driver(0, 0, phase, 0, Unspoilt), 0, work)], clock, [0])
  }

  function Lifecycle(id: Id, kind: Kind): Event {
    Event(id, 0, "t", Some(0), "a", None, kind, "", false)
  }

  function Announcement(id: Id, kind: Kind, pc: PublishPc, since: nat): Work {
    Publishing(Publication(Lifecycle(id, kind), pc, map[], [], 0, [], since))
  }

  // ----- the way there -----

  /** The row is inserted and its driver is not yet started. */
  function Spawning(): State {
    Caller([PendingRow()], AtSpawn(0), 3)
  }

  lemma ReachCall()
    ensures Reachable(Caller([], AtActiveLookup, 1))
  {
    var s, a := State([], [], [], map[], {}, false, {}, map[], [], 0, []), InvokeExternally("t", "a", "u", None);
    assert Behaviour([s], []) && [s][|[s]| - 1] == s;
    ReachStep(s, a);
    assert Apply(s, a) == Caller([], AtActiveLookup, 1);
  }

  lemma ReachSpawning()
    ensures Reachable(Spawning())
  {
    ReachCall();
    ReachStep(Caller([], AtActiveLookup, 1), Go(0, ""));
    assert Apply(Caller([], AtActiveLookup, 1), Go(0, "")) == Caller([], AtInsert, 2);
    ReachStep(Caller([], AtInsert, 2), Go(0, ""));
    assert Apply(Caller([], AtInsert, 2), Go(0, "")) == Spawning();
  }

  /** The driver has not taken its first step. */
  function Waiting(): State {
    Driven(PendingRow(), [], [], Scheduled, Idle, 4)
  }

  lemma ReachWaiting()
    ensures Reachable(Waiting())
  {
    ReachSpawning();
    ReachStep(Spawning(), Go(0, ""));
    assert Apply(Spawning(), Go(0, "")) == Waiting();
  }

  function RunningRow(): Run {
    PendingRow().(status := Running)
  }

  /** `run.started` is logged and not yet broadcast. */
  function StartLogged(): State {
    Driven(RunningRow(), [Lifecycle("1", RunStarted)], [], Announcing, Announcement("1", RunStarted, AtBroadcast, 5), 7)
  }

  /** Status running is written and `run.started` is about to be logged. */
  function Announced(): State {
    Driven(RunningRow(), [], [], Announcing, Announcement("1", RunStarted, AtAppend, 5), 6)
  }

  lemma ReachAnnounced()
    ensures Reachable(Announced())
  {
    var ready := Driven(PendingRow(), [], [], Starting, Idle, 5);
    ReachWaiting();
    ReachStep(Waiting(), Go(1, ""));
    assert Apply(Waiting(), Go(1, "")) == ready;
    ReachStep(ready, Go(1, "1"));
    assert Apply(ready, Go(1, "1")) == Announced();
  }

  lemma ReachStartLogged()
    ensures Reachable(StartLogged())
  {
    ReachAnnounced();
    ReachStep(Announced(), Go(1, ""));
    assert Apply(Announced(), Go(1, "")) == StartLogged();
  }

  function InHandlerState(): State {
    Driven(RunningRow(), [Lifecycle("1", RunStarted)], [EventFrame(Lifecycle("1", RunStarted))],
           Consuming(map[]), Idle, 8)
  }

  lemma ReachHandler()
    ensures Reachable(InHandlerState())
  {
    ReachStartLogged();
    ReachStep(StartLogged(), Go(1, ""));
    assert Apply(StartLogged(), Go(1, "")) == InHandlerState();
  }

  /** The handler raised; the failed status is about to be written. */
  function Failing(): State {
    InHandlerState().(procs := InHandlerState().procs[1 :=
      Proc(Driver(0, 0, Writing(false, Failed, Some(HandlerError)), 0, Unspoilt), 0, Idle)], clock := 9)
  }

  lemma ReachFailing()
    ensures Reachable(Failing())
  {
    ReachHandler();
    ReachStep(InHandlerState(), Act(1, Interrupt(Raised)));
    assert Apply(InHandlerState(), Act(1, Interrupt(Raised))) == Failing();
  }

  /** `run.completed` is logged and not yet broadcast. */
  function CompletionLogged(): State {
    var row := RunningRow().(status := Completed, completedAt := Some(0));
    Driven(row, [Lifecycle("1", RunStarted), Lifecycle("2", RunCompleted)], [EventFrame(Lifecycle("1", RunStarted))],
           Ending(true, Completed), Announcement("2", RunCompleted, AtBroadcast, 9), 11)
  }

  /** `run.completed` is about to be logged. */
  function Completing(): State {
    CompletionLogged().(
      events := InHandlerState().events, clock := 10,
      procs := CompletionLogged().procs[1 :=
        Proc(Driver(0, 0, Ending(true, Completed), 0, Unspoilt), 0, Announcement("2", RunCompleted, AtAppend, 9))])
  }

  lemma ReachCompleting()
    ensures Reachable(Completing())
  {
    var s := InHandlerState();
    var returned := Driven(RunningRow(), s.events, s.wire, Writing(true, Completed, None), Idle, 9);
    ReachHandler();
    ReachStep(s, Act(1, Return));
    assert Apply(s, Act(1, Return)) == returned;
    ReachStep(returned, Go(1, "2"));
    assert Apply(returned, Go(1, "2")) == Completing();
  }

  lemma ReachCompletionLogged()
    ensures Reachable(CompletionLogged())
  {
    ReachCompleting();
    ReachStep(Completing(), Go(1, ""));
    assert Apply(Completing(), Go(1, "")) == CompletionLogged();
  }

  // ----- the theorems -----

  function Cancel(pid: nat): Action {
    Act(pid, Interrupt(CancelRequested))
  }

  /** The step is possible in a reachable state and strands the active row 0. */
  ghost predicate CanStrand(s: State, a: Action) {
    && Reachable(s) && CanApply(s, a)
    && |s.runs| == 1 && IsActive(s.runs[0].status) && Exclusivity.Strands(s, a, 0)
  }

  /** A cancel can strand a run at each of the three exposed places. */
  lemma StrandingHappens()
    ensures CanStrand(Spawning(), Cancel(0)) && CanStrand(Waiting(), Cancel(1)) && CanStrand(Failing(), Cancel(1))
  {
    ReachSpawning();
    ReachWaiting();
    ReachFailing();
  }

  /** A cancel can drop a logged event. */
  lemma DroppingHappens()
    ensures Reachable(StartLogged()) && CanApply(StartLogged(), Cancel(1))
    ensures Delivery.Drops(StartLogged(), Cancel(1), Lifecycle("1", RunStarted))
  {
    ReachStartLogged();
  }

  /** A cancel can come after `run.completed` was logged. */
  lemma LateCancelHappens()
    ensures Reachable(CompletionLogged()) && CanApply(CompletionLogged(), Cancel(1))
    ensures Trace.LateCancelState(CompletionLogged(), 1)
  {
    ReachCompletionLogged();
  }
}
