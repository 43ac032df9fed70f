/** What a call of `execute` may return, judged against the table states it
    overlapped with. */
module Linearization {
  import opened Types
  import opened RunTable
  import opened Protocol
  import opened Invariant
  import Exclusivity

  predicate NoActive(runs: seq<Run>, c: Call) {
    forall i | 0 <= i < |runs| :: !ActiveFor(runs[i], c.thread, c.assistant)
  }

  predicate NoKey(runs: seq<Run>, c: Call)
    requires c.key.Some?
  {
    forall i | 0 <= i < |runs| :: !HoldsKey(runs[i], c.thread, c.key.value)
  }

  /** The row is one the call may hand out: active for the pair, or holding the key. */
  predicate Matches(runs: seq<Run>, c: Call, r: RunId) {
    r < |runs| && (ActiveFor(runs[r], c.thread, c.assistant)
      || (Truthy(c.key) && HoldsKey(runs[r], c.thread, c.key.value)))
  }

  /** The step from `tr[t]` inserted the call's row as row `r`. */
  ghost predicate InsertedAt(tr: seq<State>, c: Call, r: RunId, t: nat)
    requires t + 1 < |tr|
  {
    && Admits(tr[t].runs, NewRow(c))
    && r == |tr[t].runs|
    && tr[t + 1].runs == tr[t].runs + [NewRow(c)]
  }

  ghost predicate RefusedAt(tr: seq<State>, c: Call, t: nat)
    requires t < |tr|
  {
    !Admits(tr[t].runs, NewRow(c))
  }

  /** What the program counter of a call says about the states since it began. */
  ghost predicate Explained(tr: seq<State>, n: nat, c: Call)
    requires n < |tr|
  {
    && c.since <= n
    && match c.pc
       case AtSpawn(r) => exists t | c.since <= t < n :: InsertedAt(tr, c, r, t)
       case AtRecoverActive => exists t | c.since <= t <= n :: RefusedAt(tr, c, t)
       case AtRecoverKey => exists t, u | c.since <= t <= u <= n :: RefusedAt(tr, c, t) && NoActive(tr[u].runs, c)
       case Returned(Created(r)) => exists t | c.since <= t < n :: InsertedAt(tr, c, r, t)
       case Returned(Existing(r)) => exists t | c.since <= t <= n :: Matches(tr[t].runs, c, r)
       case Returned(UniqueViolation) =>
         exists t, u, v | c.since <= t <= u <= v <= n ::
           RefusedAt(tr, c, t) && NoActive(tr[u].runs, c) && (Truthy(c.key) ==> NoKey(tr[v].runs, c))
       case _ => true
  }

  /** A key that some row held when the call began decides the call. */
  ghost predicate KeyDecides(tr: seq<State>, n: nat, c: Call)
    requires c.since < |tr|
  {
    forall r | 0 <= r < |tr[c.since].runs| && Truthy(c.key) && HoldsKey(tr[c.since].runs[r], c.thread, c.key.value) ::
      c.pc == AtKeyLookup || c.pc == Returned(Existing(r))
  }

  /** The call that coroutine `i` is in before step `n`, if any. */
  ghost predicate CallExplained(tr: seq<State>, n: nat, i: nat)
    requires n < |tr|
  {
    i < |tr[n].procs| && tr[n].procs[i].work.Calling? ==>
      Explained(tr, n, tr[n].procs[i].work.call) && KeyDecides(tr, n, tr[n].procs[i].work.call)
  }

  ghost predicate AllExplained(tr: seq<State>, n: nat)
    requires n < |tr|
  {
    tr[n].clock == n && forall i | 0 <= i < |tr[n].procs| :: CallExplained(tr, n, i)
  }

  lemma ExplainedLater(tr: seq<State>, n: nat, c: Call)
    requires n + 1 < |tr| && Explained(tr, n, c)
    ensures Explained(tr, n + 1, c)
  {
  }

  lemma CallStepExplained(tr: seq<State>, n: nat, c: Call)
    requires n + 1 < |tr| && Explained(tr, n, c) && CallOk(tr[n].runs, c) && !c.pc.Returned?
    requires var (c', e) := CallStep(tr[n].runs, c); !e.Write? && tr[n + 1].runs == RunsAfter(tr[n].runs, e)
    ensures Explained(tr, n + 1, CallStep(tr[n].runs, c).0)
  {
    var (c', e) := CallStep(tr[n].runs, c);
    assert c'.pc.Returned? && c'.pc.result.Existing? ==> Matches(tr[n].runs, c', c'.pc.result.run);
    if c.pc.AtInsert? {
      if c'.pc.AtSpawn? { assert InsertedAt(tr, c', c'.pc.run, n); } else { assert RefusedAt(tr, c', n); }
    } else if c.pc.AtSpawn? {
      var t :| c.since <= t < n && InsertedAt(tr, c, c.pc.run, t);
      assert InsertedAt(tr, c', c.pc.run, t);
    } else if c.pc.AtRecoverActive? {
      var t :| c.since <= t <= n && RefusedAt(tr, c, t);
      assert RefusedAt(tr, c', t);
      assert (c'.pc.Returned? && c'.pc.result.Existing?) || NoActive(tr[n].runs, c');
    } else if c.pc.AtRecoverKey? {
      var t, u :| c.since <= t <= u <= n && RefusedAt(tr, c, t) && NoActive(tr[u].runs, c);
      assert RefusedAt(tr, c', t) && NoActive(tr[u].runs, c');
      assert c'.pc.result.UniqueViolation? ==> NoKey(tr[n].runs, c');
    }
  }

  lemma CallStepKeyDecides(tr: seq<State>, acts: seq<Action>, n: nat, c: Call)
    requires Behaviour(tr, acts) && n < |tr| && c.since <= n && KeyDecides(tr, n, c)
    requires CallOk(tr[n].runs, c) && !c.pc.Returned?
    ensures KeyDecides(tr, n + 1, CallStep(tr[n].runs, c).0)
  {
    forall r | 0 <= r < |tr[c.since].runs| && Truthy(c.key) && HoldsKey(tr[c.since].runs[r], c.thread, c.key.value)
      ensures CallStep(tr[n].runs, c).0.pc == Returned(Existing(r))
    {
      Exclusivity.RowsEvolve(tr, acts, c.since, n);
      InvAlways(tr, acts, n);
      QueriesAreFunctional(tr[n].runs, r, c.thread, c.assistant, c.key.value);
    }
  }

  /** The call a coroutine is in after its step is the old one, stepped or not, or one
      that begins now. */
  ghost predicate CallMoves(s: State, p: Proc, p': Proc, e: Effect) {
    p'.work.Calling? ==>
      || (p'.work.call.since == s.clock && (p'.work.call.pc.AtKeyLookup? <==> Truthy(p'.work.call.key))
          && (p'.work.call.pc.AtKeyLookup? || p'.work.call.pc.AtActiveLookup?))
      || (p.work.Calling? && p'.work.call == p.work.call)
      || (p.work.Calling? && CallOk(s.runs, p.work.call) && !p.work.call.pc.Returned?
          && (p'.work.call, e) == CallStep(s.runs, p.work.call))
  }

  lemma CallAfterStep(s: State, p: Proc, c: Choice)
    requires ProcOk(s.runs, p) && Enabled(s, p, c)
    ensures WellTyped(s, p)
    ensures CallMoves(s, p, LocalStep(s, p, c).0, LocalStep(s, p, c).1)
  {
    OkIsWellTyped(s, p);
  }

  lemma OwnStepExplained(tr: seq<State>, acts: seq<Action>, n: nat, pid: nat, c: Choice)
    requires Behaviour(tr, acts) && n + 1 < |tr| && AllExplained(tr, n)
    requires acts[n] == Act(pid, c) && Inv(tr[n])
    ensures CallExplained(tr, n + 1, pid)
  {
    var s := tr[n];
    CallAfterStep(s, s.procs[pid], c);
    ActFrame(s, pid, c);
    var (p', e) := LocalStep(s, s.procs[pid], c);
    SteppedCallExplained(tr, acts, n, pid, p', e);
  }

  lemma SteppedCallExplained(tr: seq<State>, acts: seq<Action>, n: nat, pid: nat, p': Proc, e: Effect)
    requires Behaviour(tr, acts) && n + 1 < |tr| && AllExplained(tr, n)
    requires Stepped(tr[n], pid, p', e, tr[n + 1]) && CallMoves(tr[n], tr[n].procs[pid], p', e)
    ensures CallExplained(tr, n + 1, pid)
  {
    var s, p := tr[n], tr[n].procs[pid];
    assert CallExplained(tr, n, pid);
    assert tr[n + 1].runs == RunsAfter(s.runs, e);
    if !p'.work.Calling? { return; }
    var call' := p'.work.call;
    if p.work.Calling? && call' == p.work.call {
      ExplainedLater(tr, n, call');
    } else if p.work.Calling? && !p.work.call.pc.Returned? && (call', e) == CallStep(s.runs, p.work.call) {
      CallStepOk(s, p.work.call);
      CallStepExplained(tr, n, p.work.call);
      CallStepKeyDecides(tr, acts, n, p.work.call);
    }
  }

  lemma OthersStay(tr: seq<State>, acts: seq<Action>, n: nat, i: nat)
    requires Behaviour(tr, acts) && n + 1 < |tr| && i < |tr[n].procs| && !(acts[n].Act? && i == acts[n].pid)
    ensures i < |tr[n + 1].procs| && tr[n + 1].procs[i] == tr[n].procs[i]
  {
    InvAlways(tr, acts, n);
    if acts[n].Act? { ActFrame(tr[n], acts[n].pid, acts[n].choice); }
  }

  lemma StepExplained(tr: seq<State>, acts: seq<Action>, n: nat, i: nat)
    requires Behaviour(tr, acts) && n + 1 < |tr| && AllExplained(tr, n)
    ensures CallExplained(tr, n + 1, i)
  {
    if acts[n].Act? && i == acts[n].pid {
      InvAlways(tr, acts, n);
      OwnStepExplained(tr, acts, n, i, acts[n].choice);
    } else if i < |tr[n].procs| {
      OthersStay(tr, acts, n, i);
      assert CallExplained(tr, n, i);
      if tr[n].procs[i].work.Calling? { ExplainedLater(tr, n, tr[n].procs[i].work.call); }
    }
  }

  lemma {:induction false} ExplainedAlways(tr: seq<State>, acts: seq<Action>, n: nat)
    requires Behaviour(tr, acts) && n < |tr|
    ensures AllExplained(tr, n)
  {
    if n > 0 {
      ExplainedAlways(tr, acts, n - 1);
      forall i | 0 <= i < |tr[n].procs| ensures CallExplained(tr, n, i) {
        StepExplained(tr, acts, n - 1, i);
      }
    }
  }

  /** Coroutine `i` is in a call of `execute` that has just returned. */
  ghost predicate HasReturned(s: State, i: nat, result: ExecResult) {
    i < |s.procs| && s.procs[i].work.Calling? && s.procs[i].work.call.pc == Returned(result)
  }

  /** A call that returns a row inserted it during the call, or found it active for
      its pair, or holding its key, at some moment during the call. */
  lemma ExecuteLinearizes(tr: seq<State>, acts: seq<Action>, n: nat, i: nat, result: ExecResult)
    requires Behaviour(tr, acts) && n < |tr| && HasReturned(tr[n], i, result)
    ensures var c := tr[n].procs[i].work.call;
      && c.since <= n
      && match result
         case Created(r) => exists t | c.since <= t < n :: InsertedAt(tr, c, r, t)
         case Existing(r) => exists t | c.since <= t <= n :: Matches(tr[t].runs, c, r)
         case UniqueViolation => exists t | c.since <= t <= n :: RefusedAt(tr, c, t)
    ensures var c := tr[n].procs[i].work.call;
      match result
      case Created(r) => exists t | c.since <= t < n ::
        && r == |tr[t].runs|
        && tr[t + 1].runs == tr[t].runs + [Run(c.thread, c.assistant, c.triggeredBy, c.key, Pending, None, None)]
      case Existing(r) => exists t | c.since <= t <= n ::
        && r < |tr[t].runs|
        && var row := tr[t].runs[r];
        && row.thread == c.thread
        && ((row.assistant == c.assistant && (row.status.Pending? || row.status.Running?))
            || (c.key.Some? && c.key.value != "" && row.key == c.key))
      case UniqueViolation => exists t, r | c.since <= t <= n && 0 <= r < |tr[t].runs| ::
        && var row := tr[t].runs[r];
        && row.thread == c.thread
        && ((row.assistant == c.assistant && (row.status.Pending? || row.status.Running?))
            || (c.key.Some? && row.key == c.key))
  {
    ExplainedAlways(tr, acts, n);
    var c := tr[n].procs[i].work.call;
    assert CallExplained(tr, n, i);
    if result.UniqueViolation? {
      var t, u, v :| c.since <= t <= u <= v <= n &&
        RefusedAt(tr, c, t) && NoActive(tr[u].runs, c) && (Truthy(c.key) ==> NoKey(tr[v].runs, c));
    }
  }

  /** Row `r` was active for the call's pair at `t` and finished by `u`. */
  ghost predicate EndedBetween(tr: seq<State>, c: Call, r: RunId, t: nat, u: nat)
    requires t <= u < |tr|
  {
    && r < |tr[t].runs| && r < |tr[u].runs|
    && tr[t].runs[r].thread == c.thread && tr[t].runs[r].assistant == c.assistant
    && (tr[t].runs[r].status.Pending? || tr[t].runs[r].status.Running?)
    && !tr[u].runs[r].status.Pending? && !tr[u].runs[r].status.Running?
  }

  /** The moments that explain a raise: the table refused the row, then had no active
      run of the pair, then no row with the key, if it is truthy. */
  lemma RaiseMoments(tr: seq<State>, acts: seq<Action>, n: nat, i: nat) returns (t: nat, u: nat, v: nat)
    requires Behaviour(tr, acts) && n < |tr| && HasReturned(tr[n], i, UniqueViolation)
    ensures var c := tr[n].procs[i].work.call;
      && c.since <= t <= u <= v <= n
      && RefusedAt(tr, c, t) && NoActive(tr[u].runs, c) && (Truthy(c.key) ==> NoKey(tr[v].runs, c))
  {
    ExplainedAlways(tr, acts, n);
    var c := tr[n].procs[i].work.call;
    assert CallExplained(tr, n, i);
    t, u, v :| c.since <= t <= u <= v <= n &&
      RefusedAt(tr, c, t) && NoActive(tr[u].runs, c) && (Truthy(c.key) ==> NoKey(tr[v].runs, c));
  }

  /** `execute` re-raises only when the active run it clashed with ended between a
      moment that refused the insert and a later one without an active run, except
      that with the empty key it may also have clashed with a row that holds the
      empty key. */
  lemma RaisesOnlyIfRunEnded(tr: seq<State>, acts: seq<Action>, n: nat, i: nat)
    requires Behaviour(tr, acts) && n < |tr| && HasReturned(tr[n], i, UniqueViolation)
    ensures var c := tr[n].procs[i].work.call;
      || (exists t, u, r | c.since <= t <= u <= n ::
            RefusedAt(tr, c, t) && EndedBetween(tr, c, r, t, u) && NoActive(tr[u].runs, c))
      || (c.key == Some("") && exists t | c.since <= t <= n :: !NoKey(tr[t].runs, c))
  {
    var c := tr[n].procs[i].work.call;
    var t, u, v := RaiseMoments(tr, acts, n, i);
    var r :| 0 <= r < |tr[t].runs| && Clash(NewRow(c), tr[t].runs[r]);
    Exclusivity.RowsEvolve(tr, acts, t, u);
    Exclusivity.RowsEvolve(tr, acts, t, v);
    if ActiveFor(tr[t].runs[r], c.thread, c.assistant) {
      assert RefusedAt(tr, c, t) && EndedBetween(tr, c, r, t, u) && NoActive(tr[u].runs, c);
    } else {
      assert HoldsKey(tr[v].runs[r], c.thread, c.key.value);
    }
  }

  /** Once a row holds a truthy key, every later call with that key returns it. */
  lemma KeyIsIdempotent(tr: seq<State>, acts: seq<Action>, n: nat, i: nat, result: ExecResult, r: RunId)
    requires Behaviour(tr, acts) && n < |tr| && HasReturned(tr[n], i, result)
    requires var c := tr[n].procs[i].work.call;
      && c.since < |tr| && r < |tr[c.since].runs|
      && c.key.Some? && c.key.value != ""
      && tr[c.since].runs[r].thread == c.thread && tr[c.since].runs[r].key == c.key
    ensures result == Existing(r)
  {
    ExplainedAlways(tr, acts, n);
    assert CallExplained(tr, n, i);
  }

  // ----- a call that nothing interferes with -----

  function PcRank(pc: CallPc): nat {
    match pc
    case AtKeyLookup => 4
    case AtActiveLookup => 3
    case AtInsert => 2
    case AtRecoverActive => 1
    case _ => 0
  }

  predicate CanRunAlone(c: Call) {
    !c.pc.Returned? && !c.pc.AtSpawn? && (c.pc.AtKeyLookup? || c.pc.AtRecoverKey? ==> Truthy(c.key))
  }

  /** The result of a call when no other coroutine moves. */
  function Alone(runs: seq<Run>, c: Call): ExecResult
    requires CanRunAlone(c)
    decreases PcRank(c.pc)
  {
    var (c', _) := CallStep(runs, c);
    if c'.pc.Returned? then c'.pc.result
    else if c'.pc.AtSpawn? then Created(c'.pc.run)
    else Alone(runs, c')
  }

  /** The steps of a lone call, put together. */
  lemma AloneShape(runs: seq<Run>, c: Call)
    requires c == BeginCall(c.thread, c.assistant, c.triggeredBy, c.key, c.depth, c.since)
    ensures CanRunAlone(c)
    ensures Alone(runs, c) ==
      if Truthy(c.key) && FindByKey(runs, c.thread, c.key.value).Some?
        then Existing(FindByKey(runs, c.thread, c.key.value).value)
      else if FindActive(runs, c.thread, c.assistant).Some? then Existing(FindActive(runs, c.thread, c.assistant).value)
      else if Admits(runs, NewRow(c)) then Created(|runs|)
      else UniqueViolation
  {
    var recover := c.(pc := AtRecoverActive);
    assert
      FindActive(runs, c.thread, c.assistant).None? && (Truthy(c.key) ==> FindByKey(runs, c.thread, c.key.value).None?)
      ==> Alone(runs, recover) == UniqueViolation;
    assert Alone(runs, c.(pc := AtInsert)) == if Admits(runs, NewRow(c)) then Created(|runs|) else Alone(runs, recover);
    assert Alone(runs, c.(pc := AtActiveLookup)) ==
      match FindActive(runs, c.thread, c.assistant)
      case Some(r) => Existing(r)
      case None => Alone(runs, c.(pc := AtInsert));
  }

  /** The sequential meaning of `execute`. An undisturbed call raises exactly when
      its key is the empty string, some row of the thread holds the empty key, and
      the pair has no active run. */
  lemma UndisturbedOutcome(runs: seq<Run>, thread: Id, assistant: Id, author: Id, key: Option<string>)
    requires IndexesHold(runs)
    ensures var c := BeginCall(thread, assistant, author, key, 0, 0);
      var result := Alone(runs, c);
      && (result.UniqueViolation? <==> key == Some("") && !NoKey(runs, c) && NoActive(runs, c))
      && (result.Created? <==> Admits(runs, NewRow(c)))
      && (result.Created? ==> result.run == |runs|)
      && (result.Existing? ==> Matches(runs, c, result.run))
      && (result.Existing? && Truthy(key) && !NoKey(runs, c) ==> HoldsKey(runs[result.run], thread, key.value))
  {
    var c := BeginCall(thread, assistant, author, key, 0, 0);
    var row := NewRow(c);
    AloneShape(runs, c);
    assert Admits(runs, row) <==> NoActive(runs, c) && (key.Some? ==> NoKey(runs, c)) by {
      assert forall i | 0 <= i < |runs| ::
        Clash(row, runs[i]) <==>
          ActiveFor(runs[i], thread, assistant) || (key.Some? && HoldsKey(runs[i], thread, key.value));
    }
  }
}
