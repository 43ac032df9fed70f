/** What one run of `_drive` leaves in its row and in the log, as a function of where
    faults struck it. */
module Job {
  import opened Types
  import opened RunTable
  import opened Protocol
  import opened EventLoop
  import Exclusivity
  import Recipients
  import Trace

  // ----- the events of a driver -----

  /** One event that the driver publishes. */
  datatype Draft = Draft(kind: Kind, recipients: Option<seq<Id>>, text: string, stamp: Stamp)

  function LifecycleDraft(kind: Kind, stamp: Stamp): Draft {
    Draft(kind, None, "", stamp)
  }

  /** The event that publishing a draft logs. */
  function EventOf(row: Run, run: RunId, d: Draft): Event {
    Event(d.stamp.id, d.stamp.createdAt, row.thread, Some(run), row.assistant,
          Recipients.Normalize(d.recipients, row.assistant), d.kind, d.text, false)
  }

  function EventsOf(row: Run, run: RunId, drafts: seq<Draft>): seq<Event> {
    seq(|drafts|, i requires 0 <= i < |drafts| => EventOf(row, run, drafts[i]))
  }

  function KindsOf(drafts: seq<Draft>): seq<Kind> {
    seq(|drafts|, i requires 0 <= i < |drafts| => drafts[i].kind)
  }

  lemma KindsOfEvents(row: Run, run: RunId, drafts: seq<Draft>)
    ensures Trace.Kinds(EventsOf(row, run, drafts)) == KindsOf(drafts)
  {
  }

  // ----- faults -----

  /** Where a fault came from: an await delivered it, the store refused a used event id,
      or the handler itself ended with it. */
  datatype Source = Delivered | Refused | Own

  datatype Hit = Hit(phase: Phase, logged: bool, cause: Cause, source: Source)

  /** At most one fault strikes the `try` block, one the handler clause that it leads to,
      and one the cleanup. */
  datatype Hits = Hits(body: Option<Hit>, clause: Option<Hit>, cleanup: Option<Hit>)

  function StrikesOf(h: Option<Hit>): seq<Strike> {
    if h.Some? && h.value.source.Delivered?
    then [Strike(AtDriver(h.value.phase, h.value.logged), h.value.cause)]
    else []
  }

  /** The faults among the hits that awaits delivered. */
  function Strikes(hits: Hits): seq<Strike> {
    StrikesOf(hits.body) + StrikesOf(hits.clause) + StrikesOf(hits.cleanup)
  }

  lemma StruckTwice(a: seq<Strike>, b: seq<Strike>, c: seq<Strike>, h: Option<Hit>, k: Option<Hit>)
    requires b == a + StrikesOf(h) && c == b + StrikesOf(k)
    ensures c == a + Strikes(Hits(h, k, None))
  {
  }

  lemma StruckLast(a: seq<Strike>, b: seq<Strike>, c: seq<Strike>, hits: Hits)
    requires b == a + Strikes(hits.(cleanup := None)) && c == b + StrikesOf(hits.cleanup)
    ensures c == a + Strikes(hits)
  {
  }

  function Struck(spoil: Spoil, h: Option<Hit>): Spoil {
    if h.Some? then Spoiled(spoil, h.value.phase, h.value.logged) else spoil
  }

  function SpoilOf(hits: Hits): Spoil {
    Struck(Struck(Struck(Unspoilt, hits.body), hits.clause), hits.cleanup)
  }

  // ----- one run -----

  /** A driver's task: its row when it starts, what its handler yields and how it ends,
      and the stamps of its lifecycle events. */
  datatype Assignment = Assignment(
    run: RunId,
    row: Run,
    started: Stamp,
    drafts: seq<Draft>,
    outcome: Option<Cause>,
    completed: Stamp,
    ended: Stamp)

  function RunningRow(w: Assignment): Run {
    WithStatus(w.row, Running, None, w.started.createdAt)
  }

  function CompletedRow(w: Assignment): Run {
    WithStatus(RunningRow(w), Completed, None, w.completed.createdAt)
  }

  function StartDraft(w: Assignment): Draft {
    LifecycleDraft(RunStarted, w.started)
  }

  function CompletionDraft(w: Assignment): Draft {
    LifecycleDraft(RunCompleted, w.completed)
  }

  function EndDraft(w: Assignment, cause: Cause): Draft {
    LifecycleDraft(TerminalKind(StatusFor(cause)), w.ended)
  }

  /** The fault that ends the `try` block. `n` of the handler's drafts were logged. */
  ghost predicate BodyFits(w: Assignment, h: Hit, n: nat) {
    && n <= |w.drafts|
    && match h.phase
       case Starting => h.source.Delivered? && !h.logged && n == 0
       case Announcing => !h.source.Own? && n == 0
       case Consuming(open) =>
         && open == map[]
         && (h.source.Own? ==> !h.logged && n == |w.drafts| && w.outcome == Some(h.cause))
         && (h.source.Refused? ==> n < |w.drafts|)
       case Writing(guarded, status, error) =>
         && h.phase == Writing(true, Completed, None)
         && h.source.Delivered? && !h.logged && n == |w.drafts| && w.outcome.None?
       case Ending(guarded, status) =>
         h.phase == Ending(true, Completed) && !h.source.Own? && n == |w.drafts| && w.outcome.None?
       case _ => false
  }

  /** The fault that ends the handler clause for `cause`. */
  ghost predicate ClauseFits(cause: Cause, h: Hit) {
    || (h.phase == Writing(false, StatusFor(cause), ErrorFor(cause)) && h.source.Delivered? && !h.logged)
    || (h.phase == Ending(false, StatusFor(cause)) && !h.source.Own?)
  }

  ghost predicate RefusalFits(h: Option<Hit>) {
    h.Some? && h.value.source.Refused? ==> !h.value.logged && h.value.cause == Raised
  }

  /** The hits are ones that this run can meet. */
  ghost predicate Possible(w: Assignment, hits: Hits, n: nat) {
    && (match hits.body
        case None => n == |w.drafts| && w.outcome.None? && hits.clause.None?
        case Some(h) => BodyFits(w, h, n) && (hits.clause.Some? ==> ClauseFits(h.cause, hits.clause.value)))
    && (hits.cleanup.Some? ==> hits.cleanup.value == Hit(Flushing, false, hits.cleanup.value.cause, Delivered))
    && RefusalFits(hits.body) && RefusalFits(hits.clause)
  }

  /** The event id that the store refused, when it did. */
  function RefusedId(w: Assignment, h: Hit, n: nat): Id {
    match h.phase
    case Announcing => w.started.id
    case Consuming(_) => if n < |w.drafts| then w.drafts[n].stamp.id else ""
    case Ending(guarded, _) => if guarded then w.completed.id else w.ended.id
    case _ => ""
  }

  /** The row after the `try` block. */
  function RowTried(w: Assignment, body: Option<Hit>): Run {
    if body.None? || body.value.phase.Ending? then CompletedRow(w)
    else if body.value.phase.Starting? then w.row
    else RunningRow(w)
  }

  /** What the `try` block logs. */
  function DraftsTried(w: Assignment, body: Option<Hit>, n: nat): seq<Draft>
    requires n <= |w.drafts|
  {
    if body.None? then [StartDraft(w)] + w.drafts[..n] + [CompletionDraft(w)]
    else
      match body.value.phase
      case Starting => []
      case Announcing => if body.value.logged then [StartDraft(w)] else []
      case Ending(_, _) => [StartDraft(w)] + w.drafts[..n] + if body.value.logged then [CompletionDraft(w)] else []
      case _ => [StartDraft(w)] + w.drafts[..n]
  }

  /** The row after the handler clause: the clause writes it unless a fault strikes that
      write. */
  function RowLeft(w: Assignment, hits: Hits): Run {
    var row := RowTried(w, hits.body);
    if hits.body.None? || (hits.clause.Some? && hits.clause.value.phase.Writing?) then row
    else WithStatus(row, StatusFor(hits.body.value.cause), ErrorFor(hits.body.value.cause), w.ended.createdAt)
  }

  /** Everything that the run logs. */
  function DraftsLeft(w: Assignment, hits: Hits, n: nat): seq<Draft>
    requires n <= |w.drafts|
  {
    DraftsTried(w, hits.body, n) +
    if hits.body.None? || (hits.clause.Some? && !hits.clause.value.logged) then []
    else [EndDraft(w, hits.body.value.cause)]
  }

  /** The handler clauses raise their fault again, except a timeout, unless another one
      strikes them or the cleanup. */
  function RaisedBy(hits: Hits): Option<Cause> {
    if hits.cleanup.Some? then Some(hits.cleanup.value.cause)
    else if hits.clause.Some? then Some(hits.clause.value.cause)
    else if hits.body.None? || hits.body.value.cause.DeadlinePassed? || hits.body.value.cause.RaisedTimeout? then None
    else Some(hits.body.value.cause)
  }

  /** A fault strikes the status write of a handler clause, and the `try` block has not
      completed the row. */
  predicate Strands(hits: Hits) {
    && hits.clause.Some? && hits.clause.value.phase.Writing?
    && !(hits.body.Some? && hits.body.value.phase.Ending?)
  }

  /** The row stays active exactly when that happens. */
  lemma LeftIsActive(w: Assignment, hits: Hits, n: nat)
    requires Possible(w, hits, n) && w.row.status.Pending?
    ensures IsActive(RowLeft(w, hits).status) <==> Strands(hits)
  {
  }

  /** What became of the handler, or struck instead. */
  function OutcomeOf(hits: Hits): Option<Cause> {
    if hits.body.None? then None else Some(hits.body.value.cause)
  }

  /** The line of the table of outcomes, when nothing strikes the handler clause or the
      cleanup. A timeout is not raised again, any other fault is. */
  lemma LeftTable(w: Assignment, hits: Hits, n: nat)
    requires Possible(w, hits, n) && n <= |w.drafts| && hits.clause.None? && hits.cleanup.None?
    ensures var row, drafts, outcome := RowLeft(w, hits), DraftsLeft(w, hits, n), OutcomeOf(hits);
      && drafts != []
      && var end := drafts[|drafts| - 1];
      && Trace.EndsAs(outcome, row, end.kind)
      && end.stamp == (if outcome.None? then w.completed else w.ended) && end.recipients.None?
      && RaisedBy(hits) == if outcome == Some(CancelRequested) || outcome == Some(Raised) then outcome else None
  {
  }

  /** The events of these drafts, field by field. */
  lemma EventsAreSigned(row: Run, run: RunId, drafts: seq<Draft>)
    ensures var es := EventsOf(row, run, drafts);
      && |es| == |drafts|
      && forall i | 0 <= i < |es| ::
           && es[i].thread == row.thread && es[i].author == row.assistant && es[i].run == Some(run)
           && es[i].id == drafts[i].stamp.id && es[i].createdAt == drafts[i].stamp.createdAt
           && es[i].kind == drafts[i].kind && es[i].text == drafts[i].text && !es[i].streamed
           && Recipients.WellFormed(es[i].recipients, row.assistant)
           && (drafts[i].recipients.None? ==> es[i].recipients.None?)
  {
    forall i | 0 <= i < |drafts| { Recipients.NormalizedShape(drafts[i].recipients, row.assistant); }
  }

  // ----- the grammar -----

  lemma OpenIsNotClosed(ks: seq<Kind>, status: Status)
    requires Trace.OpenTrace(ks)
    ensures !Trace.ClosedTrace(ks, status)
  {
    if |ks| >= 2 { assert IsHandlerKind(ks[|ks| - 1]); }
  }

  lemma OpenThenEnd(ks: seq<Kind>, end: Kind, status: Status)
    requires Trace.OpenTrace(ks)
    ensures Trace.ClosedTrace(ks + [end], status) <==> !IsActive(status) && end == TerminalKind(status)
  {
    assert (ks + [end])[..|ks|] == ks;
  }

  lemma TwoEndsAreNotClosed(ks: seq<Kind>, end: Kind, status: Status)
    requires Trace.OpenTrace(ks)
    ensures !Trace.ClosedTrace(ks + [RunCompleted] + [end], status)
  {
    var all := ks + [RunCompleted] + [end];
    assert all[..|all| - 1] == ks + [RunCompleted];
    assert (ks + [RunCompleted])[|ks|] == RunCompleted;
  }

  lemma HandlerIsOpen(w: Assignment, n: nat)
    requires n <= |w.drafts| && forall i | 0 <= i < |w.drafts| :: IsHandlerKind(w.drafts[i].kind)
    ensures Trace.OpenTrace(KindsOf([StartDraft(w)] + w.drafts[..n]))
  {
  }

  lemma KindsOfNext(drafts: seq<Draft>, d: Draft)
    ensures KindsOf(drafts + [d]) == KindsOf(drafts) + [d.kind]
  {
  }

  /** The run's events are `run.started`, handler events and exactly one terminal event
      that matches the final row if and only if the hits did not spoil them. */
  lemma LeftIsClosed(w: Assignment, hits: Hits, n: nat)
    requires Possible(w, hits, n) && n <= |w.drafts| && w.row.status.Pending?
    requires forall i | 0 <= i < |w.drafts| :: IsHandlerKind(w.drafts[i].kind)
    ensures Trace.ClosedTrace(KindsOf(DraftsLeft(w, hits, n)), RowLeft(w, hits).status) <==> SpoilOf(hits).Unspoilt?
  {
    var open := [StartDraft(w)] + w.drafts[..n];
    HandlerIsOpen(w, n);
    KindsOfNext(open, CompletionDraft(w));
    if hits.body.None? {
      OpenThenEnd(KindsOf(open), RunCompleted, Completed);
      assert DraftsLeft(w, hits, n) == open + [CompletionDraft(w)];
    } else {
      BodyStruck(w, hits, n);
    }
  }

  lemma BodyStruck(w: Assignment, hits: Hits, n: nat)
    requires Possible(w, hits, n) && n <= |w.drafts| && w.row.status.Pending? && hits.body.Some?
    requires forall i | 0 <= i < |w.drafts| :: IsHandlerKind(w.drafts[i].kind)
    ensures Trace.ClosedTrace(KindsOf(DraftsLeft(w, hits, n)), RowLeft(w, hits).status) <==> SpoilOf(hits).Unspoilt?
  {
    var h := hits.body.value;
    if h.phase.Starting? || (h.phase.Announcing? && !h.logged) { NothingThenClause(w, hits, n); }
    else if h.phase.Ending? && h.logged { ClosedThenClause(w, hits, n); }
    else { OpenThenClause(w, hits, n); }
  }

  lemma NothingThenClause(w: Assignment, hits: Hits, n: nat)
    requires Possible(w, hits, n) && n <= |w.drafts| && hits.body.Some?
    requires hits.body.value.phase.Starting? || (hits.body.value.phase.Announcing? && !hits.body.value.logged)
    ensures !Trace.ClosedTrace(KindsOf(DraftsLeft(w, hits, n)), RowLeft(w, hits).status) && SpoilOf(hits).NoStart?
  {
    assert |KindsOf(DraftsLeft(w, hits, n))| <= 1;
  }

  lemma ClosedThenClause(w: Assignment, hits: Hits, n: nat)
    requires Possible(w, hits, n) && n <= |w.drafts| && hits.body.Some?
    requires hits.body.value.phase.Ending? && hits.body.value.logged
    requires forall i | 0 <= i < |w.drafts| :: IsHandlerKind(w.drafts[i].kind)
    ensures Trace.ClosedTrace(KindsOf(DraftsLeft(w, hits, n)), RowLeft(w, hits).status) <==> SpoilOf(hits).Unspoilt?
  {
    var open, end := [StartDraft(w)] + w.drafts[..n], EndDraft(w, hits.body.value.cause);
    var tried, status := open + [CompletionDraft(w)], RowLeft(w, hits).status;
    HandlerIsOpen(w, n);
    KindsOfNext(open, CompletionDraft(w));
    KindsOfNext(tried, end);
    TwoEndsAreNotClosed(KindsOf(open), end.kind, status);
    OpenThenEnd(KindsOf(open), RunCompleted, status);
    assert DraftsLeft(w, hits, n) == if hits.clause.None? || hits.clause.value.logged then tried + [end] else tried;
  }

  lemma OpenThenClause(w: Assignment, hits: Hits, n: nat)
    requires Possible(w, hits, n) && n <= |w.drafts| && w.row.status.Pending? && hits.body.Some?
    requires forall i | 0 <= i < |w.drafts| :: IsHandlerKind(w.drafts[i].kind)
    requires DraftsTried(w, hits.body, n) == [StartDraft(w)] + w.drafts[..n]
    requires Struck(Unspoilt, hits.body).Unspoilt?
    ensures Trace.ClosedTrace(KindsOf(DraftsLeft(w, hits, n)), RowLeft(w, hits).status) <==> SpoilOf(hits).Unspoilt?
  {
    var open, end := [StartDraft(w)] + w.drafts[..n], EndDraft(w, hits.body.value.cause);
    var left, status := DraftsLeft(w, hits, n), RowLeft(w, hits).status;
    HandlerIsOpen(w, n);
    KindsOfNext(open, end);
    OpenIsNotClosed(KindsOf(open), status);
    OpenThenEnd(KindsOf(open), end.kind, status);
    assert left == if hits.clause.None? || hits.clause.value.logged then open + [end] else open;
  }

  // ----- what a driver does itself -----

  /** A change to the one row, one event of the run, or its dict entries. */
  ghost predicate OwnDeed(d: Deed, run: RunId) {
    && run < |d.before.runs| && run < |d.after.runs|
    && d.after.runs == d.before.runs[run := d.after.runs[run]]
    && (d.after.events == d.before.events
        || (d.after.events != [] && d.after.events[..|d.after.events| - 1] == d.before.events
            && d.after.events[|d.after.events| - 1].run == Some(run)))
    && d.after.members == d.before.members && d.after.threads == d.before.threads
    && d.after.handlers == d.before.handlers
    && d.after.tasks + {run} == d.before.tasks + {run}
    && d.after.depths - {run} == d.before.depths - {run}
  }

  ghost predicate OwnDeeds(before: seq<Deed>, after: seq<Deed>, run: RunId) {
    before <= after && forall k | |before| <= k < |after| :: OwnDeed(after[k], run)
  }

  /** Rows and log only grow, the task stays what it was, and the coroutine itself
      touched nothing but its run. */
  ghost predicate Acts(run: RunId, a: View, b: View) {
    && Exclusivity.Evolves(a.now.runs, b.now.runs)
    && a.now.events <= b.now.events
    && a.seen <= b.seen && a.history <= b.history
    && OwnDeeds(a.deeds, b.deeds, run)
    && (run in a.now.tasks <==> run in b.now.tasks)
  }

  lemma OwnDeedsTwice(a: seq<Deed>, b: seq<Deed>, c: seq<Deed>, run: RunId)
    requires OwnDeeds(a, b, run) && OwnDeeds(b, c, run)
    ensures OwnDeeds(a, c, run)
  {
    forall k | |a| <= k < |c| ensures OwnDeed(c[k], run) {
      assert k < |b| ==> c[k] == b[k];
    }
  }

  lemma ActsTwice(run: RunId, a: View, b: View, c: View)
    requires Acts(run, a, b) && Acts(run, b, c)
    ensures Acts(run, a, c)
  {
    EvolvesTwice(a.now.runs, b.now.runs, c.now.runs);
    OwnDeedsTwice(a.deeds, b.deeds, c.deeds, run);
  }

  lemma EvolvesTwice(a: seq<Run>, b: seq<Run>, c: seq<Run>)
    requires Exclusivity.Evolves(a, b) && Exclusivity.Evolves(b, c)
    ensures Exclusivity.Evolves(a, c)
  {
  }

  /** A status write of its own row. */
  lemma WriteActs(run: RunId, a: View, b: View, status: Status, error: Option<ErrorCode>, at: int)
    requires run < |a.now.runs| && Rank(a.now.runs[run].status) <= Rank(status)
    requires b.now == a.now.(runs := a.now.runs[run := WithStatus(a.now.runs[run], status, error, at)])
    requires b.deeds == if b.now == a.now then a.deeds else a.deeds + [Deed(a.now, b.now)]
    requires b.seen == a.seen && b.history == a.history
    ensures Acts(run, a, b)
  {
  }

  /** One more event of its run. */
  lemma AppendActs(run: RunId, a: View, b: View, e: Event)
    requires run < |a.now.runs| && e.run == Some(run) && b.now == a.now.(events := a.now.events + [e])
    requires b.deeds == a.deeds + [Deed(a.now, b.now)] && b.seen == a.seen && b.history == a.history
    ensures Acts(run, a, b)
  {
  }

  /** The fault of publishing an event in this phase: delivered by an await, or the
      refusal of an id that is used in a world of the call. */
  ghost predicate HitOf(
    h: Option<Hit>, fault: Option<Cause>, phase: Phase, logged: bool, id: Id, seen: seq<World>, from: nat)
  {
    match fault
    case None => h.None? && logged
    case Some(cause) =>
      && h.Some?
      && (h == Some(Hit(phase, logged, cause, Delivered))
          || (h == Some(Hit(phase, false, Raised, Refused)) && cause == Raised && !logged && UsedIn(seen, from, id)))
  }

  /** A refused id was used in a world of the call. */
  ghost predicate RefusalTrue(h: Option<Hit>, w: Assignment, n: nat, seen: seq<World>, from: nat) {
    h.Some? && h.value.source.Refused? ==> UsedIn(seen, from, RefusedId(w, h.value, n))
  }

  lemma RefusalLater(h: Option<Hit>, w: Assignment, n: nat, seen: seq<World>, later: seq<World>, from: nat)
    requires RefusalTrue(h, w, n, seen, from) && seen <= later
    ensures RefusalTrue(h, w, n, later, from)
  {
    if h.Some? && h.value.source.Refused? { UsedLater(seen, from, later, from, RefusedId(w, h.value, n)); }
  }

  lemma RefusalEarlier(h: Option<Hit>, w: Assignment, n: nat, seen: seq<World>, from: nat, from': nat)
    requires RefusalTrue(h, w, n, seen, from) && from' <= from
    ensures RefusalTrue(h, w, n, seen, from')
  {
    if h.Some? && h.value.source.Refused? { UsedLater(seen, from, seen, from', RefusedId(w, h.value, n)); }
  }

  /** Everything a driver may publish. */
  function AllDrafts(w: Assignment): seq<Draft> {
    [StartDraft(w)] + (w.drafts + ([CompletionDraft(w)] + [LifecycleDraft(RunFailed, w.ended)]))
  }

  lemma LastIsFresh(d: Draft, last: Stamp, kind: Kind, events: seq<Event>)
    ensures FreshIds([d] + [LifecycleDraft(RunFailed, last)], events) ==>
            FreshIds([LifecycleDraft(kind, last)] + [], events)
  {
    assert ([d] + [LifecycleDraft(RunFailed, last)])[1] == LifecycleDraft(RunFailed, last);
  }

  /** The only hit is the handler's own outcome, if that is a fault. */
  predicate OnlyOutcome(w: Assignment, hits: Hits) {
    && hits.clause.None? && hits.cleanup.None?
    && match w.outcome
       case None => hits.body.None?
       case Some(cause) => hits.body.Some? && hits.body.value.source.Own? && hits.body.value.cause == cause
  }

  /** Releasing the dict entries touches nothing but the run. */
  lemma OwnDeedsNext(deeds: seq<Deed>, a: View, b: View, run: RunId)
    requires OwnDeeds(deeds, a.deeds, run) && run < |a.now.runs|
    requires b.now == a.now.(tasks := a.now.tasks - {run}, depths := a.now.depths - {run})
    requires b.deeds == if b.now == a.now then a.deeds else a.deeds + [Deed(a.now, b.now)]
    ensures OwnDeeds(deeds, b.deeds, run)
  {
  }

  lemma HitEarlier(
    h: Option<Hit>, fault: Option<Cause>, phase: Phase, logged: bool, id: Id, seen: seq<World>, from: nat, from': nat)
    requires HitOf(h, fault, phase, logged, id, seen, from) && from' <= from
    ensures HitOf(h, fault, phase, logged, id, seen, from')
  {
    if fault.Some? && h != Some(Hit(phase, logged, fault.value, Delivered)) { UsedLater(seen, from, seen, from', id); }
  }

  /** What the handler clause leaves, from what writing and publishing the end did. */
  lemma ClauseEnds(
    w: Assignment, h: Hit, k: Option<Hit>, fault: Option<Cause>, wrote: bool, logged: bool, n: nat,
    seen: seq<World>, from: nat)
    requires n <= |w.drafts|
    requires var status := StatusFor(h.cause);
      if wrote then HitOf(k, fault, Ending(false, status), logged, w.ended.id, seen, from)
      else
        && fault.Some? && !logged
        && k == Some(Hit(Writing(false, status, ErrorFor(h.cause)), false, fault.value, Delivered))
    ensures k.Some? ==> ClauseFits(h.cause, k.value) && RefusalFits(k)
    ensures RefusalTrue(k, w, n, seen, from)
    ensures fault == if k.Some? then Some(k.value.cause) else None
    ensures RowLeft(w, Hits(Some(h), k, None)) ==
            var row := RowTried(w, Some(h));
            if wrote then WithStatus(row, StatusFor(h.cause), ErrorFor(h.cause), w.ended.createdAt) else row
    ensures DraftsLeft(w, Hits(Some(h), k, None), n) ==
            DraftsTried(w, Some(h), n) + if logged then [EndDraft(w, h.cause)] else []
  {
  }

  lemma AllSlices<T>(s: seq<T>)
    ensures s[0..] == s && s[..0] == [] && s[..|s|] == s && s[|s|..] == []
  {
  }

  /** One more draft: from the ones to come to the ones that were logged. */
  lemma NextDraft(start: Draft, drafts: seq<Draft>, i: nat, rest: seq<Draft>)
    requires i < |drafts|
    ensures drafts[i..] + rest == [drafts[i]] + (drafts[i + 1..] + rest)
    ensures [start] + drafts[..i + 1] == ([start] + drafts[..i]) + [drafts[i]]
  {
  }

  predicate FreshIds(drafts: seq<Draft>, events: seq<Event>) {
    && (forall i, j | 0 <= i < j < |drafts| :: drafts[i].stamp.id != drafts[j].stamp.id)
    && forall i, k | 0 <= i < |drafts| && 0 <= k < |events| :: events[k].id != drafts[i].stamp.id
  }

  lemma FreshNext(d: Draft, rest: seq<Draft>, events: seq<Event>, e: Event)
    requires FreshIds([d] + rest, events) && e.id == d.stamp.id
    ensures forall k | 0 <= k < |events| :: events[k].id != d.stamp.id
    ensures FreshIds(rest, events + [e])
  {
    var all := [d] + rest;
    assert all[0] == d && forall i | 0 <= i < |rest| :: all[i + 1] == rest[i];
  }
}
