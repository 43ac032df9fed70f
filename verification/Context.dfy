/** `HandlerContext.query_event`: the message a run answers. */
module Context {
  import opened Types
  import opened Sorting
  import opened Keys
  import opened RunTable
  import opened Protocol
  import Paging
  import Listing
  import EventLog

  const QUERY_LOOKBACK: nat := 50

  /** A message by the triggerer that is broadcast or directed at the assistant. */
  predicate Answers(e: Event, triggeredBy: Id, me: Id) {
    && e.kind.Message?
    && e.author == triggeredBy
    && (e.recipients.Some? && e.recipients.value != [] ==> me in e.recipients.value)
  }

  /** `r` is the last message by the triggerer that names no recipients or names `me`,
      and is missing when there is none. */
  ghost predicate IsLastAnswer(events: seq<Event>, triggeredBy: Id, me: Id, r: Option<Event>) {
    match r
    case None =>
      forall e | e in events ::
        e.kind.Message? && e.author == triggeredBy ==>
          e.recipients.Some? && e.recipients.value != [] && me !in e.recipients.value
    case Some(a) =>
      && a.kind.Message? && a.author == triggeredBy
      && (a.recipients.None? || a.recipients.value == [] || me in a.recipients.value)
      && exists i | 0 <= i < |events| :: events[i] == a && forall j | i < j < |events| ::
           events[j].kind.Message? && events[j].author == triggeredBy ==>
             events[j].recipients.Some? && events[j].recipients.value != [] && me !in events[j].recipients.value
  }

  function LastAnswer(events: seq<Event>, triggeredBy: Id, me: Id): Option<Event> {
    if events == [] then None
    else if Answers(events[|events| - 1], triggeredBy, me) then Some(events[|events| - 1])
    else LastAnswer(events[..|events| - 1], triggeredBy, me)
  }

  /** The backward walk over the events. */
  method QueryEvent(events: seq<Event>, triggeredBy: Id, me: Id) returns (r: Option<Event>)
    ensures r == LastAnswer(events, triggeredBy, me) && IsLastAnswer(events, triggeredBy, me, r)
  {
    LastAnswerMeaning(events, triggeredBy, me);
    var i := |events|;
    assert events[..i] == events;
    while i > 0
      invariant 0 <= i <= |events|
      invariant LastAnswer(events[..i], triggeredBy, me) == LastAnswer(events, triggeredBy, me)
    {
      assert events[..i][..i - 1] == events[..i - 1];
      i := i - 1;
      var evt := events[i];
      if !evt.kind.Message? { continue; }
      if evt.author != triggeredBy { continue; }
      if evt.recipients.Some? && evt.recipients.value != [] && me !in evt.recipients.value { continue; }
      return Some(evt);
    }
    return None;
  }

  lemma {:induction false} LastAnswerPlace(events: seq<Event>, triggeredBy: Id, me: Id)
    ensures match LastAnswer(events, triggeredBy, me)
      case None => forall e | e in events :: !Answers(e, triggeredBy, me)
      case Some(a) => exists i | 0 <= i < |events| ::
        events[i] == a && Answers(a, triggeredBy, me) && forall j | i < j < |events| ::
          !Answers(events[j], triggeredBy, me)
  {
    if events != [] {
      var init := events[..|events| - 1];
      assert events == init + [events[|events| - 1]];
      LastAnswerPlace(init, triggeredBy, me);
      if !Answers(events[|events| - 1], triggeredBy, me) && LastAnswer(init, triggeredBy, me).Some? {
        var i :| 0 <= i < |init| && init[i] == LastAnswer(init, triggeredBy, me).value
                 && forall j | i < j < |init| :: !Answers(init[j], triggeredBy, me);
        assert events[i] == init[i];
      }
    }
  }

  /** The last answer is an answer with none after it, and it is missing only when
      there is none at all. */
  lemma LastAnswerMeaning(events: seq<Event>, triggeredBy: Id, me: Id)
    ensures IsLastAnswer(events, triggeredBy, me, LastAnswer(events, triggeredBy, me))
  {
    LastAnswerPlace(events, triggeredBy, me);
  }

  /** `events`: a missing or zero limit means 100. */
  function Events(table: seq<Event>, thread: Id, limit: Option<nat>): seq<Event> {
    var most := if limit.Some? && limit.value > 0 then limit.value else 100;
    Listing.ListEvents(table, thread, None, None, None, most).items
  }

  /** In sorted events, no answer lies after the last one. */
  lemma NoLaterAnswer(events: seq<Event>, k: nat, triggeredBy: Id, me: Id)
    requires Sorted(Before, events) && k < |events| && Answers(events[k], triggeredBy, me)
    ensures var a := LastAnswer(events, triggeredBy, me);
      && a.Some? && a.value in events && Answers(a.value, triggeredBy, me)
      && (a.value == events[k] || Before(events[k], a.value))
  {
    LastAnswerPlace(events, triggeredBy, me);
    assert events[k] in events;
    var a := LastAnswer(events, triggeredBy, me).value;
    var i :| 0 <= i < |events| && events[i] == a && forall j | i < j < |events| :: !Answers(events[j], triggeredBy, me);
    assert k < i ==> Before(events[k], events[i]);
  }

  /** The lookback reads the oldest 50 events: exactly those at the first 50
      positions of the sorted log. */
  lemma LookbackExactly(table: seq<Event>, thread: Id, k: nat)
    requires UniqueIds(table) && k < |Listing.LogAfter(table, thread, None)|
    ensures var log := Listing.LogAfter(table, thread, None);
      log[k] in Events(table, thread, Some(QUERY_LOOKBACK)) <==> k < 50
  {
    var log := SortedLog(table, thread);
    SortedIsDistinct(Before, log);
    var read := Events(table, thread, Some(QUERY_LOOKBACK));
    assert k < QUERY_LOOKBACK ==> read[k] == log[k];
  }

  /** The log is strictly sorted, and the lookback is a prefix of it. */
  lemma SortedLog(table: seq<Event>, thread: Id) returns (log: seq<Event>)
    requires UniqueIds(table)
    ensures log == Listing.LogAfter(table, thread, None) && StrictOrder(Before) && Sorted(Before, log)
    ensures forall e :: e in log <==> e in table && e.thread == thread
    ensures Events(table, thread, Some(QUERY_LOOKBACK)) == Paging.Take(log, QUERY_LOOKBACK)
  {
    log := Listing.LogAfter(table, thread, None);
    BeforeIsStrict();
    Listing.LogMeaning(table, thread, None);
    Listing.LogIsSorted(table, thread, None);
    Paging.PageMeaning(table, KeyOf, KeyLess, Listing.Wanted(thread, None, None), None, QUERY_LOOKBACK);
  }

  /** `query_event` finds a message that answers, no earlier in log order than `e`. */
  ghost predicate FindsFrom(table: seq<Event>, thread: Id, triggeredBy: Id, me: Id, e: Event) {
    var found := LastAnswer(Events(table, thread, Some(QUERY_LOOKBACK)), triggeredBy, me);
    && found.Some? && found.value.kind.Message? && found.value.author == triggeredBy
    && (found.value.recipients.None? || found.value.recipients.value == [] || me in found.value.recipients.value)
    && (found.value == e || Precedes(e, found.value))
  }

  /** The exact law: the answer found is no earlier than a given answer exactly when
      that one is among the first 50 events of the thread. */
  lemma FindsFromExactly(table: seq<Event>, thread: Id, triggeredBy: Id, me: Id, k: nat)
    requires UniqueIds(table) && k < |Listing.LogAfter(table, thread, None)|
    requires var e := Listing.LogAfter(table, thread, None)[k];
      && e.kind.Message? && e.author == triggeredBy
      && (e.recipients.None? || e.recipients.value == [] || me in e.recipients.value)
    ensures FindsFrom(table, thread, triggeredBy, me, Listing.LogAfter(table, thread, None)[k]) <==> k < 50
  {
    var log := SortedLog(table, thread);
    var read := Events(table, thread, Some(QUERY_LOOKBACK));
    if k < QUERY_LOOKBACK {
      NoLaterAnswer(read, k, triggeredBy, me);
    } else {
      LastAnswerPlace(read, triggeredBy, me);
      var found := LastAnswer(read, triggeredBy, me);
      if found.Some? {
        var i :| 0 <= i < |read| && read[i] == found.value;
        assert log[i] == found.value && Before(log[i], log[k]);
        assert !Before(log[k], log[i]) && !Before(log[i], log[i]);
      }
    }
  }

  /** An auto-invoked handler finds its question: from any moment of a run that the
      recipient loop of message `e` started, `query_event` returns an answer no
      earlier in log order than `e` exactly when `e` is among the first 50 events
      of its thread. The same holds for every other message directed at the run. */
  lemma AutoInvokedFindsQuestion(tr: seq<State>, acts: seq<Action>, n: nat, i: nat)
    requires Behaviour(tr, acts) && n < |tr| && i < |tr[n].procs|
    requires tr[n].procs[i].owner.Driver? && tr[n].procs[i].owner.depth > 0
    ensures tr[n].procs[i].owner.run < |tr[n].runs|
    ensures exists t, e | 0 <= t < n :: EventLog.StartedFor(tr, acts, t, i, e)
    ensures var run := tr[n].runs[tr[n].procs[i].owner.run];
      var log := Listing.LogAfter(tr[n].events, run.thread, None);
      && (forall t, e | 0 <= t < n && EventLog.StartedFor(tr, acts, t, i, e) ::
            && e in log && e.kind.Message? && e.author == run.triggeredBy
            && e.recipients.Some? && run.assistant in e.recipients.value)
      && (forall k | 0 <= k < |log| && log[k].kind.Message? && log[k].author == run.triggeredBy
                     && log[k].recipients.Some? && run.assistant in log[k].recipients.value ::
            FindsFrom(tr[n].events, run.thread, run.triggeredBy, run.assistant, log[k]) <==> k < 50)
  {
    EventLog.AutoInvokedWasAsked(tr, acts, n, i);
    EventLog.LogAlways(tr, acts, n);
    var s := tr[n];
    var run := s.runs[s.procs[i].owner.run];
    var log := SortedLog(s.events, run.thread);
    forall k | 0 <= k < |log| && log[k].kind.Message? && log[k].author == run.triggeredBy
               && log[k].recipients.Some? && run.assistant in log[k].recipients.value
      ensures FindsFrom(s.events, run.thread, run.triggeredBy, run.assistant, log[k]) <==> k < 50
    {
      FindsFromExactly(s.events, run.thread, run.triggeredBy, run.assistant, k);
    }
  }
}
