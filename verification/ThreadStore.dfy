/** The client's per-thread event lists: live pushes and replays merge in any order. */
module ThreadStore {
  import opened Types
  import opened Sorting
  import opened Keys
  import opened RunTable

  predicate HasId(list: seq<Event>, id: Id) {
    exists i | 0 <= i < |list| :: list[i].id == id
  }

  /** The reducer of `addEvent` on one thread's list. */
  function AddTo(list: seq<Event>, e: Event): seq<Event> {
    if HasId(list, e.id) then list else Sort(Before, list + [e])
  }

  /** `Map.set`: a known id keeps its place and takes the new value. */
  function MapSet(values: seq<Event>, e: Event): seq<Event> {
    if values == [] then [e]
    else if values[0].id == e.id then [e] + values[1..]
    else [values[0]] + MapSet(values[1..], e)
  }

  function MapSetAll(values: seq<Event>, es: seq<Event>): seq<Event> {
    if es == [] then values else MapSet(MapSetAll(values, es[..|es| - 1]), es[|es| - 1])
  }

  /** The reducer of `setEventsBulk` on one thread's list. */
  function SetBulk(list: seq<Event>, es: seq<Event>): seq<Event> {
    Sort(Before, MapSetAll(MapSetAll([], list), es))
  }

  datatype Delivery = One(event: Event) | Bulk(events: seq<Event>)

  function Carried(d: Delivery): set<Event> {
    match d
    case One(e) => {e}
    case Bulk(es) => Elements(es)
  }

  function Receive(list: seq<Event>, d: Delivery): seq<Event> {
    match d
    case One(e) => AddTo(list, e)
    case Bulk(es) => SetBulk(list, es)
  }

  function ReceiveAll(list: seq<Event>, ds: seq<Delivery>): seq<Event> {
    if ds == [] then list else Receive(ReceiveAll(list, ds[..|ds| - 1]), ds[|ds| - 1])
  }

  function CarriedAll(ds: seq<Delivery>): set<Event> {
    if ds == [] then {} else CarriedAll(ds[..|ds| - 1]) + Carried(ds[|ds| - 1])
  }

  /** The list shows exactly the events of `s`, strictly sorted and so without a
      repeated id. */
  ghost predicate Shows(list: seq<Event>, s: set<Event>) {
    Sorted(Before, list) && forall e :: e in list <==> e in s
  }

  lemma ShowsUniqueIds(list: seq<Event>, s: set<Event>)
    requires Shows(list, s) && IdsDetermine(s)
    ensures UniqueIds(list)
  {
    BeforeIsStrict();
    SortedIsDistinct(Before, list);
    forall i, j | 0 <= i < j < |list| ensures list[i].id != list[j].id {
      assert list[i] in list && list[j] in list && list[i] != list[j];
    }
  }

  /** A set of events has only one list that shows it. */
  lemma ShownOnce(a: seq<Event>, b: seq<Event>, s: set<Event>)
    requires Shows(a, s) && Shows(b, s)
    ensures a == b
  {
    BeforeIsStrict();
    SortedUnique(Before, a, b);
  }

  lemma AddShows(list: seq<Event>, s: set<Event>, e: Event)
    requires Shows(list, s) && IdsDetermine(s + {e})
    ensures Shows(AddTo(list, e), s + {e})
  {
    assert IdsDetermine(s);
    ShowsUniqueIds(list, s);
    if HasId(list, e.id) {
      var i :| 0 <= i < |list| && list[i].id == e.id;
      assert list[i] in list && list[i] in s + {e} && e in s + {e};
    } else {
      UniqueIdsSort(list + [e]);
    }
  }

  lemma FewerDetermine(s: set<Event>, t: set<Event>)
    requires s <= t && IdsDetermine(t)
    ensures IdsDetermine(s)
  {
  }

  /** `Map.set` keeps the values under other ids and has the new value. */
  lemma {:induction false} MapSetElements(values: seq<Event>, e: Event)
    ensures e in MapSet(values, e)
    ensures forall x | x in MapSet(values, e) :: x == e || x in values
    ensures forall x | x in values && x.id != e.id :: x in MapSet(values, e)
  {
    if values != [] {
      var rest := values[1..];
      assert forall x :: x in values <==> x == values[0] || x in rest;
      if values[0].id != e.id { MapSetElements(rest, e); }
    }
  }

  lemma NotAmong(x: Event, s: seq<Event>)
    requires UniqueIds([x] + s)
    ensures UniqueIds(s) && forall y | y in s :: y.id != x.id
  {
    var all := [x] + s;
    assert all[0] == x && forall i | 0 <= i < |s| :: all[i + 1] == s[i];
  }

  lemma UniqueCons(x: Event, s: seq<Event>)
    requires UniqueIds(s) && forall y | y in s :: y.id != x.id
    ensures UniqueIds([x] + s)
  {
  }

  lemma {:induction false} MapSetUnique(values: seq<Event>, e: Event)
    requires UniqueIds(values)
    ensures UniqueIds(MapSet(values, e))
  {
    if values != [] {
      var rest := values[1..];
      assert values == [values[0]] + rest;
      NotAmong(values[0], rest);
      if values[0].id == e.id {
        UniqueCons(e, rest);
      } else {
        MapSetUnique(rest, e);
        MapSetElements(rest, e);
        UniqueCons(values[0], MapSet(rest, e));
      }
    }
  }

  lemma MapSetMeaning(values: seq<Event>, e: Event)
    requires UniqueIds(values) && IdsDetermine(Elements(values) + {e})
    ensures UniqueIds(MapSet(values, e))
    ensures Elements(MapSet(values, e)) == Elements(values) + {e}
  {
    MapSetUnique(values, e);
    MapSetElements(values, e);
    assert forall x | x in Elements(values) + {e} && x.id == e.id :: x == e;
  }

  lemma {:induction false} MapSetAllMeaning(values: seq<Event>, es: seq<Event>)
    requires UniqueIds(values) && IdsDetermine(Elements(values) + Elements(es))
    ensures UniqueIds(MapSetAll(values, es))
    ensures Elements(MapSetAll(values, es)) == Elements(values) + Elements(es)
  {
    if es != [] {
      var init, e := es[..|es| - 1], es[|es| - 1];
      assert Elements(es) == Elements(init) + {e} by { assert es == init + [e]; }
      FewerDetermine(Elements(values) + Elements(init), Elements(values) + Elements(es));
      MapSetAllMeaning(values, init);
      MapSetMeaning(MapSetAll(values, init), e);
    }
  }

  lemma BulkShows(list: seq<Event>, s: set<Event>, es: seq<Event>)
    requires Shows(list, s) && IdsDetermine(s + Elements(es))
    ensures Shows(SetBulk(list, es), s + Elements(es))
  {
    var known := MapSetAll([], list);
    var all := MapSetAll(known, es);
    assert Elements(list) == s;
    FewerDetermine(Elements<Event>([]) + Elements(list), s + Elements(es));
    MapSetAllMeaning([], list);
    FewerDetermine(Elements(known) + Elements(es), s + Elements(es));
    MapSetAllMeaning(known, es);
    UniqueIdsSort(all);
    assert forall e :: e in SetBulk(list, es) <==> e in Elements(all);
  }

  lemma ReceiveShows(list: seq<Event>, s: set<Event>, d: Delivery)
    requires Shows(list, s) && IdsDetermine(s + Carried(d))
    ensures Shows(Receive(list, d), s + Carried(d))
  {
    match d
    case One(e) => AddShows(list, s, e);
    case Bulk(es) => BulkShows(list, s, es);
  }

  /** Any deliveries, with duplicates and in any order, leave the one sorted list of
      what was there and what was delivered. */
  lemma {:induction false} MergeShowsDelivered(list: seq<Event>, s: set<Event>, ds: seq<Delivery>)
    requires Shows(list, s) && IdsDetermine(s + CarriedAll(ds))
    ensures Shows(ReceiveAll(list, ds), s + CarriedAll(ds)) && InOrder(ReceiveAll(list, ds))
  {
    SortedInOrder(list);
    if ds != [] {
      var init, d := ds[..|ds| - 1], ds[|ds| - 1];
      assert s + CarriedAll(init) <= s + CarriedAll(ds);
      MergeShowsDelivered(list, s, init);
      assert s + CarriedAll(ds) == s + CarriedAll(init) + Carried(d);
      ReceiveShows(ReceiveAll(list, init), s + CarriedAll(init), d);
      SortedInOrder(ReceiveAll(list, ds));
    }
  }

  /** A new event takes its place in time; a known id changes nothing. */
  ghost predicate PutInTime(before: seq<Event>, e: Event, after: seq<Event>) {
    InOrder(before) && UniqueIds(before) ==>
      && InOrder(after) && UniqueIds(after)
      && forall x :: x in after <==> x in before || (x == e && forall y | y in before :: y.id != e.id)
  }

  lemma AddInOrder(list: seq<Event>, e: Event)
    ensures PutInTime(list, e, AddTo(list, e))
  {
    SortedInOrder(list);
    if InOrder(list) && UniqueIds(list) && !HasId(list, e.id) {
      forall a, b | a in Elements(list) + {e} && b in Elements(list) + {e} && a.id == b.id ensures a == b {
        assert a in list && b in list ==>
          exists i, j | 0 <= i < |list| && 0 <= j < |list| :: list[i] == a && list[j] == b;
      }
      AddShows(list, Elements(list), e);
      SortedInOrder(AddTo(list, e));
      ShowsUniqueIds(AddTo(list, e), Elements(list) + {e});
    }
  }

  lemma BulkInOrder(list: seq<Event>, es: seq<Event>)
    requires InOrder(list) && IdsDetermine(Elements(list) + Elements(es))
    ensures InOrder(SetBulk(list, es)) && UniqueIds(SetBulk(list, es))
    ensures forall x :: x in SetBulk(list, es) <==> x in list || x in es
  {
    SortedInOrder(list);
    BulkShows(list, Elements(list), es);
    SortedInOrder(SetBulk(list, es));
    ShowsUniqueIds(SetBulk(list, es), Elements(list) + Elements(es));
  }

  /** Confluence: two clients that start alike and receive the same events, however
      split, repeated and ordered, end with the same list. */
  lemma MergeIsConfluent(list: seq<Event>, s: set<Event>, ds: seq<Delivery>, ds': seq<Delivery>)
    requires Shows(list, s) && IdsDetermine(s + CarriedAll(ds)) && CarriedAll(ds) == CarriedAll(ds')
    ensures ReceiveAll(list, ds) == ReceiveAll(list, ds') && UniqueIds(ReceiveAll(list, ds))
  {
    MergeShowsDelivered(list, s, ds);
    MergeShowsDelivered(list, s, ds');
    ShownOnce(ReceiveAll(list, ds), ReceiveAll(list, ds'), s + CarriedAll(ds));
    ShowsUniqueIds(ReceiveAll(list, ds), s + CarriedAll(ds));
  }

  /** The store object: each action replaces its records. */
  class Store {
    var events: map<Id, seq<Event>>
    var activeRuns: map<Id, map<RunId, Run>>

    constructor ()
      ensures events == map[] && activeRuns == map[]
    {
      events, activeRuns := map[], map[];
    }

    function ListOf(thread: Id): seq<Event>
      reads this
    {
      if thread in events then events[thread] else []
    }

    function ActiveOf(thread: Id): map<RunId, Run>
      reads this
    {
      if thread in activeRuns then activeRuns[thread] else map[]
    }

    /** A known event changes nothing; a new one is merged, and a terminal one takes
        its run off the active runs of its thread. */
    method AddEvent(event: Event)
      modifies this
      ensures ListOf(event.thread) == AddTo(old(ListOf(event.thread)), event)
      ensures PutInTime(old(ListOf(event.thread)), event, ListOf(event.thread))
      ensures ActiveOf(event.thread) ==
              if event.run.Some? && (event.kind.RunCompleted? || event.kind.RunFailed? || event.kind.RunCancelled?)
                && forall x | x in old(ListOf(event.thread)) :: x.id != event.id
              then old(ActiveOf(event.thread)) - {event.run.value} else old(ActiveOf(event.thread))
      ensures forall t | t != event.thread :: ListOf(t) == old(ListOf(t)) && ActiveOf(t) == old(ActiveOf(t))
    {
      var existing := ListOf(event.thread);
      AddInOrder(existing, event);
      if exists i | 0 <= i < |existing| :: existing[i].id == event.id { return; }
      var next := Sort(Before, existing + [event]);
      if IsTerminal(event.kind) && event.run.Some? {
        activeRuns := activeRuns[event.thread := ActiveOf(event.thread) - {event.run.value}];
      }
      events := events[event.thread := next];
    }

    /** The replay is merged; the active runs are not looked at. */
    method SetEventsBulk(thread: Id, replayed: seq<Event>)
      modifies this`events
      ensures ListOf(thread) == SetBulk(old(ListOf(thread)), replayed)
      ensures var before, after := old(ListOf(thread)), ListOf(thread);
        InOrder(before) && IdsDetermine(Elements(before) + Elements(replayed)) ==>
          InOrder(after) && UniqueIds(after) && forall x :: x in after <==> x in before || x in replayed
      ensures forall t | t != thread :: ListOf(t) == old(ListOf(t))
    {
      var existing := ListOf(thread);
      var values: seq<Event> := [];
      for i := 0 to |existing|
        invariant values == MapSetAll([], existing[..i])
      {
        assert existing[..i + 1][..i] == existing[..i];
        values := MapSet(values, existing[i]);
      }
      assert existing[..|existing|] == existing;
      for i := 0 to |replayed|
        invariant values == MapSetAll(MapSetAll([], existing), replayed[..i])
      {
        assert replayed[..i + 1][..i] == replayed[..i];
        values := MapSet(values, replayed[i]);
      }
      assert replayed[..|replayed|] == replayed;
      events := events[thread := Sort(Before, values)];
      if InOrder(existing) && IdsDetermine(Elements(existing) + Elements(replayed)) { BulkInOrder(existing, replayed); }
    }

    /** An active run is entered, any other is taken off. */
    method UpsertRun(id: RunId, run: Run)
      modifies this`activeRuns
      ensures ActiveOf(run.thread) ==
              if run.status.Pending? || run.status.Running?
              then old(ActiveOf(run.thread))[id := run] else old(ActiveOf(run.thread)) - {id}
      ensures forall t | t != run.thread :: ActiveOf(t) == old(ActiveOf(t))
    {
      var threadRuns := ActiveOf(run.thread);
      if run.status.Pending? || run.status.Running? {
        threadRuns := threadRuns[id := run];
      } else {
        threadRuns := threadRuns - {id};
      }
      activeRuns := activeRuns[run.thread := threadRuns];
    }
  }
}
