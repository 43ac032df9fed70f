/** The store's two paged listings, and the capped replay of `thread:join`. */
module Listing {
  import opened Types
  import opened Sorting
  import opened Keys
  import opened Paging
  import Tenant

  // ----- list_events -----

  function Wanted(thread: Id, until: Option<Key>, kinds: Option<set<Kind>>): Event -> bool {
    (e: Event) => e.thread == thread && (until.Some? ==> KeyLess(KeyOf(e), until.value))
      && (kinds.Some? ==> e.kind in kinds.value)
  }

  /** What a listing asks for: the thread, after the cursor, before `until`, of one of
      the kinds. */
  ghost predicate Matching(e: Event, thread: Id, since: Option<Key>, until: Option<Key>, kinds: Option<set<Kind>>) {
    && e.thread == thread && IsAfter(since, e)
    && (until.Some? ==>
          || e.createdAt < until.value.createdAt
          || (e.createdAt == until.value.createdAt && TextLess(e.id, until.value.id)))
    && (kinds.Some? ==> e.kind in kinds.value)
  }

  lemma WantedIsMatching(
    e: Event, thread: Id, since: Option<Key>, until: Option<Key>, kinds: Option<set<Kind>>)
    ensures Wanted(thread, until, kinds)(e) && After(KeyOf, KeyLess, since, e) <==>
            Matching(e, thread, since, until, kinds)
  {
  }

  function ListEvents(
    table: seq<Event>, thread: Id, since: Option<Key>, until: Option<Key>, kinds: Option<set<Kind>>,
      limit: nat): Page<Event, Key>
  {
    ReadPage(table, KeyOf, KeyLess, Wanted(thread, until, kinds), since, limit)
  }

  /** The sorted log of a thread after a cursor. */
  function LogAfter(table: seq<Event>, thread: Id, since: Option<Key>): seq<Event> {
    Query(table, KeyOf, KeyLess, Wanted(thread, None, None), since)
  }

  lemma KeyLessIsTotal()
    ensures TotalOrder(KeyLess)
  {
    KeyOrder();
    assert forall a: Key :: !KeyLess(a, a);
  }

  lemma UniqueIdsGiveKeys(table: seq<Event>)
    requires UniqueIds(table)
    ensures DistinctKeys(KeyOf, table)
  {
    forall i, j | 0 <= i < j < |table| ensures KeyOf(table[i]) != KeyOf(table[j]) {
      assert table[i].id != table[j].id;
    }
  }

  lemma LogMeaning(table: seq<Event>, thread: Id, since: Option<Key>)
    requires UniqueIds(table)
    ensures Sorted(ByKey(KeyOf, KeyLess), LogAfter(table, thread, since)) && InOrder(LogAfter(table, thread, since))
    ensures forall e :: e in LogAfter(table, thread, since) <==> e in table && e.thread == thread && IsAfter(since, e)
  {
    KeyLessIsTotal();
    UniqueIdsGiveKeys(table);
    QueryMeaning(table, KeyOf, KeyLess, Wanted(thread, None, None), since);
    ByKeyInOrder(LogAfter(table, thread, since));
  }

  lemma ByKeyInOrder(s: seq<Event>)
    requires Sorted(ByKey(KeyOf, KeyLess), s)
    ensures InOrder(s)
  {
    var less := ByKey(KeyOf, KeyLess);
    forall i, j | 0 <= i < j < |s| ensures Precedes(s[i], s[j]) {
      assert less(s[i], s[j]) ==> KeyLess(KeyOf(s[i]), KeyOf(s[j]));
    }
  }

  lemma LogIsSorted(table: seq<Event>, thread: Id, since: Option<Key>)
    requires UniqueIds(table)
    ensures Sorted(Before, LogAfter(table, thread, since))
  {
    var q := LogAfter(table, thread, since);
    LogMeaning(table, thread, since);
    forall a, b | 0 <= a < b < |q| ensures Before(q[a], q[b]) {
      assert ByKey(KeyOf, KeyLess)(q[a], q[b]);
    }
  }

  /** Following `next_cursor` while others append: strictly increasing keys, so no
      event twice; only matching events; and, once the cursor runs out, every
      matching event that was there at the start. */
  lemma PaginationIsStable(
    tables: seq<seq<Event>>, thread: Id, since: Option<Key>, until: Option<Key>, kinds: Option<set<Kind>>, limit: nat)
    requires limit > 0 && tables != []
    requires forall i | 0 <= i < |tables| :: UniqueIds(tables[i])
    requires forall i, j | 0 <= i < j < |tables| :: tables[i] <= tables[j]
    ensures var (items, done) := Follow(tables, KeyOf, KeyLess, Wanted(thread, until, kinds), since, limit);
      && InOrder(items) && Distinct(items)
      && (forall e | e in items :: e in tables[|tables| - 1] && Matching(e, thread, since, until, kinds))
      && (done ==> forall e | e in tables[0] && Matching(e, thread, since, until, kinds) :: e in items)
  {
    KeyLessIsTotal();
    forall i | 0 <= i < |tables| ensures DistinctKeys(KeyOf, tables[i]) { UniqueIdsGiveKeys(tables[i]); }
    var wanted := Wanted(thread, until, kinds);
    FollowIsStable(tables, KeyOf, KeyLess, wanted, since, limit);
    var items := Follow(tables, KeyOf, KeyLess, wanted, since, limit).0;
    ByKeyInOrder(items);
    ByKeyIsStrict(KeyOf, KeyLess);
    SortedIsDistinct(ByKey(KeyOf, KeyLess), items);
    forall e { WantedIsMatching(e, thread, since, until, kinds); }
  }

  /** On a log that does not change, the pages are the sorted filtered log. */
  lemma PagesAreTheLog(
    table: seq<Event>, thread: Id, since: Option<Key>, until: Option<Key>, kinds: Option<set<Kind>>, limit: nat)
    requires limit > 0 && UniqueIds(table)
    ensures var q := Query(table, KeyOf, KeyLess, Wanted(thread, until, kinds), since);
            Follow(Repeat(table, |q| + 1), KeyOf, KeyLess, Wanted(thread, until, kinds), since, limit) == (q, true)
    ensures var q := Query(table, KeyOf, KeyLess, Wanted(thread, until, kinds), since);
            InOrder(q) && forall e :: e in q <==> e in table && Matching(e, thread, since, until, kinds)
  {
    KeyLessIsTotal();
    UniqueIdsGiveKeys(table);
    var q := Query(table, KeyOf, KeyLess, Wanted(thread, until, kinds), since);
    QueryMeaning(table, KeyOf, KeyLess, Wanted(thread, until, kinds), since);
    ByKeyInOrder(q);
    forall e { WantedIsMatching(e, thread, since, until, kinds); }
    PagesAreTheQuery(table, KeyOf, KeyLess, Wanted(thread, until, kinds), since, limit, |q| + 1);
  }

  // ----- list_threads -----

  datatype Thread = Thread(id: Id, createdAt: int, tenant: Tenant.Scope)

  function ThreadKey(t: Thread): Key {
    Key(t.createdAt, t.id)
  }

  /** Newest first. */
  predicate Newer(a: Key, b: Key) {
    KeyLess(b, a)
  }

  lemma NewerIsTotal()
    ensures TotalOrder(Newer)
  {
    KeyOrder();
    assert forall a: Key :: !Newer(a, a);
  }

  function Covered(filter: Tenant.Scope): Thread -> bool {
    (t: Thread) => Tenant.Contains(filter, t.tenant)
  }

  /** Paging through `list_threads` returns exactly the threads the filter covers,
      newest first, each once. */
  lemma ThreadListingIsExact(table: seq<Thread>, filter: Tenant.Scope, limit: nat)
    requires limit > 0
    requires forall i, j | 0 <= i < j < |table| :: table[i].id != table[j].id
    ensures var (items, done) := Follow(Repeat(table, |table| + 1), ThreadKey, Newer, Covered(filter), None, limit);
      && done
      && (forall t :: t in items <==>
            t in table && forall k | k in t.tenant :: k in filter && filter[k] == t.tenant[k])
      && (forall i, j | 0 <= i < j < |items| ::
            || items[i].createdAt > items[j].createdAt
            || (items[i].createdAt == items[j].createdAt && TextLess(items[j].id, items[i].id)))
  {
    NewerIsTotal();
    assert DistinctKeys(ThreadKey, table) by {
      assert forall i, j | 0 <= i < j < |table| :: table[i].id != table[j].id;
    }
    var q := Query(table, ThreadKey, Newer, Covered(filter), None);
    assert Follow(Repeat(table, |table| + 1), ThreadKey, Newer, Covered(filter), None, limit) == (q, true) by {
      QueryLength(table, ThreadKey, Newer, Covered(filter), None);
      PagesAreTheQuery(table, ThreadKey, Newer, Covered(filter), None, limit, |table| + 1);
    }
    QueryMeaning(table, ThreadKey, Newer, Covered(filter), None);
    forall i, j | 0 <= i < j < |q|
      ensures q[i].createdAt > q[j].createdAt || (q[i].createdAt == q[j].createdAt && TextLess(q[j].id, q[i].id))
    {
      assert ByKey(ThreadKey, Newer)(q[i], q[j]);
    }
  }

  // ----- the replay of thread:join -----

  datatype Reply = Reply(replayed: seq<Event>, truncated: bool)

  /** What a join with this cursor is meant to return: the first `cap` later
      events, and whether there are more. */
  function Replay(table: seq<Event>, thread: Id, since: Option<Key>, cap: nat): Reply {
    match since
    case None => Reply([], false)
    case Some(_) =>
      var q := LogAfter(table, thread, since);
      Reply(Take(q, cap), |q| > cap)
  }

  /** The events after the cursor and before `e`. */
  ghost function Between(table: seq<Event>, since: Key, e: Event): set<Event> {
    set x | x in table && IsAfter(Some(since), x) && Precedes(x, e)
  }

  lemma BelowInLog(table: seq<Event>, thread: Id, since: Key, e: Event)
    requires UniqueIds(table) && forall x | x in table :: x.thread == thread
    ensures Below(Before, LogAfter(table, thread, Some(since)), e) == Between(table, since, e)
  {
    LogMeaning(table, thread, Some(since));
  }

  /** A replay is called truncated exactly when a later event is missing from it. */
  lemma TruncatedExactly(table: seq<Event>, thread: Id, since: Key, cap: nat)
    requires UniqueIds(table)
    ensures var reply := Replay(table, thread, Some(since), cap);
      reply.truncated <==>
        exists e | e in table && e.thread == thread && IsAfter(Some(since), e) :: e !in reply.replayed
  {
    var q := LogAfter(table, thread, Some(since));
    LogMeaning(table, thread, Some(since));
    LogIsSorted(table, thread, Some(since));
    BeforeIsStrict();
    SortedIsDistinct(Before, q);
    if |q| > cap {
      assert q[cap] in q && q[cap] !in q[..cap];
    }
  }

  /** What a replay holds, without reading it off the query: the events after the
      cursor with fewer than `cap` between the cursor and them. */
  lemma ReplayExactly(table: seq<Event>, thread: Id, since: Key, cap: nat, e: Event)
    requires UniqueIds(table) && forall x | x in table :: x.thread == thread
    ensures e in Replay(table, thread, Some(since), cap).replayed <==>
            e in table && IsAfter(Some(since), e) && |Between(table, since, e)| < cap
    ensures InOrder(Replay(table, thread, Some(since), cap).replayed)
  {
    var q := LogAfter(table, thread, Some(since));
    LogMeaning(table, thread, Some(since));
    assert e in Take(q, cap) ==> e in q;
    if e in q {
      LogIsSorted(table, thread, Some(since));
      BeforeIsStrict();
      AmongFirst(Before, q, e, cap);
      BelowInLog(table, thread, since, e);
    }
  }

  /** The join asks for one event more than the cap, and the store for one more
      again; the two over-fetches cancel out. */
  method ReadReplay(table: seq<Event>, thread: Id, since: Option<Key>, cap: nat) returns (reply: Reply)
    ensures reply == Replay(table, thread, since, cap)
  {
    var replayed: seq<Event> := [];
    var truncated := false;
    if since.Some? {
      var page := ListEvents(table, thread, since, None, None, cap + 1);
      var items := page.items;
      PageMeaning(table, KeyOf, KeyLess, Wanted(thread, None, None), since, cap + 1);
      if |items| > cap {
        truncated := true;
        items := items[..cap];
      }
      replayed := items;
    }
    reply := Reply(replayed, truncated);
  }

  /** Joining again from the last replayed event until a reply is not truncated.
      `tables[i]` is the log when join `i` reads it. */
  function CatchUp(tables: seq<seq<Event>>, thread: Id, since: Key, cap: nat): (seq<Event>, bool) {
    if tables == [] then ([], false)
    else
      var reply := Replay(tables[0], thread, Some(since), cap);
      if !reply.truncated || reply.replayed == [] then (reply.replayed, !reply.truncated)
      else
        var (rest, done) := CatchUp(tables[1..], thread, KeyOf(reply.replayed[|reply.replayed| - 1]), cap);
        (reply.replayed + rest, done)
  }

  lemma {:induction false} CatchUpFollows(tables: seq<seq<Event>>, thread: Id, since: Key, cap: nat)
    requires cap > 0
    ensures CatchUp(tables, thread, since, cap) ==
            Follow(tables, KeyOf, KeyLess, Wanted(thread, None, None), Some(since), cap)
  {
    if tables != [] {
      var q := LogAfter(tables[0], thread, Some(since));
      ReplayIsPage(tables[0], thread, since, cap);
      if |q| > cap { CatchUpFollows(tables[1..], thread, KeyOf(q[cap - 1]), cap); }
    }
  }

  /** A reply and a page of the same size hold the same events, and the reply is
      truncated exactly when the page has a cursor, which is its last event's key. */
  lemma ReplayIsPage(table: seq<Event>, thread: Id, since: Key, cap: nat)
    requires cap > 0
    ensures var q := LogAfter(table, thread, Some(since));
      var reply := Replay(table, thread, Some(since), cap);
      var page := ReadPage(table, KeyOf, KeyLess, Wanted(thread, None, None), Some(since), cap);
      && reply.replayed == page.items == Take(q, cap)
      && (reply.truncated <==> |q| > cap)
      && page.next == (if |q| > cap then Some(KeyOf(q[cap - 1])) else None)
      && (|q| > cap ==> page.items != [] && page.items[|page.items| - 1] == q[cap - 1])
  {
    PageMeaning(table, KeyOf, KeyLess, Wanted(thread, None, None), Some(since), cap);
  }

  /** Catch-up delivers each later event once, in order, misses none that was there
      at the start, and on a quiet log ends after at most as many joins as there
      are events left, plus one. */
  lemma CatchUpIsComplete(tables: seq<seq<Event>>, thread: Id, since: Key, cap: nat)
    requires cap > 0 && tables != []
    requires forall i | 0 <= i < |tables| :: UniqueIds(tables[i])
    requires forall i, j | 0 <= i < j < |tables| :: tables[i] <= tables[j]
    ensures var (items, done) := CatchUp(tables, thread, since, cap);
      && InOrder(items)
      && (forall e | e in items :: e in tables[|tables| - 1] && e.thread == thread && IsAfter(Some(since), e))
      && (done ==> forall e | e in tables[0] && e.thread == thread && IsAfter(Some(since), e) :: e in items)
    ensures var q := LogAfter(tables[0], thread, Some(since));
      CatchUp(Repeat(tables[0], |q| + 1), thread, since, cap) == (q, true)
  {
    CatchUpFollows(tables, thread, since, cap);
    PaginationIsStable(tables, thread, Some(since), None, None, cap);
    var q := LogAfter(tables[0], thread, Some(since));
    CatchUpFollows(Repeat(tables[0], |q| + 1), thread, since, cap);
    PagesAreTheLog(tables[0], thread, Some(since), None, None, cap);
  }
}
