/** Keyset pagination over any table whose rows have distinct keys. */
module Paging {
  import opened Types
  import opened Sorting

  datatype Page<T, K> = Page(items: seq<T>, next: Option<K>)

  ghost predicate TotalOrder<K(!new)>(less: (K, K) -> bool) {
    && StrictOrder(less)
    && forall a, b :: a == b || less(a, b) || less(b, a)
  }

  ghost predicate DistinctKeys<T, K>(key: T -> K, table: seq<T>) {
    forall i, j | 0 <= i < j < |table| :: key(table[i]) != key(table[j])
  }

  function ByKey<T, K>(key: T -> K, less: (K, K) -> bool): (T, T) -> bool {
    (x, y) => less(key(x), key(y))
  }

  predicate After<T, K>(key: T -> K, less: (K, K) -> bool, since: Option<K>, x: T) {
    since.Some? ==> less(since.value, key(x))
  }

  function Select<T>(table: seq<T>, wanted: T -> bool): seq<T> {
    if table == [] then []
    else
      var before := Select(table[..|table| - 1], wanted);
      var x := table[|table| - 1];
      if wanted(x) then before + [x] else before
  }

  function Take<T>(s: seq<T>, n: nat): seq<T> {
    if n <= |s| then s[..n] else s
  }

  function WantedAfter<T, K>(key: T -> K, less: (K, K) -> bool, wanted: T -> bool, since: Option<K>): T -> bool {
    x => wanted(x) && After(key, less, since, x)
  }

  /** The wanted rows after the cursor, in key order. */
  function Query<T(==), K>(
    table: seq<T>, key: T -> K, less: (K, K) -> bool, wanted: T -> bool, since: Option<K>): seq<T>
  {
    Sort(ByKey(key, less), Select(table, WantedAfter(key, less, wanted, since)))
  }

  /** One page: fetch one row more than asked for, to learn whether more remain. */
  function ReadPage<T(==), K>(
    table: seq<T>, key: T -> K, less: (K, K) -> bool, wanted: T -> bool, since: Option<K>, limit: nat): Page<T, K>
  {
    var rows := Take(Query(table, key, less, wanted, since), limit + 1);
    var items := Take(rows, limit);
    Page(items, if |rows| > limit && items != [] then Some(key(items[|items| - 1])) else None)
  }

  lemma {:induction false} SelectElements<T(!new)>(table: seq<T>, wanted: T -> bool)
    ensures forall x :: x in Select(table, wanted) <==> x in table && wanted(x)
    ensures Distinct(table) ==> Distinct(Select(table, wanted))
  {
    if table != [] {
      var init := table[..|table| - 1];
      assert table == init + [table[|table| - 1]];
      SelectElements(init, wanted);
      assert Distinct(table) ==> Distinct(init) && table[|table| - 1] !in init;
    }
  }

  lemma ByKeyIsStrict<T(!new), K(!new)>(key: T -> K, less: (K, K) -> bool)
    requires StrictOrder(less)
    ensures StrictOrder(ByKey(key, less))
  {
    var ord := ByKey(key, less);
    forall x, y, z | ord(x, y) && ord(y, z) ensures ord(x, z) {
      assert less(key(x), key(y)) && less(key(y), key(z));
    }
  }

  /** The query returns exactly the wanted rows after the cursor, once each, sorted. */
  lemma QueryMeaning<T(!new), K(!new)>(
    table: seq<T>, key: T -> K, less: (K, K) -> bool, wanted: T -> bool, since: Option<K>)
    requires TotalOrder(less) && DistinctKeys(key, table)
    ensures Sorted(ByKey(key, less), Query(table, key, less, wanted, since))
    ensures forall x :: x in Query(table, key, less, wanted, since) <==>
                        x in table && wanted(x) && After(key, less, since, x)
  {
    var ord, select := ByKey(key, less), Select(table, WantedAfter(key, less, wanted, since));
    ByKeyIsStrict(key, less);
    SelectElements(table, WantedAfter(key, less, wanted, since));
    assert Distinct(table) by {
      assert forall i, j | 0 <= i < j < |table| :: key(table[i]) != key(table[j]);
    }
    forall x, y | x in select && y in select && x != y ensures ord(x, y) || ord(y, x) {
      var i :| 0 <= i < |table| && table[i] == x;
      var j :| 0 <= j < |table| && table[j] == y;
      assert key(table[i]) != key(table[j]);
    }
    SortIsSorted(ord, select);
  }

  lemma {:induction false} SelectLength<T>(table: seq<T>, wanted: T -> bool)
    ensures |Select(table, wanted)| <= |table|
  {
    if table != [] { SelectLength(table[..|table| - 1], wanted); }
  }

  lemma QueryLength<T, K>(table: seq<T>, key: T -> K, less: (K, K) -> bool, wanted: T -> bool, since: Option<K>)
    ensures |Query(table, key, less, wanted, since)| <= |table|
  {
    var select := WantedAfter(key, less, wanted, since);
    SelectLength(table, select);
    SortLength(ByKey(key, less), Select(table, select));
  }

  /** Cutting sorted rows after row `k` separates them at that row's key. */
  lemma CutAtKey<T(!new), K(!new)>(key: T -> K, less: (K, K) -> bool, q: seq<T>, k: nat)
    requires StrictOrder(less) && Sorted(ByKey(key, less), q) && k < |q|
    ensures forall x | x in q[..k + 1] :: !less(key(q[k]), key(x)) && (key(x) == key(q[k]) || less(key(x), key(q[k])))
    ensures forall x | x in q[k + 1..] :: less(key(q[k]), key(x))
    ensures Sorted(ByKey(key, less), q[..k + 1]) && Sorted(ByKey(key, less), q[k + 1..])
  {
    var ord := ByKey(key, less);
    forall x | x in q[..k + 1] ensures !less(key(q[k]), key(x)) && (key(x) == key(q[k]) || less(key(x), key(q[k]))) {
      var i :| 0 <= i <= k && q[i] == x;
      assert i < k ==> ord(q[i], q[k]);
      assert less(key(x), key(q[k])) && less(key(q[k]), key(x)) ==> less(key(x), key(x));
    }
    forall x | x in q[k + 1..] ensures less(key(q[k]), key(x)) {
      var i :| k < i < |q| && q[i] == x;
      assert ord(q[k], q[i]);
    }
  }

  /** A page is the first `limit` rows of the query; it has a cursor exactly when
      rows remain, and the cursor is the key of its last row. */
  lemma PageMeaning<T(!new), K(!new)>(
    table: seq<T>, key: T -> K, less: (K, K) -> bool, wanted: T -> bool, since: Option<K>, limit: nat)
    requires limit > 0
    ensures var q, page := Query(table, key, less, wanted, since), ReadPage(table, key, less, wanted, since, limit);
      && page.items == Take(q, limit)
      && page.next == (if |q| > limit then Some(key(q[limit - 1])) else None)
  {
    var q := Query(table, key, less, wanted, since);
    assert |q| > limit ==> Take(Take(q, limit + 1), limit) == q[..limit];
  }

  // ----- following the cursor -----

  /** `tables[i]` is the table when page `i` is read. The flag tells whether the
      last page read had no cursor. */
  function Follow<T(==), K>(
    tables: seq<seq<T>>, key: T -> K, less: (K, K) -> bool, wanted: T -> bool, since: Option<K>,
    limit: nat): (seq<T>, bool)
  {
    if tables == [] then ([], false)
    else
      var page := ReadPage(tables[0], key, less, wanted, since, limit);
      if page.next.None? then (page.items, true)
      else
        var (rest, done) := Follow(tables[1..], key, less, wanted, page.next, limit);
        (page.items + rest, done)
  }

  ghost predicate Growing<T, K>(key: T -> K, tables: seq<seq<T>>) {
    && (forall i | 0 <= i < |tables| :: DistinctKeys(key, tables[i]))
    && (forall i, j | 0 <= i < j < |tables| :: tables[i] <= tables[j])
  }

  /** `items` are wanted rows after the cursor from `last`, in strictly increasing
      key order; when `done`, all those of `first` are among them. */
  ghost predicate Collected<T(!new), K>(
    first: seq<T>, last: seq<T>, key: T -> K, less: (K, K) -> bool, wanted: T -> bool, since: Option<K>,
    items: seq<T>, done: bool)
  {
    && Sorted(ByKey(key, less), items)
    && (forall x | x in items :: x in last && wanted(x) && After(key, less, since, x))
    && (done ==> forall x | x in first && wanted(x) && After(key, less, since, x) :: x in items)
  }

  /** Stable under growth: following the cursor while rows are added yields strictly
      increasing keys, so no row twice; every row is a wanted one of the newest
      table; and when the cursor runs out, every wanted row that was there at
      the start has been returned. */
  lemma {:induction false} FollowIsStable<T(!new), K(!new)>(
    tables: seq<seq<T>>, key: T -> K, less: (K, K) -> bool, wanted: T -> bool, since: Option<K>, limit: nat)
    requires TotalOrder(less) && Growing(key, tables) && limit > 0
    ensures var (items, done) := Follow(tables, key, less, wanted, since, limit);
      if tables == [] then items == [] && !done
      else Collected(tables[0], tables[|tables| - 1], key, less, wanted, since, items, done)
  {
    if tables != [] {
      var first, last := tables[0], tables[|tables| - 1];
      var q := Query(first, key, less, wanted, since);
      PageMeaning(first, key, less, wanted, since, limit);
      QueryMeaning(first, key, less, wanted, since);
      assert |tables| > 1 ==> first <= last;
      if |q| > limit {
        var later, cursor := tables[1..], Some(key(q[limit - 1]));
        var (rest, done) := Follow(later, key, less, wanted, cursor, limit);
        FollowIsStable(later, key, less, wanted, cursor, limit);
        assert Follow(tables, key, less, wanted, since, limit) == (q[..limit] + rest, done);
        var second := if later == [] then first else later[0];
        assert later != [] ==> later[|later| - 1] == last && first <= second;
        JoinPages(first, second, last, key, less, wanted, since, q, limit, rest, done);
      } else {
        assert Take(q, limit) == q;
        assert Follow(tables, key, less, wanted, since, limit) == (q, true);
      }
    }
  }

  /** What the first page and the rest make together. */
  lemma JoinPages<T(!new), K(!new)>(
    first: seq<T>, second: seq<T>, last: seq<T>, key: T -> K, less: (K, K) -> bool, wanted: T -> bool, since: Option<K>,
    q: seq<T>, limit: nat, rest: seq<T>, done: bool)
    requires StrictOrder(less) && Sorted(ByKey(key, less), q) && 0 < limit < |q|
    requires forall x :: x in q <==> x in first && wanted(x) && After(key, less, since, x)
    requires first <= second && first <= last
    requires Collected(second, last, key, less, wanted, Some(key(q[limit - 1])), rest, done)
    ensures Collected(first, last, key, less, wanted, since, q[..limit] + rest, done)
  {
    var ord, page := ByKey(key, less), q[..limit];
    CutAtKey(key, less, q, limit - 1);
    assert forall x :: x in q <==> x in page || x in q[limit..] by { assert q == page + q[limit..]; }
    forall x | x in rest ensures After(key, less, since, x) && forall y | y in page :: ord(y, x) {
      assert q[limit - 1] in q && less(key(q[limit - 1]), key(x));
    }
    SortedConcat(ord, page, rest);
    assert forall x | x in first :: x in second && x in last;
  }

  function Repeat<T>(table: seq<T>, n: nat): seq<seq<T>> {
    if n == 0 then [] else [table] + Repeat(table, n - 1)
  }

  /** So many pages, put together, are the whole query. */
  ghost predicate Complete<T(!new), K(!new)>(
    table: seq<T>, key: T -> K, less: (K, K) -> bool, wanted: T -> bool, since: Option<K>, limit: nat, pages: nat)
  {
    Follow(Repeat(table, pages), key, less, wanted, since, limit) == (Query(table, key, less, wanted, since), true)
  }

  /** On a table that does not change the pages, put together, are the whole query,
      and as many pages as rows, plus one, always suffice. */
  lemma {:induction false} PagesAreTheQuery<T(!new), K(!new)>(
    table: seq<T>, key: T -> K, less: (K, K) -> bool, wanted: T -> bool, since: Option<K>, limit: nat, pages: nat)
    requires TotalOrder(less) && DistinctKeys(key, table) && limit > 0
    requires pages > |Query(table, key, less, wanted, since)|
    ensures Complete(table, key, less, wanted, since, limit, pages)
    decreases pages
  {
    var q := Query(table, key, less, wanted, since);
    if |q| > limit {
      var cursor := Some(key(q[limit - 1]));
      assert Query(table, key, less, wanted, cursor) == q[limit..] by {
        RestOfQuery(table, key, less, wanted, since, limit);
      }
      PagesAreTheQuery(table, key, less, wanted, cursor, limit, pages - 1);
      OneMorePage(table, key, less, wanted, since, limit, pages);
    } else {
      OnlyPage(table, key, less, wanted, since, limit, pages);
    }
  }

  lemma OnlyPage<T(!new), K(!new)>(
    table: seq<T>, key: T -> K, less: (K, K) -> bool, wanted: T -> bool, since: Option<K>, limit: nat, pages: nat)
    requires limit > 0 && pages > 0 && |Query(table, key, less, wanted, since)| <= limit
    ensures Complete(table, key, less, wanted, since, limit, pages)
  {
    var tables, q := Repeat(table, pages), Query(table, key, less, wanted, since);
    PageMeaning(table, key, less, wanted, since, limit);
    assert tables[0] == table && Take(q, limit) == q;
  }

  lemma OneMorePage<T(!new), K(!new)>(
    table: seq<T>, key: T -> K, less: (K, K) -> bool, wanted: T -> bool, since: Option<K>, limit: nat, pages: nat)
    requires 0 < limit < |Query(table, key, less, wanted, since)| && pages > 0
    requires var q := Query(table, key, less, wanted, since);
      var cursor := Some(key(q[limit - 1]));
      && Query(table, key, less, wanted, cursor) == q[limit..]
      && Complete(table, key, less, wanted, cursor, limit, pages - 1)
    ensures Complete(table, key, less, wanted, since, limit, pages)
  {
    var tables, q := Repeat(table, pages), Query(table, key, less, wanted, since);
    PageMeaning(table, key, less, wanted, since, limit);
    assert tables[0] == table && tables[1..] == Repeat(table, pages - 1);
    assert Follow(tables, key, less, wanted, since, limit) == (q[..limit] + q[limit..], true);
    assert q == q[..limit] + q[limit..];
  }

  /** Querying from the cursor returns what the page left over. */
  lemma RestOfQuery<T(!new), K(!new)>(
    table: seq<T>, key: T -> K, less: (K, K) -> bool, wanted: T -> bool, since: Option<K>, limit: nat)
    requires TotalOrder(less) && DistinctKeys(key, table)
    requires 0 < limit < |Query(table, key, less, wanted, since)|
    ensures var q := Query(table, key, less, wanted, since);
            Query(table, key, less, wanted, Some(key(q[limit - 1]))) == q[limit..]
  {
    var q := Query(table, key, less, wanted, since);
    var cursor := Some(key(q[limit - 1]));
    var later := Query(table, key, less, wanted, cursor);
    QueryMeaning(table, key, less, wanted, since);
    QueryMeaning(table, key, less, wanted, cursor);
    CutAtKey(key, less, q, limit - 1);
    assert q == q[..limit] + q[limit..];
    assert q[limit - 1] in q;
    forall x ensures x in later <==> x in q[limit..] {
      assert x in later ==> x in q;
    }
    ByKeyIsStrict(key, less);
    SortedUnique(ByKey(key, less), later, q[limit..]);
  }
}
