/** The one order on events that the store and the client share: by creation
    time, then by id. */
module Keys {
  import opened Types
  import opened Sorting

  datatype Key = Key(createdAt: int, id: Id)

  function KeyOf(e: Event): Key {
    Key(e.createdAt, e.id)
  }

  /** Lexicographic order on text. */
  predicate TextLess(a: string, b: string) {
    if b == [] then false
    else if a == [] then true
    else a[0] < b[0] || (a[0] == b[0] && TextLess(a[1..], b[1..]))
  }

  predicate KeyLess(a: Key, b: Key) {
    a.createdAt < b.createdAt || (a.createdAt == b.createdAt && TextLess(a.id, b.id))
  }

  lemma {:induction false} TextIrreflexive(a: string)
    ensures !TextLess(a, a)
  {
    if a != [] { TextIrreflexive(a[1..]); }
  }

  lemma {:induction false} TextTransitive(a: string, b: string, c: string)
    requires TextLess(a, b) && TextLess(b, c)
    ensures TextLess(a, c)
  {
    if a != [] && a[0] == b[0] && b[0] == c[0] { TextTransitive(a[1..], b[1..], c[1..]); }
  }

  lemma {:induction false} TextTotal(a: string, b: string)
    ensures a == b || TextLess(a, b) || TextLess(b, a)
  {
    if a != [] && b != [] && a[0] == b[0] {
      TextTotal(a[1..], b[1..]);
      assert a == [a[0]] + a[1..] && b == [b[0]] + b[1..];
    }
  }

  lemma KeyOrder()
    ensures forall a: Key :: !KeyLess(a, a)
    ensures forall a, b, c: Key :: KeyLess(a, b) && KeyLess(b, c) ==> KeyLess(a, c)
    ensures forall a, b: Key :: a == b || KeyLess(a, b) || KeyLess(b, a)
  {
    forall a: Key ensures !KeyLess(a, a) { TextIrreflexive(a.id); }
    forall a, b, c: Key | KeyLess(a, b) && KeyLess(b, c) ensures KeyLess(a, c) {
      if a.createdAt == b.createdAt == c.createdAt { TextTransitive(a.id, b.id, c.id); }
    }
    forall a, b: Key ensures a == b || KeyLess(a, b) || KeyLess(b, a) { TextTotal(a.id, b.id); }
  }

  /** Text order: at the first place where the two differ `a` has the smaller character,
      or `a` ends there. */
  lemma {:induction false} TextLessExactly(a: string, b: string)
    ensures TextLess(a, b) <==>
            exists k: nat | k <= |a| && k < |b| :: a[..k] == b[..k] && (k == |a| || a[k] < b[k])
  {
    if a != [] && b != [] && a[0] == b[0] {
      TextLessExactly(a[1..], b[1..]);
      if TextLess(a, b) {
        var k: nat :| k <= |a[1..]| && k < |b[1..]| && a[1..][..k] == b[1..][..k]
                      && (k == |a[1..]| || a[1..][k] < b[1..][k]);
        assert a[..k + 1] == [a[0]] + a[1..][..k] && b[..k + 1] == [b[0]] + b[1..][..k];
      }
      if k: nat :| k <= |a| && k < |b| && a[..k] == b[..k] && (k == |a| || a[k] < b[k]) {
        assert k > 0 && a[1..][..k - 1] == a[..k][1..] && b[1..][..k - 1] == b[..k][1..];
      }
    } else if b != [] {
      assert a[..0] == b[..0];
      if k: nat :| k <= |a| && k < |b| && a[..k] == b[..k] && (k == |a| || a[k] < b[k]) {
        assert k > 0 ==> a[..k][0] == b[..k][0];
      }
    }
  }

  /** Earlier, or at the same time with the smaller id. */
  ghost predicate Precedes(a: Event, b: Event) {
    a.createdAt < b.createdAt || (a.createdAt == b.createdAt && TextLess(a.id, b.id))
  }

  /** In order of time, and of ids at the same time. */
  ghost predicate InOrder(s: seq<Event>) {
    forall i, j | 0 <= i < j < |s| :: Precedes(s[i], s[j])
  }

  /** Later than the cursor, or at its time with a greater id. */
  ghost predicate IsAfter(since: Option<Key>, e: Event) {
    since.Some? ==>
      || since.value.createdAt < e.createdAt
      || (since.value.createdAt == e.createdAt && TextLess(since.value.id, e.id))
  }

  const Before: (Event, Event) -> bool := (a, b) => KeyLess(KeyOf(a), KeyOf(b))

  lemma SortedInOrder(s: seq<Event>)
    ensures Sorted(Before, s) <==> InOrder(s)
  {
    if Sorted(Before, s) {
      forall i, j | 0 <= i < j < |s| ensures Precedes(s[i], s[j]) { assert Before(s[i], s[j]); }
    }
    if InOrder(s) {
      forall i, j | 0 <= i < j < |s| ensures Before(s[i], s[j]) { assert Precedes(s[i], s[j]); }
    }
  }

  lemma BeforeIsStrict()
    ensures StrictOrder(Before)
  {
    KeyOrder();
  }

  /** An id determines its event, as the primary key guarantees. */
  ghost predicate IdsDetermine(s: set<Event>) {
    forall a, b | a in s && b in s && a.id == b.id :: a == b
  }

  /** No id occurs twice: the primary key of the `events` table. */
  predicate UniqueIds(s: seq<Event>) {
    forall i, j | 0 <= i < j < |s| :: s[i].id != s[j].id
  }

  lemma UniqueIdsSort(s: seq<Event>)
    requires UniqueIds(s)
    ensures Sorted(Before, Sort(Before, s)) && SameElements(s, Sort(Before, s))
  {
    KeyOrder();
    BeforeIsStrict();
    forall x, y | x in s && y in s && x != y ensures Before(x, y) || Before(y, x) {
      assert KeyOf(x) != KeyOf(y);
    }
    SortIsSorted(Before, s);
  }
}
