/** Strictly sorted sequences, for any strict order. */
module Sorting {

  ghost predicate StrictOrder<T(!new)>(less: (T, T) -> bool) {
    && (forall x :: !less(x, x))
    && (forall x, y, z :: less(x, y) && less(y, z) ==> less(x, z))
  }

  ghost predicate Sorted<T>(less: (T, T) -> bool, s: seq<T>) {
    forall i, j | 0 <= i < j < |s| :: less(s[i], s[j])
  }

  ghost predicate SameElements<T(!new)>(s: seq<T>, t: seq<T>) {
    forall x :: x in s <==> x in t
  }

  /** The last element of a sorted sequence is above every other element. */
  lemma LastIsGreatest<T(!new)>(less: (T, T) -> bool, s: seq<T>)
    requires StrictOrder(less) && Sorted(less, s) && s != []
    ensures forall x | x in s :: x == s[|s| - 1] || less(x, s[|s| - 1])
    ensures s[|s| - 1] !in s[..|s| - 1]
  {
    assert forall i | 0 <= i < |s| - 1 :: less(s[i], s[|s| - 1]);
  }

  /** A strictly sorted sequence is determined by the set of its elements. */
  lemma {:induction false} SortedUnique<T(!new)>(less: (T, T) -> bool, s: seq<T>, t: seq<T>)
    requires StrictOrder(less) && Sorted(less, s) && Sorted(less, t)
    requires SameElements(s, t)
    ensures s == t
  {
    assert s != [] ==> s[0] in s;
    assert t != [] ==> t[0] in t;
    if s != [] {
      var x, y := s[|s| - 1], t[|t| - 1];
      LastIsGreatest(less, s);
      LastIsGreatest(less, t);
      assert x in s && y in t;
      assert less(x, y) && less(y, x) ==> less(x, x);
      var s', t' := s[..|s| - 1], t[..|t| - 1];
      assert s == s' + [x] && t == t' + [x];
      forall z ensures z in s' <==> z in t' {
        assert z in s <==> z in s' || z == x;
        assert z in t <==> z in t' || z == x;
      }
      SortedUnique(less, s', t');
    }
  }

  // ----- sorting -----

  /** Distinct elements of `s` are comparable. */
  ghost predicate TotalOn<T>(less: (T, T) -> bool, s: seq<T>) {
    forall x, y | x in s && y in s && x != y :: less(x, y) || less(y, x)
  }

  function Place<T(==)>(less: (T, T) -> bool, x: T, s: seq<T>): seq<T> {
    if s == [] then [x]
    else if less(x, s[|s| - 1]) then Place(less, x, s[..|s| - 1]) + [s[|s| - 1]]
    else s + [x]
  }

  function Sort<T(==)>(less: (T, T) -> bool, s: seq<T>): seq<T> {
    if s == [] then [] else Place(less, s[|s| - 1], Sort(less, s[..|s| - 1]))
  }

  predicate Distinct<T(==)>(s: seq<T>) {
    forall i, j | 0 <= i < j < |s| :: s[i] != s[j]
  }

  lemma {:induction false} PlaceIsSorted<T(!new)>(less: (T, T) -> bool, x: T, s: seq<T>)
    requires StrictOrder(less) && Sorted(less, s) && x !in s
    requires forall y | y in s :: less(x, y) || less(y, x)
    ensures Sorted(less, Place(less, x, s))
    ensures forall y :: y in Place(less, x, s) <==> y == x || y in s
  {
    if s != [] {
      var init, last := s[..|s| - 1], s[|s| - 1];
      assert s == init + [last];
      LastIsGreatest(less, s);
      if less(x, last) {
        PlaceIsSorted(less, x, init);
        assert forall y | y in Place(less, x, init) :: less(y, last);
      } else {
        assert less(last, x);
        assert forall y | y in s :: less(y, x);
      }
    }
  }

  lemma {:induction false} SortIsSorted<T(!new)>(less: (T, T) -> bool, s: seq<T>)
    requires StrictOrder(less) && TotalOn(less, s) && Distinct(s)
    ensures Sorted(less, Sort(less, s)) && SameElements(s, Sort(less, s))
  {
    if s != [] {
      var init, x := s[..|s| - 1], s[|s| - 1];
      assert s == init + [x];
      SortIsSorted(less, init);
      assert x !in init;
      PlaceIsSorted(less, x, Sort(less, init));
    }
  }

  lemma {:induction false} PlaceLength<T>(less: (T, T) -> bool, x: T, s: seq<T>)
    ensures |Place(less, x, s)| == |s| + 1
  {
    if s != [] { PlaceLength(less, x, s[..|s| - 1]); }
  }

  lemma {:induction false} SortLength<T>(less: (T, T) -> bool, s: seq<T>)
    ensures |Sort(less, s)| == |s|
  {
    if s != [] {
      SortLength(less, s[..|s| - 1]);
      PlaceLength(less, s[|s| - 1], Sort(less, s[..|s| - 1]));
    }
  }

  lemma SortedIsDistinct<T(!new)>(less: (T, T) -> bool, s: seq<T>)
    requires StrictOrder(less) && Sorted(less, s)
    ensures Distinct(s)
  {
    assert forall i, j | 0 <= i < j < |s| :: less(s[i], s[j]);
  }

  function Elements<T>(s: seq<T>): set<T> {
    set x | x in s
  }

  lemma {:induction false} DistinctCount<T(!new)>(s: seq<T>)
    requires Distinct(s)
    ensures |Elements(s)| == |s|
  {
    if s != [] {
      var init, last := s[..|s| - 1], s[|s| - 1];
      DistinctCount(init);
      assert s == init + [last];
      assert Elements(s) == Elements(init) + {last};
    }
  }

  ghost function Below<T(!new)>(less: (T, T) -> bool, s: seq<T>, x: T): set<T> {
    set y | y in s && less(y, x)
  }

  /** The elements below position `k` of a sorted sequence are the first `k`. */
  lemma ElementsBelow<T(!new)>(less: (T, T) -> bool, s: seq<T>, k: nat)
    requires StrictOrder(less) && Sorted(less, s) && k < |s|
    ensures |Below(less, s, s[k])| == k
  {
    forall i | k < i < |s| ensures !less(s[i], s[k]) {
      assert less(s[k], s[i]);
    }
    forall x ensures x in s && less(x, s[k]) <==> x in s[..k] {
      if x in s && less(x, s[k]) {
        var i :| 0 <= i < |s| && s[i] == x;
      }
    }
    assert Below(less, s, s[k]) == Elements(s[..k]);
    SortedIsDistinct(less, s[..k]);
    DistinctCount(s[..k]);
  }

  /** An element is among the first `cap` exactly when fewer than `cap` are below it. */
  lemma AmongFirst<T(!new)>(less: (T, T) -> bool, s: seq<T>, x: T, cap: nat)
    requires StrictOrder(less) && Sorted(less, s) && x in s
    ensures x in (if cap <= |s| then s[..cap] else s) <==> |Below(less, s, x)| < cap
  {
    var k :| 0 <= k < |s| && s[k] == x;
    ElementsBelow(less, s, k);
    SortedIsDistinct(less, s);
  }

  lemma SortedConcat<T(!new)>(less: (T, T) -> bool, s: seq<T>, t: seq<T>)
    requires Sorted(less, s) && Sorted(less, t)
    requires forall x, y | x in s && y in t :: less(x, y)
    ensures Sorted(less, s + t)
  {
  }
}
