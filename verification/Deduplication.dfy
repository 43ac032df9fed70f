/** Ordered deduplication: keep what is wanted, each item at its first occurrence. */
module Deduplication {
  import opened Sorting

  function Dedup<T(==)>(s: seq<T>, wanted: T -> bool): seq<T> {
    if s == [] then []
    else
      var out := Dedup(s[..|s| - 1], wanted);
      var x := s[|s| - 1];
      if wanted(x) && x !in out then out + [x] else out
  }

  lemma DedupNext<T>(s: seq<T>, x: T, wanted: T -> bool)
    ensures var out := Dedup(s, wanted);
            Dedup(s + [x], wanted) == if wanted(x) && x !in out then out + [x] else out
  {
    assert (s + [x])[..|s|] == s;
  }

  /** `x` occurs in `s` strictly before the first occurrence of `y`. */
  ghost predicate EarlierIn<T>(s: seq<T>, x: T, y: T) {
    exists i | 0 <= i < |s| :: s[i] == x && y !in s[..i + 1] && y in s
  }

  /** The result holds exactly the wanted items, in the order of their first
      occurrence. */
  ghost predicate OrderedDedup<T(!new)>(s: seq<T>, wanted: T -> bool, out: seq<T>) {
    && (forall x :: x in out <==> x in s && wanted(x))
    && Sorted((x, y) => EarlierIn(s, x, y), out)
  }

  lemma EarlierIsStrict<T(!new)>(s: seq<T>)
    ensures StrictOrder((x, y) => EarlierIn(s, x, y))
  {
    assert forall i | 0 <= i < |s| :: s[..i + 1][i] == s[i];
    forall x, y, z | EarlierIn(s, x, y) && EarlierIn(s, y, z) ensures EarlierIn(s, x, z) {
      var i :| 0 <= i < |s| && s[i] == x && y !in s[..i + 1] && y in s;
      var j :| 0 <= j < |s| && s[j] == y && z !in s[..j + 1] && z in s;
      assert i < j;
      assert s[..i + 1] <= s[..j + 1];
    }
  }

  lemma {:induction false} DedupIsOrdered<T(!new)>(s: seq<T>, wanted: T -> bool)
    ensures OrderedDedup(s, wanted, Dedup(s, wanted))
  {
    if s != [] {
      var init, last := s[..|s| - 1], s[|s| - 1];
      DedupIsOrdered(init, wanted);
      var before, out := Dedup(init, wanted), Dedup(s, wanted);
      assert s == init + [last];
      forall x ensures x in out <==> x in s && wanted(x) {
        assert x in s <==> x in init || x == last;
      }
      forall i, j | 0 <= i < j < |out| ensures EarlierIn(s, out[i], out[j]) {
        assert out[i] == before[i] && before[i] in before;
        var m :| 0 <= m < |init| && init[m] == out[i] && (j < |before| ==> out[j] !in init[..m + 1]) by {
          if j < |before| { assert EarlierIn(init, out[i], out[j]); }
        }
        assert s[..m + 1] == init[..m + 1];
        assert out[j] in out;
      }
    }
  }

  lemma InFirstOccurrenceOrder<T(!new)>(s: seq<T>, wanted: T -> bool, i: nat, j: nat)
    requires i < j < |Dedup(s, wanted)|
    ensures EarlierIn(s, Dedup(s, wanted)[i], Dedup(s, wanted)[j])
  {
    DedupIsOrdered(s, wanted);
  }

  /** The meaning in both directions: an output is the deduplicated input exactly
      when it lists the wanted items in first-occurrence order. */
  lemma DedupExactly<T(!new)>(s: seq<T>, wanted: T -> bool, out: seq<T>)
    ensures out == Dedup(s, wanted) <==> OrderedDedup(s, wanted, out)
  {
    DedupIsOrdered(s, wanted);
    if OrderedDedup(s, wanted, out) {
      EarlierIsStrict(s);
      SortedUnique((x, y) => EarlierIn(s, x, y), out, Dedup(s, wanted));
    }
  }

  lemma DedupIsDistinct<T(!new)>(s: seq<T>, wanted: T -> bool)
    ensures Distinct(Dedup(s, wanted))
    ensures forall x :: x in Dedup(s, wanted) <==> x in s && wanted(x)
  {
    DedupIsOrdered(s, wanted);
    EarlierIsStrict(s);
    SortedIsDistinct((x, y) => EarlierIn(s, x, y), Dedup(s, wanted));
  }

  lemma {:induction false} DedupFixes<T(!new)>(s: seq<T>, wanted: T -> bool)
    requires Distinct(s) && forall x | x in s :: wanted(x)
    ensures Dedup(s, wanted) == s
  {
    if s != [] {
      var init := s[..|s| - 1];
      assert s == init + [s[|s| - 1]];
      DedupFixes(init, wanted);
      assert s[|s| - 1] !in init;
    }
  }
}
