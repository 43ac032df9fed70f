/** Recipient lists as `publish_event` stores them. */
module Recipients {
  import opened Types
  import opened Sorting
  import opened Deduplication

  function NotAuthor(author: Id): Id -> bool {
    (rid: Id) => rid != "" && rid != author
  }

  function Kept(rs: seq<Id>, author: Id): seq<Id> {
    Dedup(rs, NotAuthor(author))
  }

  function Normalize(recipients: Option<seq<Id>>, author: Id): Option<seq<Id>> {
    match recipients
    case None => None
    case Some(rs) => if Kept(rs, author) == [] then None else Some(Kept(rs, author))
  }

  /** The shape every stored recipient list has. */
  ghost predicate WellFormed(recipients: Option<seq<Id>>, author: Id) {
    recipients.Some? ==>
      && recipients.value != []
      && "" !in recipients.value
      && author !in recipients.value
      && Distinct(recipients.value)
  }

  /** Normalization gives a well-formed list, drops the list exactly when nobody but
      the author and empty ids is named, and otherwise lists the named ids in
      first-occurrence order. */
  lemma NormalizedShape(recipients: Option<seq<Id>>, author: Id)
    ensures WellFormed(Normalize(recipients, author), author)
    ensures recipients.Some? ==>
      (Normalize(recipients, author).None? <==> forall x | x in recipients.value :: x == "" || x == author)
    ensures recipients.Some? ==>
      forall out | out != [] ::
        Normalize(recipients, author) == Some(out) <==> OrderedDedup(recipients.value, NotAuthor(author), out)
  {
    if recipients.Some? {
      var rs := recipients.value;
      DedupIsDistinct(rs, NotAuthor(author));
      var out := Kept(rs, author);
      assert out != [] ==> out[0] in out;
      forall out | out != []
        ensures Normalize(recipients, author) == Some(out) <==> OrderedDedup(rs, NotAuthor(author), out)
      {
        DedupExactly(rs, NotAuthor(author), out);
      }
    }
  }

  lemma NormalizeIdempotent(recipients: Option<seq<Id>>, author: Id)
    ensures Normalize(Normalize(recipients, author), author) == Normalize(recipients, author)
  {
    NormalizedShape(recipients, author);
    match Normalize(recipients, author)
    case None =>
    case Some(out) => DedupFixes(out, NotAuthor(author));
  }

  lemma KeptNext(rs: seq<Id>, i: nat, author: Id)
    requires i < |rs|
    ensures var kept, x := Kept(rs[..i], author), rs[i];
      Kept(rs[..i + 1], author) == if x != "" && x != author && x !in kept then kept + [x] else kept
  {
    assert rs[..i + 1] == rs[..i] + [rs[i]];
    DedupNext(rs[..i], rs[i], NotAuthor(author));
  }

  /** The loop of `normalize_recipients`: `seen` is a set beside the output list. */
  method NormalizeRecipients(recipients: Option<seq<Id>>, author: Id) returns (r: Option<seq<Id>>)
    ensures r == Normalize(recipients, author)
    ensures WellFormed(r, author)
  {
    if recipients.None? || recipients.value == [] {
      return None;
    }
    var rs := recipients.value;
    var seen: set<Id> := {};
    var out: seq<Id> := [];
    for i := 0 to |rs|
      invariant out == Kept(rs[..i], author)
      invariant seen == set x | x in out
    {
      KeptNext(rs, i, author);
      var rid := rs[i];
      if rid == "" { continue; }
      if rid == author { continue; }
      if rid in seen { continue; }
      seen := seen + {rid};
      out := out + [rid];
    }
    assert rs[..|rs|] == rs;
    NormalizedShape(recipients, author);
    if out == [] {
      return None;
    }
    return Some(out);
  }
}
