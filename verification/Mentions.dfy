/** `@name` mentions in a draft: a scanner, a name lookup and an ordered dedup. */
module Mentions {
  import opened Types
  import opened Sorting
  import opened Deduplication

  datatype Identity = Identity(id: Id, name: string, assistant: bool)

  datatype Span = Span(identityId: Id, text: string, start: nat, length: nat)

  /** One match of the pattern: `length` counts the `@`. */
  datatype Match = Match(start: nat, length: nat)

  /** `[\w-]` */
  predicate NameChar(c: char) {
    ('A' <= c <= 'Z') || ('a' <= c <= 'z') || ('0' <= c <= '9') || c == '_' || c == '-'
  }

  /** How many name characters follow position `from`. */
  function RunLength(text: string, from: nat): (n: nat)
    requires from <= |text|
    ensures from + n <= |text|
    ensures forall i | from <= i < from + n :: NameChar(text[i])
    ensures from + n < |text| ==> !NameChar(text[from + n])
    decreases |text| - from
  {
    if from < |text| && NameChar(text[from]) then 1 + RunLength(text, from + 1) else 0
  }

  /** The matches found scanning from left to right, each search starting where the
      previous match ended. */
  function Scan(text: string, from: nat): seq<Match>
    requires from <= |text|
    decreases |text| - from
  {
    if from == |text| then []
    else if text[from] == '@' && RunLength(text, from + 1) > 0 then
      var n := RunLength(text, from + 1);
      [Match(from, 1 + n)] + Scan(text, from + 1 + n)
    else Scan(text, from + 1)
  }

  /** The declarative meaning: an `@`, then at least one name character, then as
      many as there are. */
  predicate Matched(text: string, m: Match) {
    && m.start + m.length <= |text| && m.length >= 2
    && text[m.start] == '@'
    && (forall i | m.start < i < m.start + m.length :: NameChar(text[i]))
    && (m.start + m.length < |text| ==> !NameChar(text[m.start + m.length]))
  }

  predicate Apart(a: Match, b: Match) {
    a.start + a.length <= b.start
  }

  lemma MaximalRun(text: string, m: Match)
    requires Matched(text, m)
    ensures m.length == 1 + RunLength(text, m.start + 1)
  {
    var n := RunLength(text, m.start + 1);
    assert m.start + 1 + n < |text| ==> !NameChar(text[m.start + 1 + n]);
    assert m.start + m.length < |text| ==> !NameChar(text[m.start + m.length]);
  }

  /** What can match from position `from` on: a match there, or one after it. */
  lemma MatchesFrom(text: string, from: nat, m: Match)
    requires from < |text|
    ensures var n := RunLength(text, from + 1);
      if text[from] == '@' && n > 0
      then Matched(text, m) && m.start >= from <==>
           m == Match(from, 1 + n) || (Matched(text, m) && m.start >= from + 1 + n)
      else Matched(text, m) && m.start >= from <==> Matched(text, m) && m.start >= from + 1
  {
    var n := RunLength(text, from + 1);
    if Matched(text, m) && m.start == from { MaximalRun(text, m); }
    if Matched(text, m) && m.start > from {
      assert !NameChar(text[m.start]);
    }
  }

  /** The scanner finds exactly the declared matches, in order and disjoint. */
  lemma {:induction false} ScanExactly(text: string, from: nat)
    requires from <= |text|
    ensures forall m :: m in Scan(text, from) <==> Matched(text, m) && m.start >= from
    decreases |text| - from
  {
    if from < |text| {
      var n := RunLength(text, from + 1);
      if text[from] == '@' && n > 0 { ScanExactly(text, from + 1 + n); } else { ScanExactly(text, from + 1); }
      forall m ensures m in Scan(text, from) <==> Matched(text, m) && m.start >= from { MatchesFrom(text, from, m); }
    }
  }

  lemma StartsFrom(text: string, from: nat)
    requires from <= |text|
    ensures forall m | m in Scan(text, from) :: m.start >= from
  {
    ScanExactly(text, from);
  }

  lemma {:induction false} ScanIsApart(text: string, from: nat)
    requires from <= |text|
    ensures Sorted(Apart, Scan(text, from))
    decreases |text| - from
  {
    if from < |text| {
      var n := RunLength(text, from + 1);
      if text[from] == '@' && n > 0 {
        ScanIsApart(text, from + 1 + n);
        StartsFrom(text, from + 1 + n);
        SortedConcat(Apart, [Match(from, 1 + n)], Scan(text, from + 1 + n));
      } else {
        ScanIsApart(text, from + 1);
      }
    }
  }

  // ----- names -----

  function Assistants(members: seq<Identity>): seq<Identity> {
    if members == [] then []
    else
      var before := Assistants(members[..|members| - 1]);
      if members[|members| - 1].assistant then before + [members[|members| - 1]] else before
  }

  function Ids(identities: seq<Identity>): seq<Id> {
    if identities == [] then [] else Ids(identities[..|identities| - 1]) + [identities[|identities| - 1].id]
  }

  /** The name map: of several assistants with one lower-case name the last wins. */
  function NameMap(assistants: seq<Identity>, lower: string -> string): map<string, Identity> {
    if assistants == [] then map[]
    else
      var a := assistants[|assistants| - 1];
      NameMap(assistants[..|assistants| - 1], lower)[lower(a.name) := a]
  }

  function Raw(text: string, m: Match): string
    requires m.length >= 1 && m.start + m.length <= |text|
  {
    text[m.start + 1..m.start + m.length]
  }

  /** The ids one match stands for. `@here` stands for every assistant. */
  function Hits(text: string, m: Match, assistants: seq<Identity>, lower: string -> string): seq<Id>
    requires Matched(text, m)
  {
    var token := lower(Raw(text, m));
    if token == "here" then Ids(assistants)
    else if token in NameMap(assistants, lower) then [NameMap(assistants, lower)[token].id]
    else []
  }

  predicate AllMatched(text: string, ms: seq<Match>) {
    forall i | 0 <= i < |ms| :: Matched(text, ms[i])
  }

  function Mentioned(text: string, ms: seq<Match>, assistants: seq<Identity>, lower: string -> string): seq<Id>
    requires AllMatched(text, ms)
  {
    if ms == [] then []
    else Mentioned(text, ms[..|ms| - 1], assistants, lower) + Hits(text, ms[|ms| - 1], assistants, lower)
  }

  /** A match resolves to one assistant by name. */
  predicate Named(text: string, m: Match, assistants: seq<Identity>, lower: string -> string)
    requires Matched(text, m)
  {
    lower(Raw(text, m)) != "here" && lower(Raw(text, m)) in NameMap(assistants, lower)
  }

  function SpanOf(text: string, m: Match, assistants: seq<Identity>, lower: string -> string): Span
    requires Matched(text, m) && Named(text, m, assistants, lower)
  {
    Span(NameMap(assistants, lower)[lower(Raw(text, m))].id, Raw(text, m), m.start, m.length)
  }

  function Spans(text: string, ms: seq<Match>, assistants: seq<Identity>, lower: string -> string): seq<Span>
    requires AllMatched(text, ms)
  {
    if ms == [] then []
    else
      var before := Spans(text, ms[..|ms| - 1], assistants, lower);
      var m := ms[|ms| - 1];
      if Named(text, m, assistants, lower) then before + [SpanOf(text, m, assistants, lower)] else before
  }

  function Anyone(): Id -> bool {
    (x: Id) => true
  }

  lemma MatchesOf(text: string)
    ensures AllMatched(text, Scan(text, 0))
  {
    ScanExactly(text, 0);
    var ms := Scan(text, 0);
    assert forall i | 0 <= i < |ms| :: ms[i] in ms;
  }

  lemma NextMatch(text: string, ms: seq<Match>, k: nat, assistants: seq<Identity>, lower: string -> string)
    requires AllMatched(text, ms) && k < |ms|
    ensures AllMatched(text, ms[..k]) && AllMatched(text, ms[..k + 1])
    ensures Mentioned(text, ms[..k + 1], assistants, lower) ==
      Mentioned(text, ms[..k], assistants, lower) + Hits(text, ms[k], assistants, lower)
    ensures Spans(text, ms[..k + 1], assistants, lower) == Spans(text, ms[..k], assistants, lower) +
            if Named(text, ms[k], assistants, lower) then [SpanOf(text, ms[k], assistants, lower)] else []
  {
    assert ms[..k + 1][..k] == ms[..k];
  }

  method NamesOf(assistants: seq<Identity>, lower: string -> string) returns (byLowercaseName: map<string, Identity>)
    ensures byLowercaseName == NameMap(assistants, lower)
  {
    byLowercaseName := map[];
    for i := 0 to |assistants|
      invariant byLowercaseName == NameMap(assistants[..i], lower)
    {
      assert assistants[..i + 1][..i] == assistants[..i];
      byLowercaseName := byLowercaseName[lower(assistants[i].name) := assistants[i]];
    }
    assert assistants[..|assistants|] == assistants;
  }

  /** The loops of `parseMentions`, for any lower-casing. */
  method ParseMentions(text: string, members: seq<Identity>, lower: string -> string)
    returns (recipients: seq<Id>, spans: seq<Span>)
    ensures AllMatched(text, Scan(text, 0))
    ensures recipients == Dedup(Mentioned(text, Scan(text, 0), Assistants(members), lower), Anyone())
    ensures spans == Spans(text, Scan(text, 0), Assistants(members), lower)
    ensures RecipientsAre(text, members, lower, recipients) && SpansAre(text, members, lower, spans)
  {
    MatchesOf(text);
    var assistants := Assistants(members);
    var byLowercaseName := NamesOf(assistants, lower);
    var ms := Scan(text, 0);
    var seen: set<Id> := {};
    recipients, spans := [], [];
    for k := 0 to |ms|
      invariant AllMatched(text, ms[..k])
      invariant recipients == Dedup(Mentioned(text, ms[..k], assistants, lower), Anyone())
      invariant seen == set x | x in recipients
      invariant spans == Spans(text, ms[..k], assistants, lower)
    {
      NextMatch(text, ms, k, assistants, lower);
      ghost var mentioned := Mentioned(text, ms[..k], assistants, lower);
      var raw := Raw(text, ms[k]);
      var token := lower(raw);
      if token == "here" {
        recipients, seen := AddAll(mentioned, recipients, seen, Ids(assistants));
        continue;
      }
      if token !in byLowercaseName {
        assert mentioned + [] == mentioned && spans + [] == spans;
        continue;
      }
      var hit := byLowercaseName[token];
      recipients, seen := AddAll(mentioned, recipients, seen, [hit.id]);
      spans := spans + [Span(hit.id, raw, ms[k].start, ms[k].length)];
    }
    assert ms[..|ms|] == ms;
    RecipientsOverMembers(text, members, lower);
    SpansOverMembers(text, members, lower);
  }

  /** `add` on each id in turn. `before` is what the recipients were deduplicated from. */
  method AddAll(ghost before: seq<Id>, recipients: seq<Id>, seen: set<Id>, ids: seq<Id>)
    returns (r: seq<Id>, s: set<Id>)
    requires recipients == Dedup(before, Anyone()) && seen == set x | x in recipients
    ensures r == Dedup(before + ids, Anyone()) && s == set x | x in r
  {
    r, s := recipients, seen;
    assert before + ids[..0] == before;
    for i := 0 to |ids|
      invariant r == Dedup(before + ids[..i], Anyone())
      invariant s == set x | x in r
    {
      assert before + ids[..i + 1] == before + ids[..i] + [ids[i]];
      DedupNext(before + ids[..i], ids[i], Anyone());
      r, s := Add(r, s, ids[i]);
    }
    assert ids[..|ids|] == ids;
  }

  method Add(recipients: seq<Id>, seen: set<Id>, id: Id) returns (r: seq<Id>, s: set<Id>)
    requires seen == set x | x in recipients
    ensures r == if id in recipients then recipients else recipients + [id]
    ensures s == set x | x in r
  {
    r, s := recipients, seen;
    if id !in seen {
      s := s + {id};
      r := r + [id];
    }
  }

  // ----- what a match stands for, over the members -----

  /** `at` are the positions of the assistants among the members. */
  ghost predicate AssistantsAt(members: seq<Identity>, at: seq<nat>) {
    && (forall k | 0 <= k < |at| :: at[k] < |members| && members[at[k]].assistant)
    && (forall k, l | 0 <= k < l < |at| :: at[k] < at[l])
    && (forall i | 0 <= i < |members| && members[i].assistant :: i in at)
  }

  /** Member `i` is the last assistant whose lower-cased name is the token. */
  ghost predicate LastNamed(members: seq<Identity>, lower: string -> string, token: string, i: nat) {
    && i < |members| && members[i].assistant && lower(members[i].name) == token
    && forall j | i < j < |members| && members[j].assistant :: lower(members[j].name) != token
  }

  /** A match adds these ids: `@here` those of all assistants in member order, any other
      token the id of the last assistant of that name, or nothing. */
  ghost predicate Adds(text: string, m: Match, members: seq<Identity>, lower: string -> string, ids: seq<Id>)
    requires Matched(text, m)
  {
    var token := lower(text[m.start + 1..m.start + m.length]);
    if token == "here" then
      exists at :: AssistantsAt(members, at) && |ids| == |at| && forall k | 0 <= k < |at| :: ids[k] == members[at[k]].id
    else
      if exists i: nat :: LastNamed(members, lower, token, i)
      then exists i: nat :: LastNamed(members, lower, token, i) && ids == [members[i].id]
      else ids == []
  }

  function Flatten(parts: seq<seq<Id>>): seq<Id> {
    if parts == [] then [] else Flatten(parts[..|parts| - 1]) + parts[|parts| - 1]
  }

  /** The recipients are what the matches add, in the order of the text, each id at its
      first occurrence. */
  ghost predicate RecipientsAre(text: string, members: seq<Identity>, lower: string -> string, recipients: seq<Id>) {
    var ms := Scan(text, 0);
    && AllMatched(text, ms)
    && exists added: seq<seq<Id>> ::
         && |added| == |ms| && (forall k | 0 <= k < |ms| :: Adds(text, ms[k], members, lower, added[k]))
         && OrderedDedup(Flatten(added), Anyone(), recipients)
  }

  /** The span marks a match of another token than `here` that is the name of an
      assistant, the last one of that name. */
  ghost predicate Marks(
    text: string, m: Match, members: seq<Identity>, lower: string -> string, i: nat, span: Span)
  {
    && Matched(text, m)
    && var raw := text[m.start + 1..m.start + m.length];
    && lower(raw) != "here" && LastNamed(members, lower, lower(raw), i)
    && span == Span(members[i].id, raw, m.start, m.length)
  }

  /** The spans are those marks, in the order of the text. */
  ghost predicate SpansAre(text: string, members: seq<Identity>, lower: string -> string, spans: seq<Span>) {
    && Sorted(SpansApart, spans)
    && forall span :: span in spans <==> exists m, i: nat :: Marks(text, m, members, lower, i, span)
  }

  lemma {:induction false} NamedLast(members: seq<Identity>, lower: string -> string, token: string)
    ensures var names := NameMap(Assistants(members), lower);
      && (token in names <==> exists i: nat :: LastNamed(members, lower, token, i))
      && forall i: nat :: LastNamed(members, lower, token, i) ==> token in names && names[token] == members[i]
  {
    if members != [] {
      var init, last := members[..|members| - 1], |members| - 1;
      NamedLast(init, lower, token);
      if members[last].assistant && lower(members[last].name) == token {
        assert LastNamed(members, lower, token, last);
        assert Assistants(members)[..|Assistants(init)|] == Assistants(init);
      } else {
        forall i: nat ensures LastNamed(members, lower, token, i) <==> LastNamed(init, lower, token, i) {
          assert i < last ==> init[i] == members[i];
          assert forall j | 0 <= j < last :: init[j] == members[j];
        }
        assert members[last].assistant ==> Assistants(members)[..|Assistants(init)|] == Assistants(init);
      }
    }
  }

  lemma {:induction false} AssistantPlaces(members: seq<Identity>) returns (at: seq<nat>)
    ensures AssistantsAt(members, at) && |Ids(Assistants(members))| == |at|
    ensures forall k | 0 <= k < |at| :: Ids(Assistants(members))[k] == members[at[k]].id
  {
    at := [];
    if members != [] {
      var init, last := members[..|members| - 1], |members| - 1;
      var before := AssistantPlaces(init);
      at := before;
      if members[last].assistant {
        at := before + [last];
        assert Assistants(members)[..|Assistants(init)|] == Assistants(init);
      }
      forall i | 0 <= i < |members| && members[i].assistant ensures i in at {
        if i < last { assert init[i].assistant && i in before; } else { assert at[|before|] == last; }
      }
    }
  }

  lemma HitsAdd(text: string, m: Match, members: seq<Identity>, lower: string -> string)
    requires Matched(text, m)
    ensures Adds(text, m, members, lower, Hits(text, m, Assistants(members), lower))
  {
    var token := lower(Raw(text, m));
    var at := AssistantPlaces(members);
    NamedLast(members, lower, token);
  }

  lemma {:induction false} MentionedAdds(
    text: string, ms: seq<Match>, members: seq<Identity>, lower: string -> string) returns (added: seq<seq<Id>>)
    requires AllMatched(text, ms)
    ensures |added| == |ms| && forall k | 0 <= k < |ms| :: Adds(text, ms[k], members, lower, added[k])
    ensures Flatten(added) == Mentioned(text, ms, Assistants(members), lower)
  {
    added := [];
    if ms != [] {
      var last := |ms| - 1;
      var before := MentionedAdds(text, ms[..last], members, lower);
      added := before + [Hits(text, ms[last], Assistants(members), lower)];
      HitsAdd(text, ms[last], members, lower);
      assert added[..last] == before;
      forall k | 0 <= k < |ms| ensures Adds(text, ms[k], members, lower, added[k]) {
        if k < last { assert Adds(text, ms[..last][k], members, lower, before[k]); }
      }
    }
  }

  lemma MarksAreSpans(text: string, m: Match, members: seq<Identity>, lower: string -> string, span: Span)
    ensures (exists i: nat :: Marks(text, m, members, lower, i, span)) <==>
            SpanFor(text, m, Assistants(members), lower, span)
  {
    if Matched(text, m) {
      var token := lower(Raw(text, m));
      NamedLast(members, lower, token);
      if SpanFor(text, m, Assistants(members), lower, span) {
        var i: nat :| LastNamed(members, lower, token, i);
        assert Marks(text, m, members, lower, i, span);
      }
    }
  }

  // ----- the theorems -----

  lemma {:induction false} IdsOfAssistants(members: seq<Identity>)
    ensures forall x :: x in Ids(Assistants(members)) <==>
              exists i | 0 <= i < |members| :: members[i].assistant && members[i].id == x
  {
    if members != [] {
      var init, last := members[..|members| - 1], members[|members| - 1];
      IdsOfAssistants(init);
      var before := Assistants(init);
      assert last.assistant ==> Assistants(members)[..|before|] == before;
      forall x
        ensures x in Ids(Assistants(members)) <==>
                exists i | 0 <= i < |members| :: members[i].assistant && members[i].id == x
      {
        if x in Ids(before) {
          var i :| 0 <= i < |init| && init[i].assistant && init[i].id == x;
          assert members[i] == init[i];
        }
        if exists i | 0 <= i < |members| :: members[i].assistant && members[i].id == x {
          var i :| 0 <= i < |members| && members[i].assistant && members[i].id == x;
          assert i < |init| ==> init[i] == members[i];
        }
      }
    }
  }

  lemma {:induction false} NamedIds(assistants: seq<Identity>, lower: string -> string)
    ensures forall k | k in NameMap(assistants, lower) :: NameMap(assistants, lower)[k].id in Ids(assistants)
  {
    if assistants != [] {
      NamedIds(assistants[..|assistants| - 1], lower);
    }
  }

  /** `x` is one of the ids that `m` stands for. */
  ghost predicate HitBy(text: string, m: Match, assistants: seq<Identity>, lower: string -> string, x: Id) {
    Matched(text, m) && x in Hits(text, m, assistants, lower)
  }

  lemma {:induction false} MentionedMeaning(text: string, ms: seq<Match>, assistants: seq<Identity>,
    lower: string -> string, x: Id)
    requires AllMatched(text, ms)
    ensures x in Mentioned(text, ms, assistants, lower) <==> exists m :: m in ms && HitBy(text, m, assistants, lower, x)
  {
    if ms != [] {
      var init, last := ms[..|ms| - 1], ms[|ms| - 1];
      assert forall m :: m in ms <==> m in init || m == last;
      MentionedMeaning(text, init, assistants, lower, x);
      assert x in Hits(text, last, assistants, lower) <==> HitBy(text, last, assistants, lower, x);
    }
  }

  lemma HitsAreAssistants(text: string, m: Match, members: seq<Identity>, lower: string -> string, x: Id)
    requires HitBy(text, m, Assistants(members), lower, x)
    ensures exists i | 0 <= i < |members| :: members[i].assistant && members[i].id == x
  {
    IdsOfAssistants(members);
    NamedIds(Assistants(members), lower);
    assert x in Ids(Assistants(members));
  }

  lemma MentionedExactly(text: string, assistants: seq<Identity>, lower: string -> string, x: Id)
    requires AllMatched(text, Scan(text, 0))
    ensures x in Mentioned(text, Scan(text, 0), assistants, lower) <==> exists m :: HitBy(text, m, assistants, lower, x)
  {
    MentionedMeaning(text, Scan(text, 0), assistants, lower, x);
    ScanExactly(text, 0);
    assert forall m :: HitBy(text, m, assistants, lower, x) ==> m in Scan(text, 0);
  }

  /** The recipients over the members, without the map: what the declared matches add. */
  lemma RecipientsOverMembers(text: string, members: seq<Identity>, lower: string -> string)
    ensures AllMatched(text, Scan(text, 0))
    ensures RecipientsAre(text, members, lower,
                          Dedup(Mentioned(text, Scan(text, 0), Assistants(members), lower), Anyone()))
  {
    MatchesOf(text);
    var added := MentionedAdds(text, Scan(text, 0), members, lower);
    DedupIsOrdered(Flatten(added), Anyone());
  }

  /** The spans over the members. */
  lemma SpansOverMembers(text: string, members: seq<Identity>, lower: string -> string)
    ensures AllMatched(text, Scan(text, 0))
    ensures SpansAre(text, members, lower, Spans(text, Scan(text, 0), Assistants(members), lower))
  {
    SpansExactly(text, members, lower);
    var assistants, spans := Assistants(members), Spans(text, Scan(text, 0), Assistants(members), lower);
    forall span ensures span in spans <==> exists m, i: nat :: Marks(text, m, members, lower, i, span) {
      MarkedOrNot(text, members, lower, span);
    }
  }

  lemma MarkedOrNot(text: string, members: seq<Identity>, lower: string -> string, span: Span)
    ensures (exists m, i: nat :: Marks(text, m, members, lower, i, span)) <==>
            exists m :: SpanFor(text, m, Assistants(members), lower, span)
  {
    if exists m, i: nat :: Marks(text, m, members, lower, i, span) {
      var m, i: nat :| Marks(text, m, members, lower, i, span);
      MarksAreSpans(text, m, members, lower, span);
    }
    if exists m :: SpanFor(text, m, Assistants(members), lower, span) {
      var m :| SpanFor(text, m, Assistants(members), lower, span);
      MarksAreSpans(text, m, members, lower, span);
    }
  }

  /** The recipients are the ids that the declared matches stand for, once each in
      first-occurrence order, and all of them belong to assistants. */
  lemma RecipientsExactly(text: string, members: seq<Identity>, lower: string -> string)
    ensures AllMatched(text, Scan(text, 0))
    ensures var assistants := Assistants(members);
      var mentioned := Mentioned(text, Scan(text, 0), assistants, lower);
      var out := Dedup(mentioned, Anyone());
      && OrderedDedup(mentioned, Anyone(), out) && Distinct(out)
      && (forall x :: x in out <==> exists m :: HitBy(text, m, assistants, lower, x))
      && (forall x | x in out :: exists i | 0 <= i < |members| :: members[i].assistant && members[i].id == x)
  {
    MatchesOf(text);
    var mentioned := Mentioned(text, Scan(text, 0), Assistants(members), lower);
    DedupIsDistinct(mentioned, Anyone());
    DedupIsOrdered(mentioned, Anyone());
    forall x { MentionedIsHit(text, members, lower, x); }
  }

  lemma MentionedIsHit(text: string, members: seq<Identity>, lower: string -> string, x: Id)
    requires AllMatched(text, Scan(text, 0))
    ensures var mentioned := x in Mentioned(text, Scan(text, 0), Assistants(members), lower);
      && (mentioned <==> exists m :: HitBy(text, m, Assistants(members), lower, x))
      && (mentioned ==> exists i | 0 <= i < |members| :: members[i].assistant && members[i].id == x)
  {
    MentionedExactly(text, Assistants(members), lower, x);
    if m :| HitBy(text, m, Assistants(members), lower, x) { HitsAreAssistants(text, m, members, lower, x); }
  }

  ghost predicate SpanFor(text: string, m: Match, assistants: seq<Identity>, lower: string -> string, span: Span) {
    Matched(text, m) && Named(text, m, assistants, lower) && span == SpanOf(text, m, assistants, lower)
  }

  lemma {:induction false} SpansMeaning(text: string, ms: seq<Match>, assistants: seq<Identity>,
    lower: string -> string, s: Span)
    requires AllMatched(text, ms)
    ensures s in Spans(text, ms, assistants, lower) <==> exists m :: m in ms && SpanFor(text, m, assistants, lower, s)
  {
    if ms != [] {
      var init, last := ms[..|ms| - 1], ms[|ms| - 1];
      assert forall m :: m in ms <==> m in init || m == last;
      SpansMeaning(text, init, assistants, lower, s);
      assert SpanFor(text, last, assistants, lower, s) <==>
        Named(text, last, assistants, lower) && s == SpanOf(text, last, assistants, lower);
    }
  }

  predicate SpansApart(a: Span, b: Span) {
    a.start + a.length <= b.start
  }

  lemma {:induction false} SpansAreApart(text: string, ms: seq<Match>, assistants: seq<Identity>,
    lower: string -> string)
    requires AllMatched(text, ms) && Sorted(Apart, ms)
    ensures Sorted(SpansApart, Spans(text, ms, assistants, lower))
  {
    if ms != [] {
      var init, last := ms[..|ms| - 1], ms[|ms| - 1];
      SpansAreApart(text, init, assistants, lower);
      var before := Spans(text, init, assistants, lower);
      forall s | s in before ensures s.start + s.length <= last.start {
        SpansMeaning(text, init, assistants, lower, s);
        var m :| m in init && SpanFor(text, m, assistants, lower, s);
        var i :| 0 <= i < |init| && init[i] == m;
        assert Apart(ms[i], ms[|ms| - 1]);
      }
      assert forall i | 0 <= i < |before| :: before[i] in before;
    }
  }

  lemma SpanExactly(text: string, assistants: seq<Identity>, lower: string -> string, s: Span)
    requires AllMatched(text, Scan(text, 0))
    ensures s in Spans(text, Scan(text, 0), assistants, lower) <==> exists m :: SpanFor(text, m, assistants, lower, s)
  {
    SpansMeaning(text, Scan(text, 0), assistants, lower, s);
    ScanExactly(text, 0);
    assert forall m :: SpanFor(text, m, assistants, lower, s) ==> m in Scan(text, 0);
  }

  lemma MatchSlices(text: string, m: Match)
    requires Matched(text, m)
    ensures text[m.start..m.start + m.length] == "@" + Raw(text, m)
  {
  }

  lemma SpanIsMentioned(text: string, m: Match, assistants: seq<Identity>, lower: string -> string, s: Span)
    requires AllMatched(text, Scan(text, 0)) && SpanFor(text, m, assistants, lower, s)
    ensures s.identityId in Mentioned(text, Scan(text, 0), assistants, lower)
  {
    MentionedExactly(text, assistants, lower, s.identityId);
    assert HitBy(text, m, assistants, lower, s.identityId) by {
      assert s.identityId in Hits(text, m, assistants, lower);
    }
  }

  lemma SpanSlices(text: string, assistants: seq<Identity>, lower: string -> string, s: Span)
    requires AllMatched(text, Scan(text, 0)) && s in Spans(text, Scan(text, 0), assistants, lower)
    ensures s.start + s.length <= |text| && text[s.start..s.start + s.length] == "@" + s.text
    ensures s.identityId in Mentioned(text, Scan(text, 0), assistants, lower)
  {
    SpanExactly(text, assistants, lower, s);
    var m :| SpanFor(text, m, assistants, lower, s);
    MatchSlices(text, m);
    SpanIsMentioned(text, m, assistants, lower, s);
  }

  /** The spans are the named matches: one for each, increasing and disjoint, each
      slicing back to `@` and its text, each for an id among the recipients. */
  lemma SpansExactly(text: string, members: seq<Identity>, lower: string -> string)
    ensures AllMatched(text, Scan(text, 0))
    ensures var assistants := Assistants(members);
      var spans := Spans(text, Scan(text, 0), assistants, lower);
      && Sorted(SpansApart, spans)
      && (forall s :: s in spans <==> exists m :: SpanFor(text, m, assistants, lower, s))
      && (forall s | s in spans ::
            && s.start + s.length <= |text| && text[s.start..s.start + s.length] == "@" + s.text
            && s.identityId in Dedup(Mentioned(text, Scan(text, 0), assistants, lower), Anyone()))
  {
    var ms, assistants := Scan(text, 0), Assistants(members);
    MatchesOf(text);
    ScanIsApart(text, 0);
    SpansAreApart(text, ms, assistants, lower);
    var mentioned, spans := Mentioned(text, ms, assistants, lower), Spans(text, ms, assistants, lower);
    assert forall x :: x in Dedup(mentioned, Anyone()) <==> x in mentioned by { DedupIsDistinct(mentioned, Anyone()); }
    forall s ensures s in spans <==> exists m :: SpanFor(text, m, assistants, lower, s) {
      SpanExactly(text, assistants, lower, s);
    }
    forall s | s in spans
      ensures s.start + s.length <= |text| && text[s.start..s.start + s.length] == "@" + s.text
        && s.identityId in mentioned
    {
      SpanSlices(text, assistants, lower, s);
    }
  }
}
