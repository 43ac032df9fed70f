/** Socket namespaces: a path spells the tenant values under the namespace keys. */
module Namespace {
  import opened Types
  import Tenant

  const MAX_VALUE_LEN: nat := 32

  datatype Violation =
    | NoKeys
    | EmptyKey
    | DuplicateKey(key: string)
    | MissingKey(key: string)
    | EmptyValue
    | ValueTooLong(length: nat)
    | BadCharacters(value: string)
    | NoLeadingSlash
    | WrongSegmentCount(expected: nat, actual: nat)

  // ----- values -----

  predicate ValueChar(c: char) {
    ('A' <= c <= 'Z') || ('a' <= c <= 'z') || ('0' <= c <= '9') || c == '.' || c == '_' || c == '-'
  }

  predicate Plain(v: string) {
    v != "" && forall i | 0 <= i < |v| :: ValueChar(v[i])
  }

  /** The pattern `^[A-Za-z0-9._-]+$`: in Python `$` also matches before a newline
      at the very end. */
  predicate MatchesPattern(v: string) {
    Plain(v) || (v != "" && v[|v| - 1] == '\n' && Plain(v[..|v| - 1]))
  }

  function ValueViolation(v: string): Option<Violation> {
    if v == "" then Some(EmptyValue)
    else if |v| > MAX_VALUE_LEN then Some(ValueTooLong(|v|))
    else if !MatchesPattern(v) then Some(BadCharacters(v))
    else None
  }

  predicate ValidValue(v: string) {
    ValueViolation(v).None?
  }

  /** A valid value is a path segment of its own. */
  predicate Segment(v: string) {
    v != "" && '/' !in v
  }

  lemma ValidIsSegment(v: string)
    requires ValidValue(v)
    ensures Segment(v)
  {
  }

  // ----- the constructor's check of the keys -----

  predicate GoodKeys(keys: seq<string>) {
    keys != [] && "" !in keys && forall i, j | 0 <= i < j < |keys| :: keys[i] != keys[j]
  }

  method ValidateNamespaceKeys(keys: Option<seq<string>>) returns (r: Result<Option<seq<string>>, Violation>)
    ensures r.Ok? <==> keys.None? || GoodKeys(keys.value)
    ensures r.Ok? ==> r.value == keys
  {
    if keys.None? { return Ok(None); }
    var ks := keys.value;
    if ks == [] { return Err(NoKeys); }
    var seen: set<string> := {};
    for i := 0 to |ks|
      invariant seen == set k | k in ks[..i]
      invariant "" !in ks[..i]
      invariant forall a, b | 0 <= a < b < i :: ks[a] != ks[b]
    {
      var key := ks[i];
      assert ks[..i + 1] == ks[..i] + [key];
      assert key in ks;
      if key == "" { return Err(EmptyKey); }
      if key in seen {
        var a :| 0 <= a < i && ks[..i][a] == key;
        assert ks[a] == ks[i];
        return Err(DuplicateKey(key));
      }
      seen := seen + {key};
    }
    assert ks[..|ks|] == ks;
    return Ok(Some(ks));
  }

  // ----- paths -----

  function Join(parts: seq<string>): string {
    if parts == [] then "" else "/" + parts[0] + Join(parts[1..])
  }

  function SegmentEnd(p: string): (n: nat)
    ensures n <= |p| && '/' !in p[..n] && (n < |p| ==> p[n] == '/')
  {
    if p == "" || p[0] == '/' then 0
    else
      assert p == [p[0]] + p[1..];
      1 + SegmentEnd(p[1..])
  }

  /** The non-empty pieces between slashes. */
  function Segments(p: string): seq<string>
    decreases |p|
  {
    if p == "" then []
    else if p[0] == '/' then Segments(p[1..])
    else [p[..SegmentEnd(p)]] + Segments(p[SegmentEnd(p)..])
  }

  /** A path without its superfluous slashes: those followed by another slash or
      by nothing. */
  function Collapse(p: string): string {
    if p == "" then ""
    else if p[0] == '/' && (|p| == 1 || p[1] == '/') then Collapse(p[1..])
    else [p[0]] + Collapse(p[1..])
  }

  lemma {:induction false} SegmentEndUnique(s: string, rest: string)
    requires '/' !in s && (rest == "" || rest[0] == '/')
    ensures SegmentEnd(s + rest) == |s|
  {
    var n := SegmentEnd(s + rest);
    assert forall i | 0 <= i < |s| :: (s + rest)[i] == s[i] && s[i] != '/';
    assert rest != "" ==> (s + rest)[|s|] == '/';
    assert forall i | 0 <= i < n :: (s + rest)[i] == (s + rest)[..n][i] && (s + rest)[i] != '/';
  }

  lemma {:induction false} SegmentsOfJoin(parts: seq<string>)
    requires forall i | 0 <= i < |parts| :: Segment(parts[i])
    ensures Segments(Join(parts)) == parts
  {
    if parts != [] {
      var rest := Join(parts[1..]);
      var p := parts[0] + rest;
      assert Join(parts) == "/" + p && ("/" + p)[1..] == p;
      assert p[0] == parts[0][0];
      SegmentEndUnique(parts[0], rest);
      assert p[..|parts[0]|] == parts[0] && p[|parts[0]|..] == rest;
      SegmentsOfJoin(parts[1..]);
    }
  }

  lemma {:induction false} CollapseSegment(s: string, rest: string)
    requires '/' !in s
    ensures Collapse(s + rest) == s + Collapse(rest)
  {
    if s == "" {
      assert s + rest == rest;
    } else {
      assert (s + rest)[1..] == s[1..] + rest;
      CollapseSegment(s[1..], rest);
    }
  }

  lemma {:induction false} JoinOfSegments(p: string)
    requires p == "" || p[0] == '/'
    ensures Join(Segments(p)) == Collapse(p)
    decreases |p|
  {
    if p != "" && (|p| == 1 || p[1] == '/') {
      JoinOfSegments(p[1..]);
    } else if p != "" {
      var q := p[1..];
      var n := SegmentEnd(q);
      assert q == q[..n] + q[n..];
      CollapseSegment(q[..n], q[n..]);
      JoinOfSegments(q[n..]);
      assert Segments(p) == [q[..n]] + Segments(q[n..]);
      assert Join(Segments(p)) == "/" + q[..n] + Join(Segments(q[n..]));
      assert Collapse(p) == "/" + Collapse(q);
    }
  }

  lemma {:induction false} SegmentsAreSegments(p: string)
    ensures forall i | 0 <= i < |Segments(p)| :: Segment(Segments(p)[i])
    decreases |p|
  {
    if p != "" {
      if p[0] == '/' { SegmentsAreSegments(p[1..]); } else { SegmentsAreSegments(p[SegmentEnd(p)..]); }
    }
  }

  // ----- derive and parse -----

  function DeriveParts(tenant: Tenant.Scope, keys: seq<string>): Result<seq<string>, Violation> {
    if keys == [] then Ok([])
    else
      match DeriveParts(tenant, keys[..|keys| - 1])
      case Err(v) => Err(v)
      case Ok(parts) =>
        var key := keys[|keys| - 1];
        if key !in tenant then Err(MissingKey(key))
        else
          match ValueViolation(tenant[key])
          case Some(v) => Err(v)
          case None => Ok(parts + [tenant[key]])
  }

  function Derive(tenant: Tenant.Scope, keys: Option<seq<string>>): Result<string, Violation> {
    if keys.None? || keys.value == [] then Ok("/")
    else
      match DeriveParts(tenant, keys.value)
      case Err(v) => Err(v)
      case Ok(parts) => Ok(Join(parts))
  }

  function ParseSegments(segments: seq<string>, keys: seq<string>): Result<Tenant.Scope, Violation>
    requires |segments| == |keys|
  {
    if keys == [] then Ok(map[])
    else
      match ParseSegments(segments[..|keys| - 1], keys[..|keys| - 1])
      case Err(v) => Err(v)
      case Ok(result) =>
        match ValueViolation(segments[|keys| - 1])
        case Some(v) => Err(v)
        case None => Ok(result[keys[|keys| - 1] := segments[|keys| - 1]])
  }

  function Parse(path: string, keys: Option<seq<string>>): Result<Tenant.Scope, Violation> {
    if keys.None? || keys.value == [] then Ok(map[])
    else if path == "" || path[0] != '/' then Err(NoLeadingSlash)
    else if |Segments(path)| != |keys.value| then Err(WrongSegmentCount(|keys.value|, |Segments(path)|))
    else ParseSegments(Segments(path), keys.value)
  }

  /** The loop of `derive_namespace_path`. */
  method DeriveNamespacePath(tenant: Tenant.Scope, keys: Option<seq<string>>) returns (r: Result<string, Violation>)
    ensures r == Derive(tenant, keys)
  {
    if keys.None? || keys.value == [] { return Ok("/"); }
    var ks := keys.value;
    assert ks[..|ks|] == ks;
    var parts: seq<string> := [];
    for i := 0 to |ks|
      invariant DeriveParts(tenant, ks[..i]) == Ok(parts)
    {
      assert ks[..i + 1][..i] == ks[..i];
      var key := ks[i];
      if key !in tenant {
        DeriveFailsEarly(tenant, ks, i + 1);
        return Err(MissingKey(key));
      }
      var value := tenant[key];
      if ValueViolation(value).Some? {
        DeriveFailsEarly(tenant, ks, i + 1);
        return Err(ValueViolation(value).value);
      }
      parts := parts + [value];
    }
    return Ok(Join(parts));
  }

  lemma {:induction false} DeriveFailsEarly(tenant: Tenant.Scope, keys: seq<string>, n: nat)
    requires n <= |keys| && DeriveParts(tenant, keys[..n]).Err?
    ensures DeriveParts(tenant, keys) == DeriveParts(tenant, keys[..n])
    decreases |keys|
  {
    if n < |keys| {
      var init := keys[..|keys| - 1];
      assert init[..n] == keys[..n];
      DeriveFailsEarly(tenant, init, n);
    } else {
      assert keys[..n] == keys;
    }
  }

  /** The loop of `parse_namespace_path`. */
  method ParseNamespacePath(path: string, keys: Option<seq<string>>) returns (r: Result<Tenant.Scope, Violation>)
    ensures r == Parse(path, keys)
  {
    if keys.None? || keys.value == [] { return Ok(map[]); }
    if path == "" || path[0] != '/' { return Err(NoLeadingSlash); }
    var ks, segments := keys.value, Segments(path);
    if |segments| != |ks| { return Err(WrongSegmentCount(|ks|, |segments|)); }
    assert ks[..|ks|] == ks && segments[..|ks|] == segments;
    var result: Tenant.Scope := map[];
    for i := 0 to |ks|
      invariant ParseSegments(segments[..i], ks[..i]) == Ok(result)
    {
      assert ks[..i + 1][..i] == ks[..i] && segments[..i + 1][..i] == segments[..i];
      var value := segments[i];
      if ValueViolation(value).Some? {
        ParseFailsEarly(segments, ks, i + 1);
        return Err(ValueViolation(value).value);
      }
      result := result[ks[i] := value];
    }
    return Ok(result);
  }

  lemma {:induction false} ParseFailsEarly(segments: seq<string>, keys: seq<string>, n: nat)
    requires |segments| == |keys| && n <= |keys| && ParseSegments(segments[..n], keys[..n]).Err?
    ensures ParseSegments(segments, keys) == ParseSegments(segments[..n], keys[..n])
    decreases |keys|
  {
    if n < |keys| {
      var k := |keys| - 1;
      assert keys[..k][..n] == keys[..n] && segments[..k][..n] == segments[..n];
      ParseFailsEarly(segments[..k], keys[..k], n);
    } else {
      assert keys[..n] == keys && segments[..n] == segments;
    }
  }

  // ----- the codec -----

  function Restrict(tenant: Tenant.Scope, keys: seq<string>): Tenant.Scope {
    map k | k in tenant && k in keys :: tenant[k]
  }

  lemma {:induction false} DerivePartsMeaning(tenant: Tenant.Scope, keys: seq<string>)
    ensures DeriveParts(tenant, keys).Ok? <==> forall k | k in keys :: k in tenant && ValidValue(tenant[k])
    ensures DeriveParts(tenant, keys).Ok? ==>
      var parts := DeriveParts(tenant, keys).value;
      && |parts| == |keys|
      && forall i | 0 <= i < |keys| :: keys[i] in tenant && parts[i] == tenant[keys[i]] && ValidValue(parts[i])
  {
    if keys != [] {
      var init := keys[..|keys| - 1];
      assert keys == init + [keys[|keys| - 1]];
      DerivePartsMeaning(tenant, init);
    }
  }

  lemma {:induction false} ParseSegmentsMeaning(segments: seq<string>, keys: seq<string>)
    requires |segments| == |keys| && forall i, j | 0 <= i < j < |keys| :: keys[i] != keys[j]
    ensures ParseSegments(segments, keys).Ok? <==> forall i | 0 <= i < |keys| :: ValidValue(segments[i])
    ensures ParseSegments(segments, keys).Ok? ==>
      var t := ParseSegments(segments, keys).value;
      (forall k :: k in t <==> k in keys) && forall i | 0 <= i < |keys| :: keys[i] in t && t[keys[i]] == segments[i]
  {
    if keys != [] {
      var n := |keys| - 1;
      assert keys == keys[..n] + [keys[n]];
      ParseSegmentsMeaning(segments[..n], keys[..n]);
    }
  }

  /** Parsing a derived path gives back the tenant under the keys, and two tenants
      with one path agree under the keys. */
  lemma ParseOfDerive(tenant: Tenant.Scope, keys: seq<string>)
    requires GoodKeys(keys) && Derive(tenant, Some(keys)).Ok?
    ensures Parse(Derive(tenant, Some(keys)).value, Some(keys)) == Ok(Restrict(tenant, keys))
  {
    DerivePartsMeaning(tenant, keys);
    var parts := DeriveParts(tenant, keys).value;
    forall i | 0 <= i < |parts| ensures Segment(parts[i]) { ValidIsSegment(parts[i]); }
    SegmentsOfJoin(parts);
    ParseSegmentsMeaning(parts, keys);
    var t := ParseSegments(parts, keys).value;
    forall k | k in keys ensures k in tenant && t[k] == tenant[k] {
      var i :| 0 <= i < |keys| && keys[i] == k;
    }
    assert t == Restrict(tenant, keys);
  }

  lemma DeriveIsInjective(a: Tenant.Scope, b: Tenant.Scope, keys: seq<string>)
    requires GoodKeys(keys) && Derive(a, Some(keys)).Ok? && Derive(b, Some(keys)).Ok?
    ensures Derive(a, Some(keys)) == Derive(b, Some(keys)) <==> Restrict(a, keys) == Restrict(b, keys)
  {
    ParseOfDerive(a, keys);
    ParseOfDerive(b, keys);
    if Restrict(a, keys) == Restrict(b, keys) {
      DerivePartsMeaning(a, keys);
      DerivePartsMeaning(b, keys);
      forall i | 0 <= i < |keys| ensures a[keys[i]] == b[keys[i]] {
        assert keys[i] in keys && Restrict(a, keys)[keys[i]] == Restrict(b, keys)[keys[i]];
      }
      assert DeriveParts(a, keys).value == DeriveParts(b, keys).value;
    }
  }

  /** Deriving a parsed path gives the path without superfluous slashes. */
  lemma DeriveOfParse(path: string, keys: seq<string>)
    requires GoodKeys(keys) && Parse(path, Some(keys)).Ok?
    ensures Derive(Parse(path, Some(keys)).value, Some(keys)) == Ok(Collapse(path))
  {
    var segments := Segments(path);
    ParseSegmentsMeaning(segments, keys);
    var t := ParseSegments(segments, keys).value;
    DerivePartsMeaning(t, keys);
    forall k | k in keys ensures k in t && ValidValue(t[k]) {
      var i :| 0 <= i < |keys| && keys[i] == k;
    }
    assert DeriveParts(t, keys).value == segments;
    JoinOfSegments(path);
  }

  /** A derived path has no superfluous slash. */
  lemma CanonicalIsFixed(tenant: Tenant.Scope, keys: seq<string>)
    requires GoodKeys(keys)
    ensures var p := Derive(tenant, Some(keys)); p.Ok? ==> Collapse(p.value) == p.value
  {
    DerivePartsMeaning(tenant, keys);
    if Derive(tenant, Some(keys)).Ok? {
      var parts := DeriveParts(tenant, keys).value;
      forall i | 0 <= i < |parts| ensures Segment(parts[i]) { ValidIsSegment(parts[i]); }
      SegmentsOfJoin(parts);
      JoinOfSegments(Join(parts));
    }
  }

  /** Routing: events of a thread go to the canonical path of a session's namespace
      exactly when `_check_namespace_match` accepts the thread for the session.
      They reach the session itself only if its path was canonical to begin with. */
  lemma RoutingAgrees(path: string, keys: seq<string>, thread: Tenant.Scope)
    requires GoodKeys(keys) && Parse(path, Some(keys)).Ok?
    ensures var session := Parse(path, Some(keys)).value;
      && (Derive(thread, Some(keys)) == Ok(Collapse(path)) <==> Tenant.Contains(thread, session))
      && (Derive(thread, Some(keys)) == Ok(path) <==> Tenant.Contains(thread, session) && Collapse(path) == path)
  {
    var session := Parse(path, Some(keys)).value;
    DeriveOfParse(path, keys);
    CanonicalIsFixed(thread, keys);
    ParseSegmentsMeaning(Segments(path), keys);
    DerivePartsMeaning(thread, keys);
    DerivePartsMeaning(session, keys);
    assert forall k :: k in session <==> k in keys;
    if Tenant.Contains(thread, session) {
      assert forall k | k in keys :: k in thread && ValidValue(thread[k]);
      DeriveIsInjective(thread, session, keys);
      assert Restrict(thread, keys) == Restrict(session, keys);
    } else if Derive(thread, Some(keys)).Ok? {
      DeriveIsInjective(thread, session, keys);
      var k :| k in session && (k !in thread || thread[k] != session[k]);
      assert k in keys && k in Restrict(session, keys);
      assert k in Restrict(thread, keys) ==> Restrict(thread, keys)[k] != Restrict(session, keys)[k];
    }
  }

  /** Between the cuts `at[i]` and `at[i + 1]` the path has a slash and this value. */
  predicate PieceAt(path: string, at: seq<nat>, i: nat, value: string)
    requires i + 1 < |at|
  {
    at[i] < at[i + 1] <= |path| && path[at[i]] == '/' && path[at[i] + 1..at[i + 1]] == value
  }

  /** `at` cuts the path into one slash and one value for each key, in key order. */
  ghost predicate CutsAt(path: string, tenant: Tenant.Scope, keys: seq<string>, at: seq<nat>) {
    && |at| == |keys| + 1 && at[0] == 0 && at[|keys|] == |path|
    && forall i | 0 <= i < |keys| :: keys[i] in tenant && PieceAt(path, at, i, tenant[keys[i]])
  }

  /** The path of a thread: it spells the tenant's values under the keys, parses back
      to them, and is the canonical path of exactly the sessions that
      `_check_namespace_match` lets see the thread. */
  ghost predicate IsPathOf(path: string, tenant: Tenant.Scope, keys: seq<string>) {
    && Derive(tenant, Some(keys)) == Ok(path)
    && path != "/"
    && (exists at :: CutsAt(path, tenant, keys, at))
    && Parse(path, Some(keys)) == Ok(Restrict(tenant, keys))
    && forall session | Parse(session, Some(keys)).Ok? ::
         path == Collapse(session) <==> Tenant.Contains(tenant, Parse(session, Some(keys)).value)
  }

  lemma {:induction false} JoinCuts(parts: seq<string>) returns (at: seq<nat>)
    ensures |at| == |parts| + 1 && at[0] == 0 && at[|parts|] == |Join(parts)|
    ensures forall i | 0 <= i < |parts| :: PieceAt(Join(parts), at, i, parts[i])
  {
    at := [0];
    if parts != [] {
      var init, last := parts[..|parts| - 1], parts[|parts| - 1];
      JoinOfAppend(init, last);
      assert parts == init + [last];
      var before := JoinCuts(init);
      at := before + [|Join(parts)|];
      assert Join(parts)[|Join(init)| + 1..] == last;
      forall i | 0 <= i < |init| ensures PieceAt(Join(parts), at, i, parts[i]) {
        LongerPiece(Join(init), Join(parts), before, at, i, init[i]);
      }
    }
  }

  lemma LongerPiece(short: string, long: string, before: seq<nat>, at: seq<nat>, i: nat, value: string)
    requires short <= long && before <= at && i + 1 < |before| && PieceAt(short, before, i, value)
    ensures PieceAt(long, at, i, value)
  {
    assert at[i] == before[i] && at[i + 1] == before[i + 1];
    assert long[at[i] + 1..at[i + 1]] == short[at[i] + 1..at[i + 1]];
  }

  lemma {:induction false} JoinOfAppend(parts: seq<string>, last: string)
    ensures Join(parts + [last]) == Join(parts) + ("/" + last)
  {
    if parts == [] {
      assert [last][1..] == [];
      assert Join([last]) == "/" + last + "";
    } else {
      assert (parts + [last])[1..] == parts[1..] + [last];
      JoinOfAppend(parts[1..], last);
      assert Join(parts + [last]) == "/" + parts[0] + (Join(parts[1..]) + ("/" + last));
    }
  }

  /** A tenant has a path exactly if it has a valid value under every key, and then it
      is the derived one. */
  lemma DerivedIsPath(tenant: Tenant.Scope, keys: seq<string>)
    requires GoodKeys(keys)
    ensures Derive(tenant, Some(keys)).Ok? <==> forall k | k in keys :: k in tenant && ValidValue(tenant[k])
    ensures Derive(tenant, Some(keys)).Ok? ==> IsPathOf(Derive(tenant, Some(keys)).value, tenant, keys)
  {
    DerivePartsMeaning(tenant, keys);
    if Derive(tenant, Some(keys)).Ok? { PathOfDerived(tenant, keys); }
  }

  lemma PathOfDerived(tenant: Tenant.Scope, keys: seq<string>)
    requires GoodKeys(keys) && Derive(tenant, Some(keys)).Ok?
    ensures IsPathOf(Derive(tenant, Some(keys)).value, tenant, keys)
  {
    var path := Derive(tenant, Some(keys)).value;
    DerivePartsMeaning(tenant, keys);
    var at := JoinCuts(DeriveParts(tenant, keys).value);
    assert CutsAt(path, tenant, keys, at);
    ParseOfDerive(tenant, keys);
    assert path != "/" by {
      assert PieceAt(path, at, 0, tenant[keys[0]]) && tenant[keys[0]] != "";
    }
    forall session | Parse(session, Some(keys)).Ok?
      ensures path == Collapse(session) <==> Tenant.Contains(tenant, Parse(session, Some(keys)).value)
    {
      RoutingAgrees(session, keys, tenant);
    }
  }

  datatype ConnectError = NamespaceInvalid(violation: Violation) | NamespaceMismatch(key: string)

  /** The namespace part of a connection: the identity must carry every value that
      the path spells. */
  method AdmitSession(path: string, keys: seq<string>, identity: Tenant.Scope)
    returns (r: Result<Tenant.Scope, ConnectError>)
    ensures r.Ok? <==> Parse(path, Some(keys)).Ok? && Tenant.Contains(identity, Parse(path, Some(keys)).value)
    ensures r.Ok? ==> Ok(r.value) == Parse(path, Some(keys))
    ensures r.Err? && r.error.NamespaceMismatch? ==>
      var k := r.error.key;
      Parse(path, Some(keys)).Ok? && k in Parse(path, Some(keys)).value
      && (k in identity ==> identity[k] != Parse(path, Some(keys)).value[k])
  {
    var parsed := ParseNamespacePath(path, Some(keys));
    if parsed.Err? { return Err(NamespaceInvalid(parsed.error)); }
    var mismatch := FirstMismatch(parsed.value, identity);
    if mismatch.Some? { return Err(NamespaceMismatch(mismatch.value)); }
    return Ok(parsed.value);
  }

  /** `_check_namespace_match` for a session admitted with this tenant. */
  method CheckNamespaceMatch(session: Tenant.Scope, thread: Tenant.Scope) returns (r: bool)
    ensures r <==> forall k | k in session :: k in thread && thread[k] == session[k]
    ensures r <==> Tenant.Contains(thread, session)
  {
    var mismatch := FirstMismatch(session, thread);
    return mismatch.None?;
  }

  /** The loop of both checks: some key on which `actual` lacks the expected value. */
  method FirstMismatch(expected: Tenant.Scope, actual: Tenant.Scope) returns (r: Option<string>)
    ensures r.None? <==> Tenant.Contains(actual, expected)
    ensures r.Some? ==> r.value in expected && (r.value in actual ==> actual[r.value] != expected[r.value])
  {
    var rest := expected.Keys;
    while rest != {}
      invariant rest <= expected.Keys
      invariant forall k | k in expected && k !in rest :: k in actual && actual[k] == expected[k]
      decreases rest
    {
      var k :| k in rest;
      if k !in actual || actual[k] != expected[k] { return Some(k); }
      rest := rest - {k};
    }
    return None;
  }

  /** Isolation: for an admitted session every thread that its identity may see, and
      that has a broadcast path at all, is broadcast on the session's canonical
      path, and a thread of another path never passes the session's check. */
  lemma VisibleThreadsRouteHere(path: string, keys: seq<string>, identity: Tenant.Scope, thread: Tenant.Scope)
    requires GoodKeys(keys) && Parse(path, Some(keys)).Ok?
    requires Tenant.Contains(identity, Parse(path, Some(keys)).value)
    ensures Tenant.Contains(identity, thread) && Derive(thread, Some(keys)).Ok? ==>
      Derive(thread, Some(keys)) == Ok(Collapse(path))
    ensures Derive(thread, Some(keys)) != Ok(Collapse(path)) ==> !Tenant.Contains(thread, Parse(path, Some(keys)).value)
  {
    RoutingAgrees(path, keys, thread);
    var session := Parse(path, Some(keys)).value;
    ParseSegmentsMeaning(Segments(path), keys);
    DerivePartsMeaning(thread, keys);
    if Tenant.Contains(identity, thread) && Derive(thread, Some(keys)).Ok? {
      forall k | k in session ensures k in thread && thread[k] == session[k] {
        assert k in keys;
      }
    }
  }

  predicate EndsInNewline(v: string) {
    v != "" && v[|v| - 1] == '\n'
  }

  /** The value check is wider than its message says, by exactly this much: a plain
      value may be followed by one newline. */
  lemma ValidValueExactly(v: string)
    ensures ValidValue(v) <==> |v| <= 32 && (Plain(v) || exists w :: Plain(w) && v == w + "\n")
  {
    if v != "" && v[|v| - 1] == '\n' {
      assert v == v[..|v| - 1] + "\n";
    }
    forall w | Plain(w) && v == w + "\n" ensures MatchesPattern(v) {
      assert v[..|v| - 1] == w;
    }
  }

  lemma NewlineIsLast(v: string)
    requires ValidValue(v)
    ensures '\n' in v <==> EndsInNewline(v)
  {
    if '\n' in v { assert !Plain(v); }
  }

  lemma {:induction false} CharInJoin(parts: seq<string>, c: char)
    requires c != '/'
    ensures c in Join(parts) <==> exists i | 0 <= i < |parts| :: c in parts[i]
  {
    if parts != [] {
      var rest := parts[1..];
      assert Join(parts) == ("/" + parts[0]) + Join(rest);
      CharInJoin(rest, c);
      assert forall i | 1 <= i < |parts| :: parts[i] == rest[i - 1];
      assert forall i | 0 <= i < |rest| :: rest[i] == parts[i + 1];
    }
  }

  /** Which broadcast paths are affected: those of tenants with a value that ends in
      a newline under some key, and no others. All the laws above hold for them too. */
  lemma NewlineInPath(tenant: Tenant.Scope, keys: seq<string>)
    requires GoodKeys(keys) && Derive(tenant, Some(keys)).Ok?
    ensures '\n' in Derive(tenant, Some(keys)).value <==>
            exists k | k in keys :: k in tenant && EndsInNewline(tenant[k])
  {
    DerivePartsMeaning(tenant, keys);
    var parts := DeriveParts(tenant, keys).value;
    CharInJoin(parts, '\n');
    forall i | 0 <= i < |parts| ensures '\n' in parts[i] <==> EndsInNewline(tenant[keys[i]]) {
      NewlineIsLast(parts[i]);
    }
    if exists i | 0 <= i < |parts| :: '\n' in parts[i] {
      var i :| 0 <= i < |parts| && '\n' in parts[i];
      assert keys[i] in keys && EndsInNewline(tenant[keys[i]]);
    }
    if exists k | k in keys :: k in tenant && EndsInNewline(tenant[k]) {
      var k :| k in keys && k in tenant && EndsInNewline(tenant[k]);
      var i :| 0 <= i < |keys| && keys[i] == k;
      assert '\n' in parts[i];
    }
  }
}
