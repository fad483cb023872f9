/** How a request for a new session is turned into the list of capabilities to try. */
module Capabilities {
  import opened Wrappers
  import opened Json

  /** What the port knows of its browser before launching it. */
  datatype Known = Known(
    browserName: Option<string>,
    browserVersion: Option<string>,
    platformName: Option<string>,
    acceptInsecureCerts: Option<bool>,
    setWindowRect: Option<bool>)

  /** The port's part: its known capabilities and its own checks. */
  datatype Platform = Platform(
    known: Known,
    validates: (string, Value) -> bool,
    matches: (string, Value) -> bool,
    compareVersions: (string, string) -> bool)

  datatype ErrorCode = InvalidArgument | SessionNotCreated | UnknownError

  datatype Processed = Failed(code: ErrorCode) | Matches(list: seq<Members>)

  function GetString(m: Members, k: string): Option<string> {
    if k in m && m[k].String? then Some(m[k].text) else None
  }

  // ----- validating -----

  const MAX_SAFE_INTEGER: int := 9007199254740991

  predicate IsTimeout(v: Value) {
    v.Number? && 0.0 <= v.number <= MAX_SAFE_INTEGER as real && v.number == v.number.Floor as real
  }

  predicate IsTimeouts(timeouts: Members) {
    forall k :: k in timeouts && k != "sessionId" ==>
      IsTimeout(timeouts[k]) && (k == "script" || k == "pageLoad" || k == "implicit")
  }

  predicate IsPageLoadStrategy(s: string) { s == "none" || s == "normal" || s == "eager" }

  predicate IsPromptBehavior(s: string) {
    s == "dismiss" || s == "accept" || s == "dismiss and notify" || s == "accept and notify" || s == "ignore"
  }

  /** Whether a capability, known not to be null, is valid. */
  predicate ValidCapability(p: Platform, k: string, v: Value) {
    if k == "acceptInsecureCerts" then v.Boolean?
    else if k == "browserName" || k == "browserVersion" || k == "platformName" then v.String?
    else if k == "pageLoadStrategy" then v.String? && IsPageLoadStrategy(v.text)
    else if k == "proxy" then true
    else if k == "timeouts" then v.Object? && IsTimeouts(v.members)
    else if k == "unhandledPromptBehavior" then v.String? && IsPromptBehavior(v.text)
    else ':' in k && p.validates(k, v)
  }

  ghost predicate AllValid(p: Platform, caps: Members) {
    forall k :: k in caps && !caps[k].Null? ==> ValidCapability(p, k, caps[k])
  }

  /** What is kept of valid capabilities: all but nulls and the proxy. */
  function Kept(caps: Members): Members {
    map k | k in caps && !caps[k].Null? && k != "proxy" :: caps[k]
  }

  function Restricted(caps: Members, ks: set<string>): Members {
    map k | k in caps && k in ks :: caps[k]
  }

  lemma RestrictedMore(caps: Members, ks: set<string>, k: string)
    requires k in caps
    ensures Restricted(caps, ks + {k}) == Restricted(caps, ks)[k := caps[k]]
  {
  }

  /** Validating, with the members visited in any order. */
  method ValidatedCapabilities(p: Platform, caps: Members) returns (r: Option<Members>)
    ensures r == if AllValid(p, caps) then Some(Kept(caps)) else None
  {
    var result: Members := map[];
    var left := caps.Keys;
    while left != {}
      invariant left <= caps.Keys
      invariant AllValid(p, Restricted(caps, caps.Keys - left))
      invariant result == Kept(Restricted(caps, caps.Keys - left))
    {
      var k: string :| k in left;
      ghost var seen := caps.Keys - left;
      left := left - {k};
      assert caps.Keys - left == seen + {k};
      RestrictedMore(caps, seen, k);
      if !caps[k].Null? {
        if !ValidCapability(p, k, caps[k]) {
          return None;
        }
        if k != "proxy" {
          result := result[k := caps[k]];
        }
      }
    }
    assert Restricted(caps, caps.Keys - left) == caps;
    r := Some(result);
  }

  // ----- merging and matching -----

  method MergeCapabilities(required: Members, firstMatch: Members) returns (result: Members)
    ensures result == required + firstMatch
  {
    result := Overlay(map[], required);
    result := Overlay(result, firstMatch);
  }

  /** Setting every member of one object in another, in any order. */
  method Overlay(under: Members, over: Members) returns (result: Members)
    ensures result == under + over
  {
    result := under;
    var left := over.Keys;
    while left != {}
      invariant left <= over.Keys
      invariant result == under + Restricted(over, over.Keys - left)
    {
      var k: string :| k in left;
      ghost var seen := over.Keys - left;
      left := left - {k};
      assert over.Keys - left == seen + {k};
      RestrictedMore(over, seen, k);
      result := result[k := over[k]];
    }
    assert Restricted(over, over.Keys - left) == over;
  }

  function ToLower(c: char): char { if 'A' <= c <= 'Z' then c + ('a' - 'A') else c }

  function Folded(s: string): string {
    if s == "" then "" else [ToLower(s[0])] + Folded(s[1..])
  }

  function TextOf(v: Value): string { if v.String? then v.text else "" }

  /** The known capabilities that a session starts from. */
  function Defaults(known: Known): Members {
    (if known.browserName.Some? then map["browserName" := String(known.browserName.value)] else map[]) +
    (if known.browserVersion.Some? then map["browserVersion" := String(known.browserVersion.value)] else map[]) +
    (if known.platformName.Some? then map["platformName" := String(known.platformName.value)] else map[]) +
    (if known.acceptInsecureCerts.Some? then
      map["acceptInsecureCerts" := Boolean(known.acceptInsecureCerts.value)] else map[]) +
    (if known.setWindowRect.Some? then map["setWindowRect" := Boolean(known.setWindowRect.value)] else map[])
  }

  /** Whether a requested capability can be met: only what is known not to match is refused. */
  predicate MatchesCapability(p: Platform, k: string, v: Value) {
    if k == "browserName" && p.known.browserName.Some? then
      Folded(p.known.browserName.value) == Folded(TextOf(v))
    else if k == "browserVersion" && p.known.browserVersion.Some? then
      p.compareVersions(TextOf(v), p.known.browserVersion.value)
    else if k == "platformName" && p.known.platformName.Some? then
      Folded(TextOf(v)) == "any" || p.known.platformName.value == TextOf(v)
    else if k == "acceptInsecureCerts" && p.known.acceptInsecureCerts.Some? then
      v == Boolean(true) ==> p.known.acceptInsecureCerts.value
    else
      k == "proxy" || p.matches(k, v)
  }

  ghost predicate AllMatch(p: Platform, caps: Members) {
    forall k :: k in caps ==> MatchesCapability(p, k, caps[k])
  }

  ghost function Matched(p: Platform, merged: Members): Option<Members> {
    if AllMatch(p, merged) then Some(Defaults(p.known) + merged) else None
  }

  method MatchCapabilities(p: Platform, merged: Members) returns (r: Option<Members>)
    ensures r == Matched(p, merged)
  {
    r := MatchOver(p, Defaults(p.known), merged);
  }

  /** Setting every requested capability over those known, unless one cannot be met. */
  method MatchOver(p: Platform, defaults: Members, merged: Members) returns (r: Option<Members>)
    ensures r == if AllMatch(p, merged) then Some(defaults + merged) else None
  {
    var result := defaults;
    var left := merged.Keys;
    while left != {}
      invariant left <= merged.Keys
      invariant AllMatch(p, Restricted(merged, merged.Keys - left))
      invariant result == defaults + Restricted(merged, merged.Keys - left)
    {
      var k: string :| k in left;
      ghost var seen := merged.Keys - left;
      left := left - {k};
      assert merged.Keys - left == seen + {k};
      RestrictedMore(merged, seen, k);
      if !MatchesCapability(p, k, merged[k]) {
        return None;
      }
      result := result[k := merged[k]];
    }
    assert Restricted(merged, merged.Keys - left) == merged;
    r := Some(result);
  }

  // ----- processing a request -----

  /** What alwaysMatch asks for, if the request says it properly. */
  ghost function Required(p: Platform, request: Members): Option<Members> {
    if "alwaysMatch" !in request then Some(map[])
    else
      var v := request["alwaysMatch"];
      if v.Object? && AllValid(p, v.members) then Some(Kept(v.members)) else None
  }

  function Entries(request: Members): Option<seq<Value>> {
    if "firstMatch" !in request then Some([Object(map[])])
    else if request["firstMatch"].Array? then Some(request["firstMatch"].items)
    else None
  }

  /** An entry of firstMatch is an object of valid capabilities that asks for nothing alwaysMatch asks for. */
  ghost predicate GoodEntry(p: Platform, required: Members, v: Value) {
    v.Object? && AllValid(p, v.members) && Kept(v.members).Keys !! required.Keys
  }

  ghost predicate GoodRequest(p: Platform, parameters: Members) {
    && "capabilities" in parameters && parameters["capabilities"].Object?
    && var request := parameters["capabilities"].members;
    && Required(p, request).Some? && Entries(request).Some?
    && forall i :: 0 <= i < |Entries(request).value| ==>
        GoodEntry(p, Required(p, request).value, Entries(request).value[i])
  }

  /** The capabilities each entry leads to, in order, without the entries that cannot be met. */
  ghost function Candidates(p: Platform, required: Members, entries: seq<Members>): seq<Members> {
    if entries == [] then []
    else
      var last := |entries| - 1;
      var matched := Matched(p, required + entries[last]);
      Candidates(p, required, entries[..last]) + (if matched.Some? then [matched.value] else [])
  }

  function KeptEntries(entries: seq<Value>): (es: seq<Members>)
    requires forall i :: 0 <= i < |entries| ==> entries[i].Object?
    ensures |es| == |entries|
    ensures forall i :: 0 <= i < |es| ==> es[i] == Kept(entries[i].members)
  {
    if entries == [] then [] else [Kept(entries[0].members)] + KeptEntries(entries[1..])
  }

  ghost function Process(p: Platform, parameters: Members): Processed {
    if !GoodRequest(p, parameters) then Failed(InvalidArgument)
    else
      var request := parameters["capabilities"].members;
      var list := Candidates(p, Required(p, request).value, KeptEntries(Entries(request).value));
      if list == [] then Failed(SessionNotCreated) else Matches(list)
  }

  method ValidateEntries(p: Platform, required: Members, entries: seq<Value>) returns (r: Option<seq<Members>>)
    ensures r.Some? <==> forall i :: 0 <= i < |entries| ==> GoodEntry(p, required, entries[i])
    ensures r.Some? ==> r.value == KeptEntries(entries)
  {
    var list: seq<Members> := [];
    for i := 0 to |entries|
      invariant forall j :: 0 <= j < i ==> GoodEntry(p, required, entries[j])
      invariant |list| == i && forall j :: 0 <= j < i ==> list[j] == Kept(entries[j].members)
    {
      if !entries[i].Object? {
        return None;
      }
      var validated := ValidatedCapabilities(p, entries[i].members);
      if validated.None? || !(validated.value.Keys !! required.Keys) {
        assert !GoodEntry(p, required, entries[i]);
        return None;
      }
      list := list + [validated.value];
    }
    assert list == KeptEntries(entries);
    r := Some(list);
  }

  method MatchEntries(p: Platform, required: Members, entries: seq<Members>) returns (list: seq<Members>)
    ensures list == Candidates(p, required, entries)
  {
    list := [];
    for i := 0 to |entries|
      invariant list == Candidates(p, required, entries[..i])
    {
      var merged := MergeCapabilities(required, entries[i]);
      var matched := MatchCapabilities(p, merged);
      assert entries[..i + 1][..i] == entries[..i];
      if matched.Some? {
        list := list + [matched.value];
      }
    }
    assert entries[..|entries|] == entries;
  }

  method ProcessCapabilities(p: Platform, parameters: Members) returns (r: Processed)
    ensures r == Process(p, parameters)
  {
    if "capabilities" !in parameters || !parameters["capabilities"].Object? {
      return Failed(InvalidArgument);
    }
    var request := parameters["capabilities"].members;
    var required: Members := map[];
    if "alwaysMatch" in request {
      if !request["alwaysMatch"].Object? {
        return Failed(InvalidArgument);
      }
      required := request["alwaysMatch"].members;
    }
    var validated := ValidatedCapabilities(p, required);
    assert validated == Required(p, request);
    if validated.None? || Entries(request).None? {
      return Failed(InvalidArgument);
    }
    var entries := ValidateEntries(p, validated.value, Entries(request).value);
    if entries.None? {
      return Failed(InvalidArgument);
    }
    var list := MatchEntries(p, validated.value, entries.value);
    r := if list == [] then Failed(SessionNotCreated) else Matches(list);
  }

  // ----- what the list holds -----

  /** The positions of the entries that can be met. */
  ghost function Met(p: Platform, required: Members, entries: seq<Members>): seq<nat> {
    if entries == [] then []
    else
      var last := |entries| - 1;
      Met(p, required, entries[..last]) + (if AllMatch(p, required + entries[last]) then [last] else [])
  }

  lemma {:induction false} MetInRange(p: Platform, required: Members, entries: seq<Members>, k: nat)
    ensures k in Met(p, required, entries) <==> k < |entries| && AllMatch(p, required + entries[k])
  {
    if entries != [] {
      var last := |entries| - 1;
      MetInRange(p, required, entries[..last], k);
      var ks := Met(p, required, entries[..last]);
      var more: seq<nat> := if AllMatch(p, required + entries[last]) then [last] else [];
      assert k in ks + more <==> k in ks || k in more;
    }
  }

  ghost predicate Increasing(ks: seq<nat>) { forall a, b :: 0 <= a < b < |ks| ==> ks[a] < ks[b] }

  lemma {:induction false} MetAreOrdered(p: Platform, required: Members, entries: seq<Members>)
    ensures Increasing(Met(p, required, entries))
  {
    if entries != [] {
      var last := |entries| - 1;
      var ks := Met(p, required, entries[..last]);
      MetAreOrdered(p, required, entries[..last]);
      forall a | 0 <= a < |ks| ensures ks[a] < last {
        assert ks[a] in ks;
        MetInRange(p, required, entries[..last], ks[a]);
      }
      assert Increasing(ks + [last]);
    }
  }

  lemma {:induction false} CandidatesAreMet(p: Platform, required: Members, entries: seq<Members>)
    ensures var ks, list := Met(p, required, entries), Candidates(p, required, entries);
      && |list| == |ks|
      && forall a :: 0 <= a < |ks| ==> ks[a] < |entries| && list[a] == Defaults(p.known) + (required + entries[ks[a]])
  {
    if entries != [] {
      CandidatesAreMet(p, required, entries[..|entries| - 1]);
    }
  }

  /** Capabilities made of two parts that do not overlap, laid over others: what either part asks for is there
      as asked, and the rest is what was underneath. */
  ghost predicate JoinedOver(caps: Members, under: Members, a: Members, b: Members) {
    && a.Keys !! b.Keys
    && (forall k :: k in a ==> k in caps && caps[k] == a[k])
    && (forall k :: k in b ==> k in caps && caps[k] == b[k])
    && (forall k :: k !in a && k !in b ==> (k in caps <==> k in under) && (k in under ==> caps[k] == under[k]))
  }

  lemma MergeJoins(p: Platform, under: Members, required: Members, v: Value)
    requires GoodEntry(p, required, v)
    ensures JoinedOver(under + (required + Kept(v.members)), under, required, Kept(v.members))
  {
    var entry := Kept(v.members);
    assert forall k :: k in required ==> k !in entry;
  }

  /** The meaning of a processed request: exactly the entries of firstMatch that can be met, in their order,
      each joined with alwaysMatch, which asks for nothing it asks for, and laid over what the port knows. */
  lemma ProcessedMeans(p: Platform, parameters: Members)
    ensures Process(p, parameters).Matches? ==>
      GoodRequest(p, parameters) &&
      var request := parameters["capabilities"].members;
      var required, entries := Required(p, request).value, KeptEntries(Entries(request).value);
      var list, ks := Process(p, parameters).list, Met(p, required, entries);
      && |list| == |ks| > 0
      && (forall a :: 0 <= a < |ks| ==>
          ks[a] < |entries| && JoinedOver(list[a], Defaults(p.known), required, entries[ks[a]]))
      && Increasing(ks)
      && (forall k :: 0 <= k < |entries| ==> (k in ks <==> AllMatch(p, required + entries[k])))
  {
    if GoodRequest(p, parameters) {
      var request := parameters["capabilities"].members;
      ListMeans(p, Required(p, request).value, Entries(request).value);
    }
  }

  lemma ListMeans(p: Platform, required: Members, values: seq<Value>)
    requires forall i :: 0 <= i < |values| ==> values[i].Object? && GoodEntry(p, required, values[i])
    ensures var entries := KeptEntries(values);
      var list, ks := Candidates(p, required, entries), Met(p, required, entries);
      && |list| == |ks| && Increasing(ks)
      && (forall a :: 0 <= a < |ks| ==>
          ks[a] < |entries| && JoinedOver(list[a], Defaults(p.known), required, entries[ks[a]]))
      && (forall k :: 0 <= k < |entries| ==> (k in ks <==> AllMatch(p, required + entries[k])))
  {
    var entries := KeptEntries(values);
    var ks := Met(p, required, entries);
    forall k: nat ensures k in ks <==> k < |entries| && AllMatch(p, required + entries[k]) {
      MetInRange(p, required, entries, k);
    }
    MetAreOrdered(p, required, entries);
    CandidatesAreMet(p, required, entries);
    forall a | 0 <= a < |ks|
      ensures JoinedOver(Candidates(p, required, entries)[a], Defaults(p.known), required, entries[ks[a]])
    {
      MergeJoins(p, Defaults(p.known), required, values[ks[a]]);
    }
  }
}
