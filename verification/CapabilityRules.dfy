/** What is decided about each capability of a request, told capability by capability. */
module CapabilityRules {
  import opened Wrappers
  import opened Json
  import opened Capabilities

  // ----- letter case -----

  predicate SameLetter(a: char, b: char) {
    a == b || ('A' <= a <= 'Z' && b as int == a as int + 32) || ('A' <= b <= 'Z' && a as int == b as int + 32)
  }

  /** The texts differ at most in the case of ASCII letters. */
  ghost predicate SameButCase(a: string, b: string) {
    |a| == |b| && forall i :: 0 <= i < |a| ==> SameLetter(a[i], b[i])
  }

  lemma LettersFold(a: char, b: char)
    ensures ToLower(a) == ToLower(b) <==> SameLetter(a, b)
  {
  }

  lemma {:induction false} FoldedAt(s: string)
    ensures |Folded(s)| == |s| && forall i :: 0 <= i < |s| ==> Folded(s)[i] == ToLower(s[i])
  {
    if s != "" {
      FoldedAt(s[1..]);
    }
  }

  lemma FoldedSame(a: string, b: string)
    ensures Folded(a) == Folded(b) <==> SameButCase(a, b)
  {
    FoldedAt(a);
    FoldedAt(b);
    if |a| == |b| {
      forall i | 0 <= i < |a| ensures Folded(a)[i] == Folded(b)[i] <==> SameLetter(a[i], b[i]) {
        LettersFold(a[i], b[i]);
      }
      if SameButCase(a, b) {
        assert forall i :: 0 <= i < |a| ==> Folded(a)[i] == Folded(b)[i];
      }
    }
  }

  // ----- matching -----

  /** The name asked for is the one the port knows, in any letter case. */
  ghost predicate NameFits(p: Platform, v: Value) {
    if p.known.browserName.None? then p.matches("browserName", v)
    else v.String? && SameButCase(p.known.browserName.value, v.text)
  }

  ghost predicate VersionFits(p: Platform, v: Value) {
    if p.known.browserVersion.None? then p.matches("browserVersion", v)
    else v.String? && p.compareVersions(v.text, p.known.browserVersion.value)
  }

  /** The platform asked for is any, or the one the port knows. */
  ghost predicate PlatformFits(p: Platform, v: Value) {
    if p.known.platformName.None? then p.matches("platformName", v)
    else v.String? && (SameButCase(v.text, "any") || v.text == p.known.platformName.value)
  }

  /** Insecure certificates are not asked for on a port that does not accept them. */
  ghost predicate CertificatesFit(p: Platform, v: Value) {
    if p.known.acceptInsecureCerts.None? then p.matches("acceptInsecureCerts", v)
    else !(v == Boolean(true) && p.known.acceptInsecureCerts == Some(false))
  }

  const DECIDED: set<string> := {"browserName", "browserVersion", "platformName", "acceptInsecureCerts", "proxy"}

  /** Nothing asked for is known not to be there, and the port agrees to the rest. */
  ghost predicate Fits(p: Platform, m: Members) {
    && ("browserName" in m ==> NameFits(p, m["browserName"]))
    && ("browserVersion" in m ==> VersionFits(p, m["browserVersion"]))
    && ("platformName" in m ==> PlatformFits(p, m["platformName"]))
    && ("acceptInsecureCerts" in m ==> CertificatesFit(p, m["acceptInsecureCerts"]))
    && (forall k :: k in m && k !in DECIDED ==> p.matches(k, m[k]))
  }

  /** Names, versions and platforms are texts, as validation sees to. */
  predicate TextsAreTexts(m: Members) {
    && ("browserName" in m ==> m["browserName"].String?)
    && ("browserVersion" in m ==> m["browserVersion"].String?)
    && ("platformName" in m ==> m["platformName"].String?)
  }

  lemma NameIsMatched(p: Platform, v: Value)
    requires v.String?
    ensures MatchesCapability(p, "browserName", v) <==> NameFits(p, v)
  {
    if p.known.browserName.Some? {
      FoldedSame(p.known.browserName.value, v.text);
    }
  }

  lemma VersionIsMatched(p: Platform, v: Value)
    requires v.String?
    ensures MatchesCapability(p, "browserVersion", v) <==> VersionFits(p, v)
  {
  }

  lemma PlatformIsMatched(p: Platform, v: Value)
    requires v.String?
    ensures MatchesCapability(p, "platformName", v) <==> PlatformFits(p, v)
  {
    FoldedSame(v.text, "any");
    assert Folded("any") == "any" by { FoldedAt("any"); }
  }

  lemma CertificatesAreMatched(p: Platform, v: Value)
    ensures MatchesCapability(p, "acceptInsecureCerts", v) <==> CertificatesFit(p, v)
  {
  }

  lemma OthersAreMatched(p: Platform, k: string, v: Value)
    requires k !in DECIDED
    ensures MatchesCapability(p, k, v) <==> p.matches(k, v)
  {
  }

  lemma ProxyIsMatched(p: Platform, v: Value)
    ensures MatchesCapability(p, "proxy", v)
  {
  }

  lemma MemberIsMatched(p: Platform, m: Members, k: string)
    requires TextsAreTexts(m) && k in m && Fits(p, m)
    ensures MatchesCapability(p, k, m[k])
  {
    if k == "browserName" {
      NameIsMatched(p, m[k]);
    } else if k == "browserVersion" {
      VersionIsMatched(p, m[k]);
    } else if k == "platformName" {
      PlatformIsMatched(p, m[k]);
    } else if k == "acceptInsecureCerts" {
      CertificatesAreMatched(p, m[k]);
    } else if k == "proxy" {
      ProxyIsMatched(p, m[k]);
    } else {
      OthersAreMatched(p, k, m[k]);
    }
  }

  lemma MatchedFits(p: Platform, m: Members)
    requires TextsAreTexts(m) && AllMatch(p, m)
    ensures Fits(p, m)
  {
    if "browserName" in m {
      NameIsMatched(p, m["browserName"]);
    }
    if "browserVersion" in m {
      VersionIsMatched(p, m["browserVersion"]);
    }
    if "platformName" in m {
      PlatformIsMatched(p, m["platformName"]);
    }
    if "acceptInsecureCerts" in m {
      CertificatesAreMatched(p, m["acceptInsecureCerts"]);
    }
    forall k | k in m && k !in DECIDED ensures p.matches(k, m[k]) {
      OthersAreMatched(p, k, m[k]);
    }
  }

  /** Capabilities are refused exactly if one of them does not fit. */
  lemma MatchedExactly(p: Platform, m: Members)
    requires TextsAreTexts(m)
    ensures Matched(p, m).Some? <==> Fits(p, m)
  {
    if Fits(p, m) {
      forall k | k in m ensures MatchesCapability(p, k, m[k]) {
        MemberIsMatched(p, m, k);
      }
    } else if AllMatch(p, m) {
      MatchedFits(p, m);
    }
  }

  /** What the port knows about a capability. */
  function KnownOf(known: Known, k: string): Option<Value> {
    if k == "browserName" && known.browserName.Some? then Some(String(known.browserName.value))
    else if k == "browserVersion" && known.browserVersion.Some? then Some(String(known.browserVersion.value))
    else if k == "platformName" && known.platformName.Some? then Some(String(known.platformName.value))
    else if k == "acceptInsecureCerts" && known.acceptInsecureCerts.Some? then
      Some(Boolean(known.acceptInsecureCerts.value))
    else if k == "setWindowRect" && known.setWindowRect.Some? then Some(Boolean(known.setWindowRect.value))
    else None
  }

  function Lookup(m: Members, k: string): Option<Value> { if k in m then Some(m[k]) else None }

  lemma DefaultsAreKnown(known: Known, k: string)
    ensures Lookup(Defaults(known), k) == KnownOf(known, k)
  {
  }

  /** Each capability matched is as asked for, or as the port knows it. */
  lemma MatchedHolds(p: Platform, m: Members, k: string)
    requires Matched(p, m).Some?
    ensures Lookup(Matched(p, m).value, k) == if k in m then Some(m[k]) else KnownOf(p.known, k)
  {
    DefaultsAreKnown(p.known, k);
  }

  // ----- validating -----

  predicate IsName(k: string) { k == "browserName" || k == "browserVersion" || k == "platformName" }

  const CHECKED: set<string> :=
    {"browserName", "browserVersion", "platformName", "acceptInsecureCerts", "pageLoadStrategy", "proxy", "timeouts",
     "unhandledPromptBehavior"}

  /** The duration is a whole number of milliseconds within what scripts can count to. */
  ghost predicate IsDuration(v: Value) { exists n :: Counts(v, n) }

  predicate Counts(v: Value, n: nat) { n <= 9007199254740991 && v == Number(n as real) }

  ghost predicate AreDurations(m: Members) {
    forall k :: k in m && k != "sessionId" ==> k in {"script", "pageLoad", "implicit"} && IsDuration(m[k])
  }

  /** Every member that is not null is one of the standard ones, with a value of its kind, or one the port
      has a colon in its name for and finds valid. */
  ghost predicate Proper(p: Platform, caps: Members) {
    forall k :: k in caps && !caps[k].Null? ==>
      && (IsName(k) ==> caps[k].String?)
      && (k == "acceptInsecureCerts" ==> caps[k].Boolean?)
      && (k == "pageLoadStrategy" ==> caps[k] in {String("none"), String("normal"), String("eager")})
      && (k == "unhandledPromptBehavior" ==> IsBehavior(caps[k]))
      && (k == "timeouts" ==> caps[k].Object? && AreDurations(caps[k].members))
      && (k !in CHECKED ==> ':' in k && p.validates(k, caps[k]))
  }

  predicate IsBehavior(v: Value) {
    v in {String("dismiss"), String("accept"), String("dismiss and notify"), String("accept and notify"),
          String("ignore")}
  }

  lemma DurationsAreTimeouts(v: Value)
    ensures IsTimeout(v) <==> IsDuration(v)
  {
    if IsTimeout(v) {
      assert Counts(v, v.number.Floor);
    }
  }

  lemma TimeoutsAreDurations(m: Members)
    ensures IsTimeouts(m) <==> AreDurations(m)
  {
    forall k | k in m ensures IsTimeout(m[k]) <==> IsDuration(m[k]) {
      DurationsAreTimeouts(m[k]);
    }
  }

  /** Capabilities are invalid exactly if one of them is improper. */
  lemma ValidExactly(p: Platform, caps: Members)
    ensures AllValid(p, caps) <==> Proper(p, caps)
  {
    if "timeouts" in caps && caps["timeouts"].Object? {
      TimeoutsAreDurations(caps["timeouts"].members);
    }
  }

  // ----- whole requests -----

  /** What a set of capabilities asks for: its members other than nulls and the proxy. */
  predicate Asks(caps: Members, k: string) { k in caps && !caps[k].Null? && k != "proxy" }

  lemma KeptIsAsked(caps: Members, k: string)
    ensures Lookup(Kept(caps), k) == if Asks(caps, k) then Some(caps[k]) else None
  {
  }

  function AlwaysMatch(request: Members): Value {
    if "alwaysMatch" in request then request["alwaysMatch"] else Object(map[])
  }

  function FirstMatch(request: Members): Value {
    if "firstMatch" in request then request["firstMatch"] else Array([Object(map[])])
  }

  /** Nothing is asked for twice. */
  ghost predicate Apart(a: Members, b: Members) { forall k :: !(Asks(a, k) && Asks(b, k)) }

  ghost predicate WellAsked(p: Platform, parameters: Members) {
    && "capabilities" in parameters && parameters["capabilities"].Object?
    && var request := parameters["capabilities"].members;
    && AlwaysMatch(request).Object? && Proper(p, AlwaysMatch(request).members)
    && FirstMatch(request).Array?
    && forall i :: 0 <= i < |FirstMatch(request).items| ==>
        && FirstMatch(request).items[i].Object?
        && Proper(p, FirstMatch(request).items[i].members)
        && Apart(AlwaysMatch(request).members, FirstMatch(request).items[i].members)
  }

  /** What alwaysMatch and an entry of firstMatch ask for together. */
  function Together(a: Members, b: Members): (m: Members)
    ensures forall k :: Apart(a, b) ==>
      Lookup(m, k) == if Asks(a, k) then Some(a[k]) else if Asks(b, k) then Some(b[k]) else None
  {
    Kept(a) + Kept(b)
  }

  lemma KeysApart(a: Members, b: Members)
    ensures Kept(b).Keys !! Kept(a).Keys <==> Apart(a, b)
  {
    if Apart(a, b) {
      forall k | k in Kept(b).Keys ensures k !in Kept(a).Keys {
        assert !(Asks(a, k) && Asks(b, k));
      }
    } else {
      var k :| Asks(a, k) && Asks(b, k);
      assert k in Kept(b).Keys && k in Kept(a).Keys;
    }
  }

  lemma WellAskedIsGood(p: Platform, parameters: Members)
    ensures WellAsked(p, parameters) <==> GoodRequest(p, parameters)
  {
    if "capabilities" in parameters && parameters["capabilities"].Object? {
      var request := parameters["capabilities"].members;
      NothingIsValid(p);
      if AlwaysMatch(request).Object? {
        var required := AlwaysMatch(request).members;
        ValidExactly(p, required);
        if FirstMatch(request).Array? {
          forall i | 0 <= i < |FirstMatch(request).items| && FirstMatch(request).items[i].Object?
            ensures AllValid(p, FirstMatch(request).items[i].members) <==>
              Proper(p, FirstMatch(request).items[i].members)
            ensures Kept(FirstMatch(request).items[i].members).Keys !! Kept(required).Keys <==>
              Apart(required, FirstMatch(request).items[i].members)
          {
            ValidExactly(p, FirstMatch(request).items[i].members);
            KeysApart(required, FirstMatch(request).items[i].members);
          }
        }
      }
    }
  }

  lemma NothingIsValid(p: Platform)
    ensures AllValid(p, map[]) && Kept(map[]) == map[]
  {
  }

  lemma TogetherAreTexts(p: Platform, a: Members, b: Members)
    requires Proper(p, a) && Proper(p, b)
    ensures TextsAreTexts(Together(a, b))
  {
    assert IsName("browserName") && IsName("browserVersion") && IsName("platformName");
  }

  lemma {:induction false} SomeCandidate(p: Platform, required: Members, entries: seq<Members>)
    ensures Candidates(p, required, entries) == [] <==>
      forall i :: 0 <= i < |entries| ==> Matched(p, required + entries[i]).None?
  {
    if entries != [] {
      var last := |entries| - 1;
      SomeCandidate(p, required, entries[..last]);
      assert forall i :: 0 <= i < last ==> entries[..last][i] == entries[i];
      assert (forall i :: 0 <= i < |entries| ==> Matched(p, required + entries[i]).None?) <==>
        Matched(p, required + entries[last]).None? &&
        forall i :: 0 <= i < last ==> Matched(p, required + entries[i]).None?;
    }
  }

  /** When each error is given: an invalid argument exactly for a request that is not well asked, and no session
      exactly for one none of whose entries fits the port. */
  lemma FailsExactly(p: Platform, parameters: Members)
    ensures Process(p, parameters) == Failed(InvalidArgument) <==> !WellAsked(p, parameters)
    ensures Process(p, parameters) == Failed(SessionNotCreated) <==>
      WellAsked(p, parameters) &&
      var request := parameters["capabilities"].members;
      forall i :: 0 <= i < |FirstMatch(request).items| ==>
        !Fits(p, Together(AlwaysMatch(request).members, FirstMatch(request).items[i].members))
    ensures Process(p, parameters) != Failed(UnknownError)
  {
    WellAskedIsGood(p, parameters);
    if WellAsked(p, parameters) {
      var request := parameters["capabilities"].members;
      var required, entries := AlwaysMatch(request).members, FirstMatch(request).items;
      NothingIsValid(p);
      SomeCandidate(p, Kept(required), KeptEntries(entries));
      forall i | 0 <= i < |entries|
        ensures Fits(p, Together(required, entries[i].members)) <==>
          Matched(p, Kept(required) + KeptEntries(entries)[i]).Some?
      {
        TogetherAreTexts(p, required, entries[i].members);
        MatchedExactly(p, Together(required, entries[i].members));
      }
    }
  }
}
