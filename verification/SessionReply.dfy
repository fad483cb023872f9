/** What a client is told about the session it got: the capabilities as parsed, and as reported back. */
module SessionReply {
  import opened Wrappers
  import opened Json
  import opened Capabilities
  import CapabilityRules
  import opened NewSession

  /** In milliseconds. */
  datatype Timeouts = Timeouts(script: Option<nat>, pageLoad: Option<nat>, implicit: Option<nat>)

  datatype PageLoadStrategy = NoStrategy | Normal | Eager

  datatype PromptBehavior = Dismiss | Accept | DismissAndNotify | AcceptAndNotify | Ignore

  datatype Parsed = Parsed(
    browserName: Option<string>,
    browserVersion: Option<string>,
    platformName: Option<string>,
    acceptInsecureCerts: Option<bool>,
    setWindowRect: Option<bool>,
    timeouts: Option<Timeouts>,
    pageLoadStrategy: Option<PageLoadStrategy>,
    unhandledPromptBehavior: Option<PromptBehavior>)

  // ----- parsing -----

  function GetBoolean(m: Members, k: string): Option<bool> {
    if k in m && m[k].Boolean? then Some(m[k].truth) else None
  }

  function GetMilliseconds(m: Members, k: string): Option<nat> {
    if k in m && IsTimeout(m[k]) then Some(m[k].number.Floor) else None
  }

  function TimeoutsIn(m: Members): Timeouts {
    Timeouts(GetMilliseconds(m, "script"), GetMilliseconds(m, "pageLoad"), GetMilliseconds(m, "implicit"))
  }

  /** Reading timeouts member by member, in any order; one that is not a timeout spoils all. */
  method DeserializeTimeouts(m: Members) returns (r: Option<Timeouts>)
    ensures r == if IsTimeouts(m) then Some(TimeoutsIn(m)) else None
  {
    var timeouts := Timeouts(None, None, None);
    var left := m.Keys;
    while left != {}
      invariant left <= m.Keys
      invariant IsTimeouts(Restricted(m, m.Keys - left))
      invariant timeouts == TimeoutsIn(Restricted(m, m.Keys - left))
    {
      var k: string :| k in left;
      ghost var seen := m.Keys - left;
      left := left - {k};
      assert m.Keys - left == seen + {k};
      RestrictedMore(m, seen, k);
      if k != "sessionId" {
        if !IsTimeout(m[k]) {
          return None;
        }
        var ms := m[k].number.Floor;
        if k == "script" {
          timeouts := timeouts.(script := Some(ms));
        } else if k == "pageLoad" {
          timeouts := timeouts.(pageLoad := Some(ms));
        } else if k == "implicit" {
          timeouts := timeouts.(implicit := Some(ms));
        } else {
          return None;
        }
      }
    }
    assert Restricted(m, m.Keys - left) == m;
    r := Some(timeouts);
  }

  function DeserializePageLoadStrategy(s: string): Option<PageLoadStrategy> {
    if s == "none" then Some(NoStrategy) else if s == "normal" then Some(Normal) else if s == "eager" then Some(Eager)
    else None
  }

  function DeserializePromptBehavior(s: string): Option<PromptBehavior> {
    if s == "dismiss" then Some(Dismiss)
    else if s == "accept" then Some(Accept)
    else if s == "dismiss and notify" then Some(DismissAndNotify)
    else if s == "accept and notify" then Some(AcceptAndNotify)
    else if s == "ignore" then Some(Ignore)
    else None
  }

  function Parse(m: Members): Parsed {
    Parsed(
      GetString(m, "browserName"), GetString(m, "browserVersion"), GetString(m, "platformName"),
      GetBoolean(m, "acceptInsecureCerts"), GetBoolean(m, "setWindowRect"),
      if "timeouts" in m && m["timeouts"].Object? && IsTimeouts(m["timeouts"].members)
      then Some(TimeoutsIn(m["timeouts"].members)) else None,
      var s := GetString(m, "pageLoadStrategy"); if s.Some? then DeserializePageLoadStrategy(s.value) else None,
      var s := GetString(m, "unhandledPromptBehavior"); if s.Some? then DeserializePromptBehavior(s.value) else None)
  }

  // ----- reporting -----

  function Or<T>(o: Option<T>, d: T): T { if o.Some? then o.value else d }

  function PromptText(b: PromptBehavior): string {
    match b
    case Dismiss => "dismiss"
    case Accept => "accept"
    case DismissAndNotify => "dismiss and notify"
    case AcceptAndNotify => "accept and notify"
    case Ignore => "ignore"
  }

  function StrategyText(s: PageLoadStrategy): string {
    match s case NoStrategy => "none" case Normal => "normal" case Eager => "eager"
  }

  const MAX_INT: nat := 2147483647

  function ClampToInt(n: nat): nat { if n >= MAX_INT then MAX_INT else n }

  /** The timeouts of a session: those asked for over its own, as far as the machine's integers go. */
  function ReportTimeouts(t: Option<Timeouts>): Members {
    var asked := Or(t, Timeouts(None, None, None));
    map["script" := Number(ClampToInt(Or(asked.script, 30000)) as real),
        "pageLoad" := Number(ClampToInt(Or(asked.pageLoad, 300000)) as real),
        "implicit" := Number(ClampToInt(Or(asked.implicit, 0)) as real)]
  }

  function Report(c: Parsed): Members {
    map["browserName" := String(Or(c.browserName, "")),
        "browserVersion" := String(Or(c.browserVersion, "")),
        "platformName" := String(Or(c.platformName, "")),
        "acceptInsecureCerts" := Boolean(Or(c.acceptInsecureCerts, false)),
        "setWindowRect" := Boolean(Or(c.setWindowRect, true)),
        "unhandledPromptBehavior" := String(PromptText(Or(c.unhandledPromptBehavior, DismissAndNotify))),
        "pageLoadStrategy" := String(StrategyText(Or(c.pageLoadStrategy, Normal))),
        "proxy" := Object(map[]),
        "timeouts" := Object(ReportTimeouts(c.timeouts))]
  }

  // ----- what is asked for is what is told -----

  /** Capabilities that have been asked for and validated, over those the port knows. */
  ghost predicate IsCandidate(p: Platform, m: Members) {
    exists asked: Members :: AllValid(p, asked) && NoNulls(asked) && m == Defaults(p.known) + asked
  }

  ghost predicate NoNulls(m: Members) { forall k :: k in m ==> !m[k].Null? }

  /** The reply tells a capability as it was asked for or is known, and otherwise a fixed default. */
  ghost predicate Tells(told: Members, m: Members, k: string, otherwise: Value) {
    k in told && told[k] == if k in m then m[k] else otherwise
  }

  lemma PromptsReadBack(s: string)
    requires IsPromptBehavior(s)
    ensures DeserializePromptBehavior(s).Some? && PromptText(DeserializePromptBehavior(s).value) == s
  {
  }

  lemma StrategiesReadBack(s: string)
    requires IsPageLoadStrategy(s)
    ensures DeserializePageLoadStrategy(s).Some? && StrategyText(DeserializePageLoadStrategy(s).value) == s
  {
  }

  /** What the port knows is as valid as what is asked for, but for one capability that cannot be asked for. */
  lemma DefaultIsValid(p: Platform, k: string)
    requires k in Defaults(p.known)
    ensures k == "setWindowRect" || ValidCapability(p, k, Defaults(p.known)[k])
  {
  }

  lemma CandidateIsValid(p: Platform, m: Members, k: string)
    requires IsCandidate(p, m) && k in m
    ensures k == "setWindowRect" || ValidCapability(p, k, m[k])
  {
    var asked: Members :| AllValid(p, asked) && NoNulls(asked) && m == Defaults(p.known) + asked;
    if k in asked {
      assert !asked[k].Null?;
    } else {
      DefaultIsValid(p, k);
    }
  }

  /** A capability asked for or known is of its kind. */
  ghost predicate KindFits(m: Members, k: string) {
    k in m ==>
      if k == "acceptInsecureCerts" || k == "setWindowRect" then m[k].Boolean?
      else if k == "pageLoadStrategy" then m[k].String? && IsPageLoadStrategy(m[k].text)
      else if k == "unhandledPromptBehavior" then m[k].String? && IsPromptBehavior(m[k].text)
      else if k == "timeouts" then m[k].Object? && IsTimeouts(m[k].members)
      else m[k].String?
  }

  lemma CandidateKindFits(p: Platform, m: Members, k: string)
    requires IsCandidate(p, m)
    requires k == "browserName" || k == "browserVersion" || k == "platformName" || k == "acceptInsecureCerts" ||
      k == "pageLoadStrategy" || k == "unhandledPromptBehavior" || k == "timeouts"
    ensures KindFits(m, k)
  {
    if k in m {
      CandidateIsValid(p, m, k);
    }
  }

  lemma NobodyAsks(p: Platform, asked: Members, k: string)
    requires AllValid(p, asked) && NoNulls(asked) && k == "setWindowRect"
    ensures k !in asked
  {
    assert ':' !in k;
  }

  /** Nobody can ask for the window to be movable or not; it is as the port knows. */
  lemma WindowRectIsKnown(p: Platform, m: Members, k: string)
    requires IsCandidate(p, m) && k == "setWindowRect"
    ensures k in m <==> p.known.setWindowRect.Some?
    ensures k in m ==> m[k] == Boolean(p.known.setWindowRect.value)
  {
    var asked: Members :| AllValid(p, asked) && NoNulls(asked) && m == Defaults(p.known) + asked;
    NobodyAsks(p, asked, k);
    DefaultWindowRect(p.known, k);
  }

  lemma DefaultWindowRect(known: Known, k: string)
    requires k == "setWindowRect"
    ensures k in Defaults(known) <==> known.setWindowRect.Some?
    ensures k in Defaults(known) ==> Defaults(known)[k] == Boolean(known.setWindowRect.value)
  {
    CapabilityRules.DefaultsAreKnown(known, k);
  }

  lemma WindowRectIsTold(m: Members)
    requires KindFits(m, "setWindowRect")
    ensures Tells(Report(Parse(m)), m, "setWindowRect", Boolean(true))
  {
  }

  lemma ProxyIsTold(m: Members)
    ensures "proxy" in Report(Parse(m)) && Report(Parse(m))["proxy"] == Object(map[])
  {
  }

  lemma TextIsTold(m: Members, k: string)
    requires k == "browserName" || k == "browserVersion" || k == "platformName"
    requires KindFits(m, k)
    ensures Tells(Report(Parse(m)), m, k, String(""))
  {
  }

  lemma CertificatesAreTold(m: Members)
    requires KindFits(m, "acceptInsecureCerts")
    ensures Tells(Report(Parse(m)), m, "acceptInsecureCerts", Boolean(false))
  {
  }

  lemma StrategyIsTold(m: Members)
    requires KindFits(m, "pageLoadStrategy")
    ensures Tells(Report(Parse(m)), m, "pageLoadStrategy", String("normal"))
  {
    if "pageLoadStrategy" in m {
      StrategiesReadBack(m["pageLoadStrategy"].text);
    }
  }

  lemma PromptsAreTold(m: Members)
    requires KindFits(m, "unhandledPromptBehavior")
    ensures Tells(Report(Parse(m)), m, "unhandledPromptBehavior", String("dismiss and notify"))
  {
    if "unhandledPromptBehavior" in m {
      PromptsReadBack(m["unhandledPromptBehavior"].text);
    }
  }

  // ----- timeouts -----

  function AskedTimeouts(m: Members): Members {
    if "timeouts" in m && m["timeouts"].Object? then m["timeouts"].members else map[]
  }

  /** The reply tells each timeout as it was asked for, unless it is too long, and otherwise as sessions have it. */
  ghost predicate TellsTimeouts(told: Members, asked: Members) {
    && "timeouts" in told && told["timeouts"].Object?
    && AllTimeouts(told["timeouts"].members, asked)
  }

  ghost predicate AllTimeouts(told: Members, asked: Members) {
    && TellsTimeout(told, asked, "script", 30000)
    && TellsTimeout(told, asked, "pageLoad", 300000)
    && TellsTimeout(told, asked, "implicit", 0)
  }

  /** Too long a timeout is told as the longest that can be, and is the only one not told as asked for. */
  ghost predicate TellsTimeout(told: Members, asked: Members, k: string, otherwise: nat) {
    && k in told && told[k].Number?
    && (k !in asked ==> told[k] == Number(otherwise as real))
    && (k in asked && asked[k].Number? ==>
        && (asked[k].number <= MAX_INT as real <==> told[k] == asked[k])
        && (asked[k].number > MAX_INT as real ==> told[k] == Number(MAX_INT as real)))
  }

  lemma MillisecondsReadBack(asked: Members, k: string, otherwise: nat)
    requires k in asked ==> IsTimeout(asked[k])
    ensures var ms := ClampToInt(Or(GetMilliseconds(asked, k), otherwise)) as real;
      if k !in asked then ms == ClampToInt(otherwise) as real
      else ms == if asked[k].number <= MAX_INT as real then asked[k].number else MAX_INT as real
  {
  }

  lemma TimeoutsReadBack(asked: Members)
    requires IsTimeouts(asked)
    ensures AllTimeouts(ReportTimeouts(Some(TimeoutsIn(asked))), asked)
  {
    MillisecondsReadBack(asked, "script", 30000);
    MillisecondsReadBack(asked, "pageLoad", 300000);
    MillisecondsReadBack(asked, "implicit", 0);
  }

  lemma NoTimeoutsReadBack()
    ensures AllTimeouts(ReportTimeouts(None), map[])
  {
  }

  lemma TimeoutsAreParsed(m: Members)
    requires KindFits(m, "timeouts")
    ensures Report(Parse(m))["timeouts"] ==
      Object(ReportTimeouts(if "timeouts" in m then Some(TimeoutsIn(m["timeouts"].members)) else None))
  {
  }

  lemma TimeoutsAreTold(m: Members)
    requires KindFits(m, "timeouts")
    ensures TellsTimeouts(Report(Parse(m)), AskedTimeouts(m))
  {
    TimeoutsAreParsed(m);
    if "timeouts" in m {
      TimeoutsReadBack(m["timeouts"].members);
    } else {
      NoTimeoutsReadBack();
    }
  }

  /** One millisecond too long. */
  lemma LongTimeoutIsCut()
    ensures var m := map["timeouts" := Object(map["script" := Number(2147483648.0)])];
      && KindFits(m, "timeouts")
      && TellsTimeouts(Report(Parse(m)), AskedTimeouts(m))
      && Report(Parse(m))["timeouts"].members["script"] == Number(2147483647.0)
  {
    var m := map["timeouts" := Object(map["script" := Number(2147483648.0)])];
    TimeoutsAreTold(m);
    assert AskedTimeouts(m)["script"] == Number(2147483648.0);
  }

  // ----- from request to reply -----

  lemma KeptAreValid(p: Platform, m: Members)
    requires AllValid(p, m)
    ensures AllValid(p, Kept(m)) && NoNulls(Kept(m))
  {
  }

  lemma JoinedAreValid(p: Platform, a: Members, b: Members)
    requires AllValid(p, a) && NoNulls(a) && AllValid(p, b) && NoNulls(b)
    ensures AllValid(p, a + b) && NoNulls(a + b)
  {
  }

  lemma RequiredIsValid(p: Platform, request: Members)
    requires Required(p, request).Some?
    ensures AllValid(p, Required(p, request).value) && NoNulls(Required(p, request).value)
  {
    if "alwaysMatch" in request {
      KeptAreValid(p, request["alwaysMatch"].members);
    }
  }

  lemma ListedAreCandidates(p: Platform, required: Members, values: seq<Value>, a: nat)
    requires forall i :: 0 <= i < |values| ==> values[i].Object? && GoodEntry(p, required, values[i])
    requires AllValid(p, required) && NoNulls(required) && a < |Candidates(p, required, KeptEntries(values))|
    ensures IsCandidate(p, Candidates(p, required, KeptEntries(values))[a])
  {
    var entries := KeptEntries(values);
    CandidatesAreMet(p, required, entries);
    var k := Met(p, required, entries)[a];
    KeptAreValid(p, values[k].members);
    JoinedAreValid(p, required, entries[k]);
    assert Candidates(p, required, entries)[a] == Defaults(p.known) + (required + entries[k]);
  }

  /** The reply tells what was asked for and what is known, but for the browser's own name and version. */
  ghost predicate TellsCandidate(told: Members, m: Members) {
    && Tells(told, m, "platformName", String(""))
    && Tells(told, m, "acceptInsecureCerts", Boolean(false))
    && Tells(told, m, "setWindowRect", Boolean(true))
    && Tells(told, m, "pageLoadStrategy", String("normal"))
    && Tells(told, m, "unhandledPromptBehavior", String("dismiss and notify"))
    && TellsTimeouts(told, AskedTimeouts(m))
    && "proxy" in told && told["proxy"] == Object(map[])
  }

  ghost predicate TellsBrowser(told: Members, name: string, version: string) {
    && "browserName" in told && told["browserName"] == String(name)
    && "browserVersion" in told && told["browserVersion"] == String(version)
  }

  ghost predicate KindsFit(m: Members) {
    && KindFits(m, "platformName") && KindFits(m, "acceptInsecureCerts") && KindFits(m, "pageLoadStrategy")
    && KindFits(m, "unhandledPromptBehavior") && KindFits(m, "timeouts") && KindFits(m, "setWindowRect")
  }

  lemma CandidateKindsFit(p: Platform, m: Members)
    requires IsCandidate(p, m)
    ensures KindsFit(m)
  {
    CandidateKindFits(p, m, "platformName");
    CandidateKindFits(p, m, "acceptInsecureCerts");
    CandidateKindFits(p, m, "pageLoadStrategy");
    CandidateKindFits(p, m, "unhandledPromptBehavior");
    CandidateKindFits(p, m, "timeouts");
    WindowRectIsKnown(p, m, "setWindowRect");
  }

  lemma FittingIsTold(m: Members)
    requires KindsFit(m)
    ensures TellsCandidate(Report(Parse(m)), m)
  {
    TextIsTold(m, "platformName");
    CertificatesAreTold(m);
    WindowRectIsTold(m);
    StrategyIsTold(m);
    PromptsAreTold(m);
    TimeoutsAreTold(m);
    ProxyIsTold(m);
  }

  /** The two members laid over are none of those told as asked for. */
  lemma NamedIsTheSame(told: Members, m: Members, name: string, version: string)
    ensures KindsFit(m) ==> KindsFit(Named(m, name, version))
    ensures TellsCandidate(told, Named(m, name, version)) ==> TellsCandidate(told, m)
  {
    var names := {"platformName", "acceptInsecureCerts", "setWindowRect", "pageLoadStrategy",
      "unhandledPromptBehavior", "timeouts"};
    assert "browserName" !in names && "browserVersion" !in names;
  }

  lemma NamedIsTold(p: Platform, m: Members, name: string, version: string)
    requires IsCandidate(p, m)
    ensures TellsBrowser(Report(Parse(Named(m, name, version))), name, version)
    ensures TellsCandidate(Report(Parse(Named(m, name, version))), m)
  {
    var named := Named(m, name, version);
    assert TellsBrowser(Report(Parse(named)), name, version) by {
      TextIsTold(named, "browserName");
      TextIsTold(named, "browserVersion");
    }
    CandidateKindsFit(p, m);
    NamedIsTheSame(Report(Parse(named)), m, name, version);
    FittingIsTold(named);
  }

  /** In every run, the capabilities of a created session are valid ones over those the port knows, with the
      browser's own name and version. */
  lemma CreatedIsCandidate(p: Platform, es: seq<Event>, s: Service, id: nat) returns (k: nat)
    requires NewSession.Runs(p, IDLE, es, s) && id < |s.requests|
    requires s.requests[id].replies != [] && s.requests[id].replies[0].Created?
    ensures Taken(p, s.requests[id].list, s.requests[id].heard, k) && IsCandidate(p, s.requests[id].list[k])
    ensures var browser := s.requests[id].heard[2 * k + 1];
      s.requests[id].replies[0].capabilities == Named(s.requests[id].list[k], browser.name, browser.version)
  {
    var r := s.requests[id];
    RunKeeps(p, IDLE, es, s);
    assert Consistent(p, r, Of(s.active, id));
    k := CreatedIsEarliest(p, r.list, r.heard);
    var request := r.parameters["capabilities"].members;
    RequiredIsValid(p, request);
    ListedAreCandidates(p, Required(p, request).value, Entries(request).value, k);
  }

  /** What a client is told of a session whose browser is the one asked for. */
  ghost predicate TellsAll(p: Platform, told: Members, m: Members, name: string, version: string) {
    && TellsCandidate(told, m) && TellsBrowser(told, name, version)
    && told["setWindowRect"] == Boolean(Or(p.known.setWindowRect, true))
    && ("browserName" in m ==> told["browserName"] == m["browserName"])
    && ("browserVersion" in m ==> m["browserVersion"].String? && p.compareVersions(m["browserVersion"].text, version))
  }

  lemma MatchingIsTold(p: Platform, m: Members, name: string, version: string)
    requires IsCandidate(p, m) && MatchesBrowser(p, m, name, version)
    ensures TellsAll(p, Report(Parse(Named(m, name, version))), m, name, version)
  {
    NamedIsTold(p, m, name, version);
    WindowRectIsKnown(p, m, "setWindowRect");
    CandidateKindFits(p, m, "browserName");
    CandidateKindFits(p, m, "browserVersion");
  }

  /** From request to reply: the client is told of its session what was asked for and what is known, and the
      browser's own name and version; the name is the one asked for or known, if any, and the version will do. */
  lemma CreatedIsTold(p: Platform, es: seq<Event>, s: Service, id: nat) returns (k: nat)
    requires NewSession.Runs(p, IDLE, es, s) && id < |s.requests|
    requires s.requests[id].replies != [] && s.requests[id].replies[0].Created?
    ensures Taken(p, s.requests[id].list, s.requests[id].heard, k)
    ensures var browser := s.requests[id].heard[2 * k + 1];
      TellsAll(p, Report(Parse(s.requests[id].replies[0].capabilities)), s.requests[id].list[k],
        browser.name, browser.version)
  {
    k := CreatedIsCandidate(p, es, s, id);
    var browser := s.requests[id].heard[2 * k + 1];
    MatchingIsTold(p, s.requests[id].list[k], browser.name, browser.version);
  }
}
