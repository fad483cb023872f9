/** How the server negotiates new sessions with browsers, one list of capabilities for each request. */
module NewSession {
  import opened Wrappers
  import opened Json
  import opened Capabilities
  import opened CapabilityRules

  datatype Reply = Created(capabilities: Members) | Refused(code: ErrorCode)

  /** What a negotiation waits for. */
  datatype Phase = Connecting | Starting | CreatingContext

  /** A negotiation holds the host it talks to and the capabilities still to try, the next one last. */
  datatype Negotiation = Negotiation(phase: Phase, host: Members, rest: seq<Members>)

  /** A browser that starts tells its name and its version. */
  datatype Answer =
    | Connected(failed: bool)
    | Started(name: string, version: string)
    | StartFailed
    | ContextCreated(failed: bool)

  datatype Outcome = Goes(negotiation: Negotiation) | Ends(reply: Reply)

  function ConnectToBrowser(capabilitiesList: seq<Members>): Outcome {
    if capabilitiesList == [] then Ends(Refused(SessionNotCreated))
    else
      var last := |capabilitiesList| - 1;
      Goes(Negotiation(Connecting, capabilitiesList[last], capabilitiesList[..last]))
  }

  predicate Awaits(phase: Phase, a: Answer) {
    match phase
    case Connecting => a.Connected?
    case Starting => a.Started? || a.StartFailed?
    case CreatingContext => a.ContextCreated?
  }

  /** Whether a browser is the one asked for, or known. */
  predicate MatchesBrowser(p: Platform, m: Members, name: string, version: string) {
    && (GetString(m, "browserName").Some? ==> GetString(m, "browserName").value == name)
    && (GetString(m, "browserVersion").Some? ==> p.compareVersions(GetString(m, "browserVersion").value, version))
  }

  /** A started browser's own name and version take the place of those asked for. */
  function Named(m: Members, name: string, version: string): Members {
    m["browserName" := String(name)]["browserVersion" := String(version)]
  }

  /** What an answer makes of the negotiation that waits for it. */
  function Hear(p: Platform, n: Negotiation, a: Answer): Outcome
    requires Awaits(n.phase, a)
  {
    match a
    case Connected(failed) =>
      if failed then Ends(Refused(SessionNotCreated)) else Goes(n.(phase := Starting))
    case StartFailed => Ends(Refused(UnknownError))
    case Started(name, version) =>
      if !MatchesBrowser(p, n.host, name, version) then ConnectToBrowser(n.rest)
      else Goes(Negotiation(CreatingContext, Named(n.host, name, version), n.rest))
    case ContextCreated(failed) =>
      if failed then Ends(Refused(SessionNotCreated)) else Ends(Created(n.host))
  }

  function Reversed(list: seq<Members>): seq<Members> {
    if list == [] then [] else Reversed(list[1..]) + [list[0]]
  }

  // ----- the server -----

  /** A request so far: what it asked for, what was heard about it, and what was replied. */
  datatype Request = Request(parameters: Members, list: seq<Members>, heard: seq<Answer>, replies: seq<Reply>)

  datatype Service = Service(session: Option<Members>, active: map<nat, Negotiation>, requests: seq<Request>)

  const IDLE := Service(None, map[], [])

  datatype Event = NewSessionRequest(parameters: Members) | Answered(id: nat, answer: Answer) | SessionDeleted

  ghost function Begin(p: Platform, s: Service, parameters: Members): Service {
    if s.session.Some? then
      s.(requests := s.requests + [Request(parameters, [], [], [Refused(SessionNotCreated)])])
    else
      match Process(p, parameters)
      case Failed(code) => s.(requests := s.requests + [Request(parameters, [], [], [Refused(code)])])
      case Matches(list) =>
        var begun := s.(requests := s.requests + [Request(parameters, list, [], [])]);
        Settle(begun, |s.requests|, ConnectToBrowser(Reversed(list)))
  }

  /** The negotiation of a request goes on, or ends with a reply. */
  ghost function Settle(s: Service, id: nat, outcome: Outcome): Service
    requires id < |s.requests|
  {
    match outcome
    case Goes(n) => s.(active := s.active[id := n])
    case Ends(reply) =>
      var r := s.requests[id];
      s.(session := if reply.Created? then Some(reply.capabilities) else s.session,
         active := s.active - {id},
         requests := s.requests[id := r.(replies := r.replies + [reply])])
  }

  ghost function Listen(p: Platform, s: Service, id: nat, a: Answer): Service
    requires id < |s.requests| && id in s.active && Awaits(s.active[id].phase, a)
  {
    var r := s.requests[id];
    Settle(s.(requests := s.requests[id := r.(heard := r.heard + [a])]), id, Hear(p, s.active[id], a))
  }

  ghost predicate Enabled(s: Service, e: Event) {
    e.Answered? ==> e.id < |s.requests| && e.id in s.active && Awaits(s.active[e.id].phase, e.answer)
  }

  ghost function Apply(p: Platform, s: Service, e: Event): Service
    requires Enabled(s, e)
  {
    match e
    case NewSessionRequest(parameters) => Begin(p, s, parameters)
    case Answered(id, a) => Listen(p, s, id, a)
    case SessionDeleted => s.(session := None)
  }

  ghost predicate Runs(p: Platform, s: Service, es: seq<Event>, t: Service)
    decreases |es|
  {
    if es == [] then s == t else Enabled(s, es[0]) && Runs(p, Apply(p, s, es[0]), es[1..], t)
  }

  // ----- one negotiation, told from its list and the answers -----

  /** The capabilities are tried from the first to the last; each is connected to, then started, and the
      first that is not turned down gets a browsing context. */
  ghost function Negotiate(p: Platform, list: seq<Members>, heard: seq<Answer>): Outcome
    decreases |list|
  {
    if list == [] then Ends(Refused(SessionNotCreated))
    else if heard == [] then Goes(Negotiation(Connecting, list[0], Reversed(list[1..])))
    else if heard[0] != Connected(false) then Ends(Refused(SessionNotCreated))
    else if |heard| == 1 then Goes(Negotiation(Starting, list[0], Reversed(list[1..])))
    else if !heard[1].Started? then Ends(Refused(UnknownError))
    else if !MatchesBrowser(p, list[0], heard[1].name, heard[1].version) then Negotiate(p, list[1..], heard[2..])
    else
      var host := Named(list[0], heard[1].name, heard[1].version);
      if |heard| == 2 then Goes(Negotiation(CreatingContext, host, Reversed(list[1..])))
      else if heard[2] != ContextCreated(false) then Ends(Refused(SessionNotCreated))
      else Ends(Created(host))
  }

  /** The answer turns the capabilities down: the browser has started and is not the one asked for. */
  predicate TurnsDown(p: Platform, m: Members, a: Answer) { a.Started? && !MatchesBrowser(p, m, a.name, a.version) }

  lemma {:induction false} NegotiateHears(p: Platform, list: seq<Members>, heard: seq<Answer>, a: Answer)
    requires Negotiate(p, list, heard).Goes? && Awaits(Negotiate(p, list, heard).negotiation.phase, a)
    ensures Negotiate(p, list, heard + [a]) == Hear(p, Negotiate(p, list, heard).negotiation, a)
    decreases |list|
  {
    if |heard| > 1 && TurnsDown(p, list[0], heard[1]) {
      NegotiateHears(p, list[1..], heard[2..], a);
      assert (heard + [a])[2..] == heard[2..] + [a];
    } else if |heard| == 1 && TurnsDown(p, list[0], a) {
      assert (heard + [a])[2..] == [];
    }
  }

  /** The first k were turned down: each was connected to, and its browser did not match. */
  ghost predicate TurnedDown(p: Platform, list: seq<Members>, heard: seq<Answer>, k: nat) {
    k <= |list| && 2 * k <= |heard| &&
    forall j :: 0 <= j < k ==> heard[2 * j] == Connected(false) && TurnsDown(p, list[j], heard[2 * j + 1])
  }

  lemma TurnedDownMore(p: Platform, list: seq<Members>, heard: seq<Answer>, k: nat)
    requires list != [] && |heard| >= 2 && heard[0] == Connected(false) && TurnsDown(p, list[0], heard[1])
    requires TurnedDown(p, list[1..], heard[2..], k)
    ensures TurnedDown(p, list, heard, k + 1)
  {
    forall j | 0 <= j < k + 1
      ensures heard[2 * j] == Connected(false) && TurnsDown(p, list[j], heard[2 * j + 1])
    {
      if j > 0 {
        assert heard[2..][2 * (j - 1)] == heard[2 * j] && heard[2..][2 * (j - 1) + 1] == heard[2 * j + 1];
        assert list[1..][j - 1] == list[j];
      }
    }
  }

  /** The k-th entry got a browser that is the one asked for, and a browsing context in it. */
  ghost predicate Taken(p: Platform, list: seq<Members>, heard: seq<Answer>, k: nat) {
    && k < |list| && |heard| > 2 * k + 2
    && heard[2 * k] == Connected(false) && heard[2 * k + 1].Started?
    && MatchesBrowser(p, list[k], heard[2 * k + 1].name, heard[2 * k + 1].version)
    && heard[2 * k + 2] == ContextCreated(false)
  }

  /** A created session has the capabilities of the earliest entry that was not turned down, with its browser's
      name and version: every earlier one was tried, in order, and did not match. */
  lemma {:induction false} CreatedIsEarliest(p: Platform, list: seq<Members>, heard: seq<Answer>) returns (k: nat)
    requires Negotiate(p, list, heard).Ends? && Negotiate(p, list, heard).reply.Created?
    ensures TurnedDown(p, list, heard, k) && Taken(p, list, heard, k)
    ensures Negotiate(p, list, heard).reply.capabilities ==
      Named(list[k], heard[2 * k + 1].name, heard[2 * k + 1].version)
    decreases |list|
  {
    if TurnsDown(p, list[0], heard[1]) {
      k := CreatedIsEarliest(p, list[1..], heard[2..]);
      TurnedDownMore(p, list, heard, k);
      assert heard[2..][2 * k] == heard[2 * k + 2] && heard[2..][2 * k + 1] == heard[2 * k + 3];
      assert heard[2..][2 * k + 2] == heard[2 * k + 4];
      k := k + 1;
    } else {
      k := 0;
    }
  }

  /** A negotiation still going on has heard at most two answers for each entry: it ends by the next one. */
  lemma {:induction false} NegotiationEnds(p: Platform, list: seq<Members>, heard: seq<Answer>)
    requires Negotiate(p, list, heard).Goes?
    ensures |heard| <= 2 * |list|
    decreases |list|
  {
    if |heard| > 1 && TurnsDown(p, list[0], heard[1]) {
      NegotiationEnds(p, list[1..], heard[2..]);
    }
  }

  // ----- every run -----

  ghost predicate Consistent(p: Platform, r: Request, n: Option<Negotiation>) {
    if r.list == [] then
      && n.None? && r.heard == [] && |r.replies| == 1 && r.replies[0].Refused?
      && (r.replies[0].code == SessionNotCreated || Process(p, r.parameters) == Failed(r.replies[0].code))
    else
      Process(p, r.parameters) == Matches(r.list) &&
      match Negotiate(p, r.list, r.heard)
      case Goes(m) => n == Some(m) && r.replies == []
      case Ends(reply) => n.None? && r.replies == [reply]
  }

  function Of(active: map<nat, Negotiation>, id: nat): Option<Negotiation> {
    if id in active then Some(active[id]) else None
  }

  ghost predicate Inv(p: Platform, s: Service) {
    && (forall id :: id in s.active ==> id < |s.requests|)
    && (forall id :: 0 <= id < |s.requests| ==> Consistent(p, s.requests[id], Of(s.active, id)))
  }

  lemma BeginKeeps(p: Platform, s: Service, parameters: Members)
    requires Inv(p, s)
    ensures Inv(p, Begin(p, s, parameters))
  {
    var t := Begin(p, s, parameters);
    forall id | 0 <= id < |t.requests| ensures Consistent(p, t.requests[id], Of(t.active, id)) {
      if id < |s.requests| {
        assert Consistent(p, s.requests[id], Of(s.active, id));
      }
    }
  }

  lemma ListenKeeps(p: Platform, s: Service, id: nat, a: Answer)
    requires Inv(p, s) && id < |s.requests| && id in s.active && Awaits(s.active[id].phase, a)
    ensures Inv(p, Listen(p, s, id, a))
  {
    var t := Listen(p, s, id, a);
    var r := s.requests[id];
    assert Consistent(p, r, Of(s.active, id));
    NegotiateHears(p, r.list, r.heard, a);
    forall k | 0 <= k < |t.requests| ensures Consistent(p, t.requests[k], Of(t.active, k)) {
      if k != id {
        assert Consistent(p, s.requests[k], Of(s.active, k));
      }
    }
  }

  lemma StepKeeps(p: Platform, s: Service, e: Event)
    requires Inv(p, s) && Enabled(s, e)
    ensures Inv(p, Apply(p, s, e))
  {
    match e
    case NewSessionRequest(parameters) => BeginKeeps(p, s, parameters);
    case Answered(id, a) => ListenKeeps(p, s, id, a);
    case SessionDeleted =>
  }

  lemma {:induction false} RunKeeps(p: Platform, s: Service, es: seq<Event>, t: Service)
    requires Inv(p, s) && Runs(p, s, es, t)
    ensures Inv(p, t)
    decreases |es|
  {
    if es != [] {
      StepKeeps(p, s, es[0]);
      RunKeeps(p, Apply(p, s, es[0]), es[1..], t);
    }
  }

  /** In every run, however requests and answers interleave: a request is replied to once, when and only when
      its negotiation is over, and with what its own list and its own answers alone lead to. */
  lemma RepliedOnce(p: Platform, es: seq<Event>, s: Service, id: nat)
    requires Runs(p, IDLE, es, s) && id < |s.requests|
    ensures |s.requests[id].replies| == if id in s.active then 0 else 1
    ensures var r := s.requests[id]; r.list != [] ==>
      match Negotiate(p, r.list, r.heard)
      case Goes(n) => id in s.active && s.active[id] == n
      case Ends(reply) => r.replies == [reply]
    ensures |s.requests[id].heard| == 2 * |s.requests[id].list| + 1 ==> id !in s.active
  {
    RunKeeps(p, IDLE, es, s);
    var r := s.requests[id];
    assert Consistent(p, r, Of(s.active, id));
    if r.list != [] && Negotiate(p, r.list, r.heard).Goes? {
      NegotiationEnds(p, r.list, r.heard);
    }
  }

  /** The list holds the entries that can be met, in their order, each joined with what is required and laid over
      what the port knows. */
  ghost predicate ListsEntries(p: Platform, list: seq<Members>, required: Members, entries: seq<Members>) {
    var ks := Met(p, required, entries);
    && |list| == |ks| && Increasing(ks)
    && (forall a :: 0 <= a < |ks| ==>
        ks[a] < |entries| && JoinedOver(list[a], Defaults(p.known), required, entries[ks[a]]))
    && (forall i :: 0 <= i < |entries| ==> (i in ks <==> AllMatch(p, required + entries[i])))
  }

  /** Every created session, from the request to the reply. Its capabilities are those of one entry that could be
      met: what alwaysMatch and that entry of firstMatch ask for, as asked, no capability being asked for by
      both, and otherwise what the port knows; but the name and the version are the browser's own. The browser is
      the one asked for, and of the entries before that could be met, each was tried, in order, and turned down. */
  lemma CreatedSessionMeans(p: Platform, es: seq<Event>, s: Service, id: nat) returns (k: nat)
    requires Runs(p, IDLE, es, s) && id < |s.requests|
    requires s.requests[id].replies != [] && s.requests[id].replies[0].Created?
    ensures GoodRequest(p, s.requests[id].parameters)
    ensures TurnedDown(p, s.requests[id].list, s.requests[id].heard, k)
    ensures Taken(p, s.requests[id].list, s.requests[id].heard, k)
    ensures var browser := s.requests[id].heard[2 * k + 1];
      s.requests[id].replies == [Created(Named(s.requests[id].list[k], browser.name, browser.version))]
    ensures var request := s.requests[id].parameters["capabilities"].members;
      ListsEntries(p, s.requests[id].list, Required(p, request).value, KeptEntries(Entries(request).value))
  {
    var r := s.requests[id];
    RunKeeps(p, IDLE, es, s);
    assert Consistent(p, r, Of(s.active, id));
    k := CreatedIsEarliest(p, r.list, r.heard);
    ProcessedMeans(p, r.parameters);
  }

  // ----- which error is given -----

  ghost predicate Blamed(r: Request) { StartFailed in r.heard <==> r.replies == [Refused(UnknownError)] }

  ghost predicate AllBlamed(s: Service) { forall id :: 0 <= id < |s.requests| ==> Blamed(s.requests[id]) }

  lemma BeginBlames(p: Platform, s: Service, parameters: Members)
    requires AllBlamed(s)
    ensures AllBlamed(Begin(p, s, parameters))
  {
    FailsExactly(p, parameters);
    var t := Begin(p, s, parameters);
    forall id | 0 <= id < |t.requests| ensures Blamed(t.requests[id]) {
      assert id < |s.requests| ==> Blamed(s.requests[id]);
    }
  }

  /** The reply to a request, if its answer ends it, is its first. */
  lemma HeardReplies(p: Platform, s: Service, id: nat, a: Answer)
    requires Inv(p, s) && id < |s.requests| && id in s.active && Awaits(s.active[id].phase, a)
    ensures var outcome := Hear(p, s.active[id], a);
      Listen(p, s, id, a).requests[id].replies == if outcome.Ends? then [outcome.reply] else []
    ensures Listen(p, s, id, a).requests[id].heard == s.requests[id].heard + [a]
  {
    assert Consistent(p, s.requests[id], Of(s.active, id));
    assert s.requests[id].replies == [];
  }

  lemma ListenBlames(p: Platform, s: Service, id: nat, a: Answer)
    requires Inv(p, s) && AllBlamed(s) && id < |s.requests| && id in s.active && Awaits(s.active[id].phase, a)
    ensures AllBlamed(Listen(p, s, id, a))
  {
    var t := Listen(p, s, id, a);
    forall k | 0 <= k < |t.requests| ensures Blamed(t.requests[k]) {
      if k == id {
        OneBlamed(p, s, id, a);
      } else {
        assert Blamed(s.requests[k]);
      }
    }
  }

  lemma OneBlamed(p: Platform, s: Service, id: nat, a: Answer)
    requires Inv(p, s) && id < |s.requests| && Blamed(s.requests[id]) && id in s.active
    requires Awaits(s.active[id].phase, a)
    ensures Blamed(Listen(p, s, id, a).requests[id])
  {
    assert s.requests[id].replies == [] by { assert Consistent(p, s.requests[id], Of(s.active, id)); }
    HeardReplies(p, s, id, a);
    OnlyFailedStartBlames(p, s.active[id], a);
    HeardMore(s.requests[id].heard, a);
  }

  lemma OnlyFailedStartBlames(p: Platform, n: Negotiation, a: Answer)
    requires Awaits(n.phase, a)
    ensures Hear(p, n, a) == Ends(Refused(UnknownError)) <==> a == StartFailed
  {
  }

  lemma HeardMore(heard: seq<Answer>, a: Answer)
    ensures StartFailed in heard + [a] <==> StartFailed in heard || a == StartFailed
  {
  }

  lemma StepBlames(p: Platform, s: Service, e: Event)
    requires Inv(p, s) && AllBlamed(s) && Enabled(s, e)
    ensures AllBlamed(Apply(p, s, e))
  {
    match e
    case NewSessionRequest(parameters) => BeginBlames(p, s, parameters);
    case Answered(id, a) => ListenBlames(p, s, id, a);
    case SessionDeleted =>
  }

  lemma {:induction false} RunBlames(p: Platform, s: Service, es: seq<Event>, t: Service)
    requires Inv(p, s) && AllBlamed(s) && Runs(p, s, es, t)
    ensures AllBlamed(t)
    decreases |es|
  {
    if es != [] {
      StepKeeps(p, s, es[0]);
      StepBlames(p, s, es[0]);
      RunBlames(p, Apply(p, s, es[0]), es[1..], t);
    }
  }

  /** In every run: an unknown error is the reply exactly if a browser failed to start, an invalid argument only to
      a request that is not well asked, and such a request is never given a negotiation. */
  lemma RefusedMeans(p: Platform, es: seq<Event>, s: Service, id: nat)
    requires Runs(p, IDLE, es, s) && id < |s.requests|
    ensures s.requests[id].replies == [Refused(UnknownError)] <==> StartFailed in s.requests[id].heard
    ensures s.requests[id].replies == [Refused(InvalidArgument)] ==> !WellAsked(p, s.requests[id].parameters)
    ensures !WellAsked(p, s.requests[id].parameters) ==>
      id !in s.active && s.requests[id].heard == [] &&
      (s.requests[id].replies == [Refused(InvalidArgument)] || s.requests[id].replies == [Refused(SessionNotCreated)])
  {
    RunKeeps(p, IDLE, es, s);
    RunBlames(p, IDLE, es, s);
    assert Blamed(s.requests[id]) && Consistent(p, s.requests[id], Of(s.active, id));
    FailsExactly(p, s.requests[id].parameters);
    if s.requests[id].list != [] {
      NegotiationCodes(p, s.requests[id].list, s.requests[id].heard);
    }
  }

  lemma {:induction false} NegotiationCodes(p: Platform, list: seq<Members>, heard: seq<Answer>)
    ensures Negotiate(p, list, heard) != Ends(Refused(InvalidArgument))
    decreases |list|
  {
    if list != [] && |heard| > 1 {
      NegotiationCodes(p, list[1..], heard[2..]);
    }
  }

  /** A request is refused at once while there is a session, and otherwise exactly if it cannot be processed. */
  lemma RefusedAtOnce(p: Platform, s: Service, parameters: Members)
    ensures var t, id := Begin(p, s, parameters), |s.requests|;
      && |t.requests| == id + 1 && t.requests[..id] == s.requests && t.session == s.session
      && t.requests[id].parameters == parameters && t.requests[id].heard == []
      && (s.session.Some? ==> t.requests[id].replies == [Refused(SessionNotCreated)])
      && (s.session.None? && !WellAsked(p, parameters) ==> t.requests[id].replies == [Refused(InvalidArgument)])
      && (s.session.None? ==>
          (t.requests[id].replies == [] <==> Process(p, parameters).Matches?) &&
          (Process(p, parameters).Matches? ==>
           id in t.active && t.active[id].phase.Connecting? && t.active[id].host == Process(p, parameters).list[0]))
  {
    FailsExactly(p, parameters);
    if Process(p, parameters).Matches? {
      ReversedEnds(Process(p, parameters).list);
    }
  }

  lemma {:induction false} ReversedEnds(list: seq<Members>)
    requires list != []
    ensures |Reversed(list)| == |list| && Reversed(list)[|list| - 1] == list[0]
  {
    if |list| > 1 {
      ReversedEnds(list[1..]);
    }
  }

  /** What each answer brings about: a failed connection, a browser that does not match with no entry left, and a
      failed context are all no session; only a context made creates one. */
  lemma AnswerReplies(p: Platform, s: Service, id: nat, a: Answer)
    requires Inv(p, s) && Enabled(s, Answered(id, a))
    ensures var n, t := s.active[id], Apply(p, s, Answered(id, a));
      && (t.requests[id].replies == [Refused(SessionNotCreated)] <==>
          a == Connected(true) || a == ContextCreated(true) ||
          (a.Started? && !MatchesBrowser(p, n.host, a.name, a.version) && n.rest == []))
      && (t.requests[id].replies == [Refused(UnknownError)] <==> a == StartFailed)
      && (t.requests[id].replies == [Created(n.host)] <==> a == ContextCreated(false))
      && (a == ContextCreated(false) ==> t.session == Some(n.host))
      && (a != ContextCreated(false) ==> t.session == s.session)
      && (id in t.active <==> t.requests[id].replies == [])
  {
    HeardReplies(p, s, id, a);
  }

  // ----- overlapping requests -----

  /** The event gives the server a new session in place of one it still has. */
  ghost predicate Replaces(p: Platform, s: Service, e: Event)
    requires Enabled(s, e)
  {
    e.Answered? && s.session.Some? && Hear(p, s.active[e.id], e.answer).Ends? &&
    Hear(p, s.active[e.id], e.answer).reply.Created?
  }

  ghost predicate NoRequests(es: seq<Event>) { forall i :: 0 <= i < |es| ==> !es[i].NewSessionRequest? }

  /** Without further requests, some run from here loses a session. */
  ghost predicate CanReplace(p: Platform, s: Service) {
    exists es, t, e :: NoRequests(es) && Runs(p, s, es, t) && Enabled(t, e) && Replaces(p, t, e)
  }

  /** Some version is good enough, if one is asked for. */
  ghost predicate Admits(p: Platform, m: Members) {
    GetString(m, "browserVersion").Some? ==>
      exists version :: p.compareVersions(GetString(m, "browserVersion").value, version)
  }

  ghost predicate Hopeful(p: Platform, list: seq<Members>) { exists i :: 0 <= i < |list| && Admits(p, list[i]) }

  /** The negotiation has its browser, or some browser would do. */
  ghost predicate Winnable(p: Platform, n: Negotiation) {
    n.phase.CreatingContext? || Admits(p, n.host) || Hopeful(p, n.rest)
  }

  ghost predicate OtherWinnable(p: Platform, s: Service, i: nat) {
    exists j :: j in s.active && j != i && Winnable(p, s.active[j])
  }

  /** Two negotiations can be won, or one beside a session. */
  ghost predicate Threatened(p: Platform, s: Service) {
    exists i :: i in s.active && Winnable(p, s.active[i]) && (s.session.Some? || OtherWinnable(p, s, i))
  }

  lemma WonIsWinnable(p: Platform, n: Negotiation, a: Answer)
    requires Awaits(n.phase, a)
    ensures Hear(p, n, a).Goes? && Winnable(p, Hear(p, n, a).negotiation) ==> Winnable(p, n)
    ensures Hear(p, n, a).Ends? && Hear(p, n, a).reply.Created? ==> Winnable(p, n)
  {
    if a.Started? && !MatchesBrowser(p, n.host, a.name, a.version) && n.rest != [] {
      var last := |n.rest| - 1;
      assert Admits(p, n.rest[last]) ==> Hopeful(p, n.rest);
      if Hopeful(p, n.rest[..last]) {
        var i :| 0 <= i < last && Admits(p, n.rest[..last][i]);
        assert Admits(p, n.rest[i]);
      }
    }
  }

  lemma UnthreatenedKept(p: Platform, s: Service, e: Event)
    requires !Threatened(p, s) && Enabled(s, e) && !e.NewSessionRequest?
    ensures !Threatened(p, Apply(p, s, e)) && !Replaces(p, s, e)
  {
    var t := Apply(p, s, e);
    if e.Answered? {
      WonIsWinnable(p, s.active[e.id], e.answer);
    }
    assert forall i :: i in t.active && Winnable(p, t.active[i]) ==> i in s.active && Winnable(p, s.active[i]);
    forall i | i in t.active && Winnable(p, t.active[i]) ensures t.session.None? && !OtherWinnable(p, t, i) {
      assert s.session.None? && !OtherWinnable(p, s, i);
      forall j | j in t.active && j != i ensures !Winnable(p, t.active[j]) {
        assert j in s.active ==> !Winnable(p, s.active[j]);
      }
    }
  }

  lemma {:induction false} UnthreatenedRuns(p: Platform, s: Service, es: seq<Event>, t: Service)
    requires !Threatened(p, s) && NoRequests(es) && Runs(p, s, es, t)
    ensures !Threatened(p, t)
    decreases |es|
  {
    if es != [] {
      UnthreatenedKept(p, s, es[0]);
      UnthreatenedRuns(p, Apply(p, s, es[0]), es[1..], t);
    }
  }

  lemma {:induction false} RunsAppend(p: Platform, s: Service, a: seq<Event>, t: Service, b: seq<Event>, u: Service)
    requires Runs(p, s, a, t) && Runs(p, t, b, u)
    ensures Runs(p, s, a + b, u)
    decreases |a|
  {
    if a == [] {
      assert a + b == b;
    } else {
      assert (a + b)[1..] == a[1..] + b;
      RunsAppend(p, Apply(p, s, a[0]), a[1..], t, b, u);
    }
  }

  lemma RunsOne(p: Platform, s: Service, e: Event)
    requires Enabled(s, e)
    ensures Runs(p, s, [e], Apply(p, s, e))
  {
    assert [e][1..] == [];
    assert Runs(p, Apply(p, s, e), [], Apply(p, s, e));
  }

  /** How many answers a negotiation may still have to hear. */
  function Ahead(n: Negotiation): nat {
    2 * |n.rest| + (match n.phase case Connecting => 2 case Starting => 1 case CreatingContext => 0)
  }

  /** An answer that brings a negotiation that can be won nearer to that. */
  lemma Encouraging(p: Platform, n: Negotiation) returns (a: Answer)
    requires Winnable(p, n) && !n.phase.CreatingContext?
    ensures Awaits(n.phase, a) && Hear(p, n, a).Goes? && Winnable(p, Hear(p, n, a).negotiation)
    ensures Ahead(Hear(p, n, a).negotiation) < Ahead(n)
  {
    if n.phase.Connecting? {
      a := Connected(false);
    } else if Admits(p, n.host) {
      var name := if GetString(n.host, "browserName").Some? then GetString(n.host, "browserName").value else "";
      var version := "";
      if GetString(n.host, "browserVersion").Some? {
        version :| p.compareVersions(GetString(n.host, "browserVersion").value, version);
      }
      a := Started(name, version);
    } else {
      a := Started("", "");
      var last := |n.rest| - 1;
      var i :| 0 <= i < |n.rest| && Admits(p, n.rest[i]);
      assert i < last ==> Admits(p, n.rest[..last][i]);
    }
  }

  lemma {:induction false} ComesToContext(p: Platform, s: Service, id: nat) returns (es: seq<Event>, t: Service)
    requires id < |s.requests| && id in s.active && Winnable(p, s.active[id])
    ensures NoRequests(es) && Runs(p, s, es, t)
    ensures |t.requests| == |s.requests| && t.session == s.session
    ensures id in t.active && t.active[id].phase.CreatingContext? && t.active - {id} == s.active - {id}
    decreases Ahead(s.active[id])
  {
    if s.active[id].phase.CreatingContext? {
      es, t := [], s;
    } else {
      var a := Encouraging(p, s.active[id]);
      var u := Apply(p, s, Answered(id, a));
      RunsOne(p, s, Answered(id, a));
      es, t := ComesToContext(p, u, id);
      RunsAppend(p, s, [Answered(id, a)], u, es, t);
      es := [Answered(id, a)] + es;
    }
  }

  lemma SecondReplaces(p: Platform, s: Service, id: nat)
    requires Inv(p, s) && s.session.Some? && id in s.active && Winnable(p, s.active[id])
    ensures CanReplace(p, s)
  {
    var es, t := ComesToContext(p, s, id);
    var e := Answered(id, ContextCreated(false));
    assert NoRequests(es) && Runs(p, s, es, t) && Enabled(t, e) && Replaces(p, t, e);
  }

  lemma FirstCreates(p: Platform, s: Service, id: nat) returns (es: seq<Event>, t: Service)
    requires Inv(p, s) && id in s.active && Winnable(p, s.active[id])
    ensures NoRequests(es) && Runs(p, s, es, t) && t.session.Some? && t.active == s.active - {id}
  {
    var u;
    es, u := ComesToContext(p, s, id);
    var e := Answered(id, ContextCreated(false));
    t := Apply(p, u, e);
    RunsOne(p, u, e);
    RunsAppend(p, s, es, u, [e], t);
    es := es + [e];
  }

  lemma ReplaceLater(p: Platform, s: Service, es: seq<Event>, t: Service)
    requires NoRequests(es) && Runs(p, s, es, t) && CanReplace(p, t)
    ensures CanReplace(p, s)
  {
    var fs, u, e :| NoRequests(fs) && Runs(p, t, fs, u) && Enabled(u, e) && Replaces(p, u, e);
    RunsAppend(p, s, es, t, fs, u);
    assert NoRequests(es + fs);
  }

  /** The guard against a second session is tested when a request comes, and its session is there much later:
      without further requests the server can lose a session if and only if two negotiations can still be won,
      or one beside a session. */
  lemma SessionLostExactly(p: Platform, s: Service)
    requires Inv(p, s)
    ensures CanReplace(p, s) <==> Threatened(p, s)
  {
    if !Threatened(p, s) {
      forall es, t, e | NoRequests(es) && Runs(p, s, es, t) && Enabled(t, e) ensures !Replaces(p, t, e) {
        UnthreatenedRuns(p, s, es, t);
        if e.Answered? {
          UnthreatenedKept(p, t, e);
        }
      }
    } else {
      var i :| i in s.active && Winnable(p, s.active[i]) && (s.session.Some? || OtherWinnable(p, s, i));
      if s.session.Some? {
        SecondReplaces(p, s, i);
      } else {
        var j :| j in s.active && j != i && Winnable(p, s.active[j]);
        var es, t := FirstCreates(p, s, i);
        RunKeeps(p, s, es, t);
        SecondReplaces(p, t, j);
        ReplaceLater(p, s, es, t);
      }
    }
  }

  lemma {:induction false} ReversedHolds(list: seq<Members>, m: Members)
    ensures m in Reversed(list) <==> m in list
    decreases |list|
  {
    if list != [] {
      ReversedHolds(list[1..], m);
      assert list == [list[0]] + list[1..];
    }
  }

  lemma ReversedIsHopeful(p: Platform, list: seq<Members>)
    ensures Hopeful(p, Reversed(list)) <==> Hopeful(p, list)
  {
    if Hopeful(p, list) {
      var i :| 0 <= i < |list| && Admits(p, list[i]);
      ReversedHolds(list, list[i]);
      assert list[i] in Reversed(list);
    }
    if Hopeful(p, Reversed(list)) {
      var j :| 0 <= j < |Reversed(list)| && Admits(p, Reversed(list)[j]);
      ReversedHolds(list, Reversed(list)[j]);
      assert Reversed(list)[j] in list;
    }
  }

  /** A negotiation that has just begun can be won if some entry of its list can. */
  lemma BegunIsWinnable(p: Platform, list: seq<Members>)
    requires list != []
    ensures ConnectToBrowser(list).Goes?
    ensures Winnable(p, ConnectToBrowser(list).negotiation) <==> Hopeful(p, list)
  {
    var n, last := ConnectToBrowser(list).negotiation, |list| - 1;
    if Hopeful(p, list) {
      var i :| 0 <= i < |list| && Admits(p, list[i]);
      assert i < last ==> Admits(p, n.rest[i]);
    }
    if Hopeful(p, n.rest) {
      var i :| 0 <= i < last && Admits(p, n.rest[i]);
      assert Admits(p, list[i]);
    }
    assert Admits(p, list[last]) ==> Hopeful(p, list);
  }

  /** Two requests that can be met, one after the other before any answer, are enough, unless one asks only for
      versions that no browser has. */
  lemma OverlapLosesSession(p: Platform, a: Members, b: Members)
    requires Process(p, a).Matches? && Process(p, b).Matches?
    ensures var s := Begin(p, Begin(p, IDLE, a), b);
      Inv(p, s) && (CanReplace(p, s) <==> Hopeful(p, Process(p, a).list) && Hopeful(p, Process(p, b).list))
  {
    var s := Begin(p, IDLE, a);
    var t := Begin(p, s, b);
    assert Inv(p, IDLE);
    BeginKeeps(p, IDLE, a);
    BeginKeeps(p, s, b);
    ProcessNotEmpty(p, a);
    ProcessNotEmpty(p, b);
    BegunIsWinnable(p, Reversed(Process(p, a).list));
    BegunIsWinnable(p, Reversed(Process(p, b).list));
    ReversedIsHopeful(p, Process(p, a).list);
    ReversedIsHopeful(p, Process(p, b).list);
    assert t.active.Keys == {0, 1} && t.session.None?;
    assert OtherWinnable(p, t, 0) <==> Winnable(p, t.active[1]);
    assert OtherWinnable(p, t, 1) <==> Winnable(p, t.active[0]);
    SessionLostExactly(p, t);
  }

  lemma ProcessNotEmpty(p: Platform, parameters: Members)
    requires Process(p, parameters).Matches?
    ensures Reversed(Process(p, parameters).list) != []
  {
  }

  // ----- requests in turn -----

  /** At most one negotiation is going on, and none beside a session. */
  ghost predicate Quiet(s: Service) {
    && (forall i, j :: i in s.active && j in s.active ==> i == j)
    && (s.active != map[] ==> s.session.None?)
  }

  /** A run in which no request comes while a negotiation is going on. */
  ghost predicate OneAtATime(p: Platform, s: Service, es: seq<Event>)
    decreases |es|
  {
    es == [] ||
    (Enabled(s, es[0]) && (es[0].NewSessionRequest? ==> s.active == map[]) &&
     OneAtATime(p, Apply(p, s, es[0]), es[1..]))
  }

  lemma QuietKept(p: Platform, s: Service, e: Event)
    requires Quiet(s) && Enabled(s, e) && (e.NewSessionRequest? ==> s.active == map[])
    ensures Quiet(Apply(p, s, e)) && !Replaces(p, s, e)
  {
  }

  /** Such a run never loses a session. */
  lemma {:induction false} OneAtATimeIsSafe(p: Platform, s: Service, es: seq<Event>, t: Service, e: Event)
    requires Quiet(s) && OneAtATime(p, s, es) && Runs(p, s, es, t) && Enabled(t, e)
    ensures Quiet(t) && !Replaces(p, t, e)
    decreases |es|
  {
    if es == [] {
      if e.Answered? {
        QuietKept(p, t, e);
      }
    } else {
      QuietKept(p, s, es[0]);
      OneAtATimeIsSafe(p, Apply(p, s, es[0]), es[1..], t, e);
    }
  }
}
