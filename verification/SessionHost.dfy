/** Commands sent to a browser and the handlers waiting for their answers. */
module SessionHost {

  /** A handler is known by what it was made for. */
  type Handler = nat

  /** The counter all hosts share. */
  class Sequence {
    var last: nat

    constructor ()
      ensures last == 0
    {
      last := 0;
    }
  }

  class Host {
    var requests: map<nat, Handler>

    constructor ()
      ensures requests == map[]
    {
      requests := map[];
    }

    /** No request waits under a number that is still to be given out. */
    ghost predicate Below(sequence: Sequence)
      reads this, sequence
    {
      forall id :: id in requests ==> id <= sequence.last
    }

    method SendCommandToBackend(sequence: Sequence, handler: Handler) returns (id: nat)
      requires Below(sequence)
      modifies this, sequence
      ensures Below(sequence) && sequence.last == old(sequence.last) + 1
      ensures id == sequence.last && id !in old(requests) && requests == old(requests)[id := handler]
    {
      sequence.last := sequence.last + 1;
      id := sequence.last;
      requests := requests[id := handler];
    }

    method Take(id: nat) returns (handler: Handler)
      requires id in requests
      modifies this
      ensures handler == old(requests)[id] && requests == old(requests) - {id}
    {
      handler := requests[id];
      requests := requests - {id};
    }

    /** One handler is taken and run, and sends what it sends. */
    method RunNext(id: nat, sequence: Sequence, hosts: set<Host>, reaction: Handler -> seq<Sending>)
      returns (handler: Handler)
      requires this in hosts && AllBelow(hosts, sequence) && Within(reaction, hosts) && id in requests
      modifies hosts, sequence
      ensures AllBelow(hosts, sequence) && handler == old(requests)[id]
      ensures sequence.last == old(sequence.last) + |reaction(handler)|
      ensures forall k :: k in old(requests) && k != id ==> k in requests && requests[k] == old(requests)[k]
      ensures Waiting(hosts) == (old(Waiting(hosts)) - {(this, id)}) + Numbered(reaction(handler), old(sequence.last))
    {
      handler := Take(id);
      assert Waiting(hosts) == old(Waiting(hosts)) - {(this, id)};
      SendAll(hosts, sequence, reaction(handler));
    }

    /** The browser is gone: every handler waiting now is run, once, with the one that was waiting under its
        number. The handlers may send commands through any host, this one included; what waits afterwards is
        what waited at the other hosts, and those commands. */
    method InspectorDisconnected(sequence: Sequence, hosts: set<Host>, reaction: Handler -> seq<Sending>)
      returns (order: seq<nat>, fired: seq<Handler>)
      requires this in hosts && AllBelow(hosts, sequence) && Within(reaction, hosts)
      modifies hosts, sequence
      ensures AllBelow(hosts, sequence)
      ensures IsListOf(order, old(requests).Keys)
      ensures Fired(order, |order|, old(requests), fired)
      ensures sequence.last == old(sequence.last) + |Reactions(reaction, fired)|
      ensures RanSoFar(old(Waiting(hosts)), this, order, Reactions(reaction, fired), old(sequence.last), Waiting(hosts))
    {
      order := ListOf(requests.Keys);
      fired := [];
      ghost var was, before, last := requests, Waiting(hosts), sequence.last;
      ListedBelow(order, was, last);
      for i := 0 to |order|
        invariant AllBelow(hosts, sequence)
        invariant Progress(order, i, was, fired, requests)
        invariant Sendings(before, order[..i], Reactions(reaction, fired), last, Waiting(hosts), sequence.last)
      {
        var handler := RunAt(order, i, fired, sequence, hosts, reaction, was, before, last);
        fired := fired + [handler];
      }
      assert order[..|order|] == order;
    }

    /** How the numbers and what waits have come along. */
    ghost predicate Sendings(before: set<(Host, nat)>, done: seq<nat>, sent: seq<Sending>, last: nat,
        now: set<(Host, nat)>, number: nat)
    {
      number == last + |sent| && RanSoFar(before, this, done, sent, last, now)
    }

    /** One round of the loop. */
    method RunAt(order: seq<nat>, i: nat, fired: seq<Handler>,
        sequence: Sequence, hosts: set<Host>, reaction: Handler -> seq<Sending>,
        ghost was: map<nat, Handler>, ghost before: set<(Host, nat)>, ghost last: nat)
      returns (handler: Handler)
      requires this in hosts && AllBelow(hosts, sequence) && Within(reaction, hosts)
      requires i < |order| && order[i] <= last && IsListOf(order, was.Keys) && Progress(order, i, was, fired, requests)
      requires Sendings(before, order[..i], Reactions(reaction, fired), last, Waiting(hosts), sequence.last)
      modifies hosts, sequence
      ensures AllBelow(hosts, sequence) && Progress(order, i + 1, was, fired + [handler], requests)
      ensures Sendings(before, order[..i + 1], Reactions(reaction, fired + [handler]), last,
        Waiting(hosts), sequence.last)
    {
      ghost var waiting, had := Waiting(hosts), requests;
      handler := RunNext(order[i], sequence, hosts, reaction);
      LeftNext(order, i, was, had, requests);
      ReactionsMore(reaction, fired, handler);
      OneMore(before, this, order, i, Reactions(reaction, fired), reaction(handler), last, waiting, Waiting(hosts));
    }
  }

  ghost predicate Progress(order: seq<nat>, i: nat, was: map<nat, Handler>, fired: seq<Handler>,
      now: map<nat, Handler>)
  {
    Left(order, i, was, now) && Fired(order, i, was, fired)
  }

  /** The handlers still to be run wait as they did. */
  ghost predicate Left(order: seq<nat>, i: nat, was: map<nat, Handler>, now: map<nat, Handler>) {
    forall j :: i <= j < |order| ==> order[j] in was && order[j] in now && now[order[j]] == was[order[j]]
  }

  /** The handlers run are those that waited. */
  ghost predicate Fired(order: seq<nat>, i: nat, was: map<nat, Handler>, fired: seq<Handler>) {
    |fired| == i <= |order| && forall j :: 0 <= j < i ==> order[j] in was && fired[j] == was[order[j]]
  }

  lemma LeftNext(order: seq<nat>, i: nat, was: map<nat, Handler>, had: map<nat, Handler>, now: map<nat, Handler>)
    requires i < |order| && IsListOf(order, was.Keys) && Left(order, i, was, had)
    requires forall k :: k in had && k != order[i] ==> k in now && now[k] == had[k]
    ensures Left(order, i + 1, was, now)
  {
  }

  lemma ListedBelow(order: seq<nat>, was: map<nat, Handler>, last: nat)
    requires IsListOf(order, was.Keys) && forall id :: id in was ==> id <= last
    ensures forall j :: 0 <= j < |order| ==> order[j] in was && order[j] <= last
  {
    forall j | 0 <= j < |order| ensures order[j] in was {
      assert order[j] in order;
    }
  }

  /** All commands waiting, each with the host it waits at. */
  ghost function Waiting(hosts: set<Host>): set<(Host, nat)>
    reads hosts
  {
    set h, id | h in hosts && id in h.requests :: (h, id)
  }

  ghost function At(h: Host, order: seq<nat>): set<(Host, nat)> {
    set i | 0 <= i < |order| :: (h, order[i])
  }

  /** Commands sent one after the other, with the numbers they get. */
  ghost function Numbered(sendings: seq<Sending>, last: nat): set<(Host, nat)> {
    set i | 0 <= i < |sendings| :: (sendings[i].host, last + 1 + i)
  }

  lemma NumberedMore(a: seq<Sending>, b: seq<Sending>, last: nat)
    ensures Numbered(a + b, last) == Numbered(a, last) + Numbered(b, last + |a|)
  {
    forall i | 0 <= i < |b| ensures (b[i].host, last + |a| + 1 + i) in Numbered(a + b, last) {
      assert (a + b)[|a| + i] == b[i];
    }
    forall i | 0 <= i < |a| ensures (a[i].host, last + 1 + i) in Numbered(a + b, last) {
      assert (a + b)[i] == a[i];
    }
  }

  /** What waits once some handlers of a host have run and sent what they sent. */
  ghost predicate RanSoFar(before: set<(Host, nat)>, h: Host, done: seq<nat>, sent: seq<Sending>, last: nat,
      now: set<(Host, nat)>)
  {
    now == (before - At(h, done)) + Numbered(sent, last)
  }

  lemma OneMore(before: set<(Host, nat)>, h: Host, order: seq<nat>, i: nat,
      sent: seq<Sending>, more: seq<Sending>, last: nat, now: set<(Host, nat)>, later: set<(Host, nat)>)
    requires i < |order| && order[i] <= last && RanSoFar(before, h, order[..i], sent, last, now)
    requires later == (now - {(h, order[i])}) + Numbered(more, last + |sent|)
    ensures RanSoFar(before, h, order[..i + 1], sent + more, last, later)
  {
    NumberedMore(sent, more, last);
    assert (h, order[i]) !in Numbered(sent, last);
    AtMore(h, order, i);
  }

  lemma AtMore(h: Host, order: seq<nat>, i: nat)
    requires i < |order|
    ensures At(h, order[..i + 1]) == At(h, order[..i]) + {(h, order[i])}
  {
    forall j | 0 <= j < i ensures (h, order[j]) in At(h, order[..i]) && (h, order[j]) in At(h, order[..i + 1]) {
      assert order[..i][j] == order[j] && order[..i + 1][j] == order[j];
    }
    assert order[..i + 1][i] == order[i];
  }

  /** A command that a handler sends: through which host, and with what handler of its own. */
  datatype Sending = Sending(host: Host, handler: Handler)

  ghost predicate AllBelow(hosts: set<Host>, sequence: Sequence)
    reads hosts, sequence
  {
    forall h :: h in hosts ==> h.Below(sequence)
  }

  ghost predicate Within(reaction: Handler -> seq<Sending>, hosts: set<Host>) {
    forall x, i :: 0 <= i < |reaction(x)| ==> reaction(x)[i].host in hosts
  }

  /** All that the handlers send, in the order they run. */
  function Reactions(reaction: Handler -> seq<Sending>, fired: seq<Handler>): seq<Sending> {
    if fired == [] then [] else Reactions(reaction, fired[..|fired| - 1]) + reaction(fired[|fired| - 1])
  }

  lemma ReactionsMore(reaction: Handler -> seq<Sending>, fired: seq<Handler>, x: Handler)
    ensures Reactions(reaction, fired + [x]) == Reactions(reaction, fired) + reaction(x)
  {
    assert (fired + [x])[..|fired|] == fired;
  }

  /** Commands sent one after the other, each through its own host. */
  method SendAll(hosts: set<Host>, sequence: Sequence, sendings: seq<Sending>)
    requires AllBelow(hosts, sequence) && forall i :: 0 <= i < |sendings| ==> sendings[i].host in hosts
    modifies hosts, sequence
    ensures AllBelow(hosts, sequence) && sequence.last == old(sequence.last) + |sendings|
    ensures forall h, id :: h in hosts && id in old(h.requests) ==>
      id in h.requests && h.requests[id] == old(h.requests)[id]
    ensures Waiting(hosts) == old(Waiting(hosts)) + Numbered(sendings, old(sequence.last))
  {
    for i := 0 to |sendings|
      invariant AllBelow(hosts, sequence) && sequence.last == old(sequence.last) + i
      invariant forall h, id :: h in hosts && id in old(h.requests) ==>
        id in h.requests && h.requests[id] == old(h.requests)[id]
      invariant Waiting(hosts) == old(Waiting(hosts)) + Numbered(sendings[..i], old(sequence.last))
    {
      ghost var before := Waiting(hosts);
      var id := sendings[i].host.SendCommandToBackend(sequence, sendings[i].handler);
      assert Waiting(hosts) == before + {(sendings[i].host, id)};
      NumberedMore(sendings[..i], [sendings[i]], old(sequence.last));
      assert sendings[..i + 1] == sendings[..i] + [sendings[i]];
    }
    assert sendings[..|sendings|] == sendings;
  }

  /** Every element once, in some order. */
  ghost predicate IsListOf(order: seq<nat>, ids: set<nat>) {
    && (forall i, j :: 0 <= i < j < |order| ==> order[i] != order[j])
    && (forall id :: id in order <==> id in ids)
  }

  method ListOf(ids: set<nat>) returns (order: seq<nat>)
    ensures IsListOf(order, ids)
  {
    order := [];
    var left := ids;
    while left != {}
      invariant left <= ids && IsListOf(order, ids - left)
    {
      var id: nat :| id in left;
      order := order + [id];
      left := left - {id};
    }
  }

  // ----- any number of hosts -----

  /** A command: the host it was sent by, and its number. */
  datatype Sent = Sent(host: nat, id: nat)

  /** A disconnection under way: the numbers that were waiting and are still to be taken. */
  datatype Closing = Open | Closing(host: nat, rest: seq<nat>)

  datatype State = State(last: nat, sent: seq<Sent>, waiting: set<Sent>, answered: seq<Sent>, closing: Closing)

  const START := State(0, [], {}, [], Open)

  datatype Step = Send(host: nat) | Respond(host: nat, id: nat) | BeginDisconnect(host: nat, order: seq<nat>) | TakeNext

  ghost function WaitingAt(waiting: set<Sent>, host: nat): set<nat> {
    set c | c in waiting && c.host == host :: c.id
  }

  /** Handlers may send at any time; nothing else comes in while a disconnection is under way. */
  ghost predicate Enabled(s: State, step: Step) {
    match step
    case Send(_) => true
    case Respond(host, id) => s.closing.Open? && Sent(host, id) in s.waiting
    case BeginDisconnect(host, order) => s.closing.Open? && IsListOf(order, WaitingAt(s.waiting, host))
    case TakeNext => s.closing.Closing? && s.closing.rest != []
  }

  function CloseRest(host: nat, rest: seq<nat>): Closing { if rest == [] then Open else Closing(host, rest) }

  ghost function Apply(s: State, step: Step): State
    requires Enabled(s, step)
  {
    match step
    case Send(host) =>
      var c := Sent(host, s.last + 1);
      s.(last := s.last + 1, sent := s.sent + [c], waiting := s.waiting + {c})
    case Respond(host, id) => Answer(s, Sent(host, id))
    case BeginDisconnect(host, order) => s.(closing := CloseRest(host, order))
    case TakeNext =>
      Answer(s, Sent(s.closing.host, s.closing.rest[0])).(closing := CloseRest(s.closing.host, s.closing.rest[1..]))
  }

  ghost function Answer(s: State, c: Sent): State {
    s.(waiting := s.waiting - {c}, answered := s.answered + [c])
  }

  ghost predicate Runs(s: State, steps: seq<Step>, t: State)
    decreases |steps|
  {
    if steps == [] then s == t else Enabled(s, steps[0]) && Runs(Apply(s, steps[0]), steps[1..], t)
  }

  ghost predicate InSequence(last: nat, sent: seq<Sent>) {
    |sent| == last && forall i :: 0 <= i < |sent| ==> sent[i].id == i + 1
  }

  ghost predicate Distinct(cs: seq<Sent>) { forall i, j :: 0 <= i < j < |cs| ==> cs[i] != cs[j] }

  ghost predicate Conserved(s: State) {
    && (forall c :: c in s.sent <==> c in s.waiting || c in s.answered)
    && (forall c :: c in s.waiting ==> c !in s.answered)
    && Distinct(s.answered)
  }

  ghost predicate ClosesWaiting(closing: Closing, waiting: set<Sent>) {
    closing.Closing? ==>
      && (forall i, j :: 0 <= i < j < |closing.rest| ==> closing.rest[i] != closing.rest[j])
      && (forall i :: 0 <= i < |closing.rest| ==> Sent(closing.host, closing.rest[i]) in waiting)
  }

  ghost predicate Inv(s: State) {
    InSequence(s.last, s.sent) && Conserved(s) && ClosesWaiting(s.closing, s.waiting)
  }

  lemma NewNumber(last: nat, sent: seq<Sent>, c: Sent)
    requires InSequence(last, sent) && c.id == last + 1
    ensures c !in sent
  {
  }

  lemma AnswerKeeps(s: State, c: Sent)
    requires InSequence(s.last, s.sent) && Conserved(s) && c in s.waiting
    ensures Conserved(Answer(s, c))
  {
    assert forall i :: 0 <= i < |s.answered| ==> s.answered[i] in s.answered;
  }

  lemma BeginCloses(s: State, host: nat, order: seq<nat>)
    requires IsListOf(order, WaitingAt(s.waiting, host))
    ensures ClosesWaiting(CloseRest(host, order), s.waiting)
  {
    forall i | 0 <= i < |order| ensures Sent(host, order[i]) in s.waiting {
      assert order[i] in order;
    }
  }

  lemma StepKeeps(s: State, step: Step)
    requires Inv(s) && Enabled(s, step)
    ensures Inv(Apply(s, step))
  {
    match step
    case Send(host) => NewNumber(s.last, s.sent, Sent(host, s.last + 1));
    case Respond(host, id) => AnswerKeeps(s, Sent(host, id));
    case BeginDisconnect(host, order) => BeginCloses(s, host, order);
    case TakeNext => AnswerKeeps(s, Sent(s.closing.host, s.closing.rest[0]));
  }

  lemma {:induction false} RunKeeps(s: State, steps: seq<Step>, t: State)
    requires Inv(s) && Runs(s, steps, t)
    ensures Inv(t)
    decreases |steps|
  {
    if steps != [] {
      StepKeeps(s, steps[0]);
      RunKeeps(Apply(s, steps[0]), steps[1..], t);
    }
  }

  /** In every run, over all hosts: no number is given out twice, and the commands sent are those waiting and
      those answered, none both and none answered twice. */
  lemma NothingLostOrRepeated(steps: seq<Step>, t: State)
    requires Runs(START, steps, t)
    ensures forall i, j :: 0 <= i < j < |t.sent| ==> t.sent[i].id < t.sent[j].id
    ensures forall c :: c in t.sent <==> c in t.waiting || c in t.answered
    ensures forall c :: c in t.waiting ==> c !in t.answered
    ensures forall i, j :: 0 <= i < j < |t.answered| ==> t.answered[i] != t.answered[j]
  {
    RunKeeps(START, steps, t);
  }

  /** The commands sent, told from the steps alone: numbered in order, whatever host they go through. */
  function Sendings(steps: seq<Step>): seq<Sent> {
    if steps == [] then [] else
      var last := |steps| - 1;
      var before := Sendings(steps[..last]);
      before + (if steps[last].Send? then [Sent(steps[last].host, |before| + 1)] else [])
  }

  /** How many steps answer a command. */
  function Answering(steps: seq<Step>): nat {
    if steps == [] then 0 else
      var last := |steps| - 1;
      Answering(steps[..last]) + (if steps[last].Respond? || steps[last].TakeNext? then 1 else 0)
  }

  lemma {:induction false} AllButLast(s: State, steps: seq<Step>, t: State) returns (u: State)
    requires Runs(s, steps, t) && steps != []
    ensures Runs(s, steps[..|steps| - 1], u) && Enabled(u, steps[|steps| - 1]) && t == Apply(u, steps[|steps| - 1])
    decreases |steps|
  {
    if |steps| == 1 {
      u := s;
    } else {
      u := AllButLast(Apply(s, steps[0]), steps[1..], t);
      assert steps[..|steps| - 1][1..] == steps[1..][..|steps| - 2];
    }
  }

  /** In every run: each step that sends sends one command, with the next number, and each response, and each
      handler taken in a disconnection, is one command answered, the one it is for; no other step does either. */
  lemma {:induction false} EachStepTold(steps: seq<Step>, t: State)
    requires Runs(START, steps, t)
    ensures t.sent == Sendings(steps) && t.last == |t.sent| && |t.answered| == Answering(steps)
    ensures forall i :: 0 <= i < |steps| && steps[i].Respond? ==> Sent(steps[i].host, steps[i].id) in t.answered
    decreases |steps|
  {
    if steps != [] {
      var last := |steps| - 1;
      var u := AllButLast(START, steps, t);
      EachStepTold(steps[..last], u);
      forall i | 0 <= i < |steps| && steps[i].Respond? ensures Sent(steps[i].host, steps[i].id) in t.answered {
        assert i < last ==> steps[..last][i] == steps[i];
      }
    }
  }

  // ----- disconnecting -----

  /** What was waiting at a host is answered, or about to be. */
  ghost predicate Clearing(before: set<Sent>, host: nat, s: State) {
    forall c :: c in before && c.host == host ==>
      c in s.answered || (s.closing.Closing? && s.closing.host == host && c.id in s.closing.rest)
  }

  /** Numbers waiting at a host that were not there before are new. */
  ghost predicate OnlyNew(before: set<Sent>, last: nat, s: State) {
    last <= s.last && forall c :: c in s.waiting && c !in before ==> c.id > last
  }

  lemma ClearingKept(before: set<Sent>, host: nat, last: nat, s: State, step: Step)
    requires Clearing(before, host, s) && OnlyNew(before, last, s)
    requires Enabled(s, step) && !step.BeginDisconnect?
    ensures Clearing(before, host, Apply(s, step)) && OnlyNew(before, last, Apply(s, step))
  {
    var t := Apply(s, step);
    forall c | c in before && c.host == host
      ensures c in t.answered || (t.closing.Closing? && t.closing.host == host && c.id in t.closing.rest)
    {
      if step.TakeNext? && c !in s.answered && c.id != s.closing.rest[0] {
        assert c.id in s.closing.rest[1..];
      }
    }
  }

  lemma {:induction false} ClearingRuns(before: set<Sent>, host: nat, last: nat, s: State, steps: seq<Step>, t: State)
    requires Clearing(before, host, s) && OnlyNew(before, last, s) && Runs(s, steps, t)
    requires forall i :: 0 <= i < |steps| ==> !steps[i].BeginDisconnect?
    ensures Clearing(before, host, t) && OnlyNew(before, last, t)
    decreases |steps|
  {
    if steps != [] {
      ClearingKept(before, host, last, s, steps[0]);
      ClearingRuns(before, host, last, Apply(s, steps[0]), steps[1..], t);
    }
  }

  /** Once a disconnection is over, all that was waiting when it began is answered, whatever the handlers sent
      meanwhile; what waits at that host now was sent after it began. */
  lemma DisconnectAnswersAll(s: State, host: nat, order: seq<nat>, steps: seq<Step>, t: State)
    requires Inv(s) && Enabled(s, BeginDisconnect(host, order))
    requires Runs(Apply(s, BeginDisconnect(host, order)), steps, t) && t.closing.Open?
    requires forall i :: 0 <= i < |steps| ==> !steps[i].BeginDisconnect?
    ensures forall c :: c in s.waiting && c.host == host ==> c in t.answered
    ensures forall c :: c in t.waiting && c.host == host ==> c.id > s.last
  {
    var begun := Apply(s, BeginDisconnect(host, order));
    forall c | c in s.waiting && c.host == host ensures c.id in order {
      assert c.id in WaitingAt(s.waiting, host);
    }
    StepKeeps(s, BeginDisconnect(host, order));
    ClearingRuns(s.waiting, host, s.last, begun, steps, t);
    RunKeeps(begun, steps, t);
  }
}
