/** The agents of the jsc shell: threads that register a worker each, broadcast
    messages to one another, pass reports to whoever asks, and wait on one lock
    and one condition; plus the handshake that starts a new agent.

    A run is a sequence of steps.  A step is a stretch of code whose middle no
    other thread can observe, except that a broadcast is taken apart into one
    step per worker it visits, in any order. */
module Agents {
  import opened Wrappers

  type Tid = nat

  datatype Message = Message(contents: nat, index: int)

  /** What a thread that waits on the shared condition waits for. */
  datatype Want = AMessage | AReport

  datatype Pc =
    | Booting                                    // created; has not registered its worker
    | Registered                                 // registered; has not told its starter
    | Running                                    // outside all of the code modelled here
    | Starting(child: Tid)                       // in agent.start, about to test didStart
    | AwaitingStart(child: Tid)                  // in agent.start, in the wait set of didStartCondition
    | Testing(want: Want)                        // holds the lock, about to test for emptiness
    | Waiting(want: Want)                        // in the wait set of the shared condition
    | Woken(want: Want)                          // woken, must take the lock again
    | Sending(message: Message, rest: set<Tid>)  // holds the lock, with workers still to visit
    | MustNotify                                 // holds the lock, has not called notifyAll yet
    | Exited

  /** Who holds the shared lock, and where every thread is. */
  datatype Control = Control(lock: Option<Tid>, pc: map<Tid, Pc>) {
    predicate At(t: Tid, p: Pc) { t in pc && pc[t] == p }

    function Put(t: Tid, p: Pc): Control { this.(pc := pc[t := p]) }

    /** What the thread that holds the lock is doing. */
    function Holder(): Pc { if lock.Some? && lock.value in pc then pc[lock.value] else Running }

    /** Outside every critical section with the lock free, so that the thread may take it. */
    predicate MayLock(t: Tid) { At(t, Running) && lock == None }
  }

  datatype Entry = Entry(sender: Tid, message: Message)

  /** The queues of the workers on the list, and the history behind them: every
      broadcast in the order the lock was taken for it, how long that log was
      when a worker registered, and what a worker has dequeued. */
  datatype Mail = Mail(
    queue: map<Tid, seq<Message>>, log: seq<Entry>, joined: map<Tid, nat>, taken: map<Tid, seq<Message>>)

  /** The reports not yet collected, all reports ever made, and those collected. */
  datatype Reports = Reports(pending: seq<string>, log: seq<string>, taken: seq<string>)

  /** Which agents have signalled; who started them; how long the log was when agent.start returned. */
  datatype Starts = Starts(didStart: set<Tid>, starter: map<Tid, Tid>, returned: map<Tid, nat>)

  datatype State = State(c: Control, m: Mail, r: Reports, b: Starts)

  function Initial(main: Tid): State {
    State(Control(None, map[main := Booting]), Mail(map[], [], map[], map[]), Reports([], [], []),
      Starts({}, map[], map[]))
  }

  // ----- steps -----

  datatype Step =
    | Spawn(t: Tid, child: Tid)
    | Register(t: Tid)
    | Signal(t: Tid, wakes: Option<Tid>)
    | TestStart(t: Tid)
    | WakeStart(t: Tid)                // a wakeup nobody asked for
    | BeginWait(t: Tid, want: Want)
    | Dequeue(t: Tid)
    | Collect(t: Tid)
    | Wake(t: Tid)                     // a wakeup nobody asked for
    | Reacquire(t: Tid)
    | BeginBroadcast(t: Tid, message: Message)
    | Visit(t: Tid, w: Tid)
    | BeginReport(t: Tid, report: string)
    | Notify(t: Tid)
    | TryGetReport(t: Tid)
    | Exit(t: Tid)

  /** Thread::create in agent.start. */
  predicate CanSpawn(s: State, t: Tid, child: Tid) { s.c.At(t, Running) && child !in s.c.pc }

  function DoSpawn(s: State, t: Tid, child: Tid): State {
    s.(c := s.c.Put(child, Booting).Put(t, Starting(child)), b := s.b.(starter := s.b.starter[child := t]))
  }

  /** The constructor of Worker, the first thing runJSC does. */
  predicate CanRegister(s: State, t: Tid) { s.c.At(t, Booting) && s.c.lock == None }

  function DoRegister(s: State, t: Tid): State {
    s.(c := s.c.Put(t, if t in s.b.starter then Registered else Running),
       m := s.m.(queue := s.m.queue[t := []], joined := s.m.joined[t := |s.m.log|], taken := s.m.taken[t := []]))
  }

  /** didStart is set and notifyOne called, under didStartLock. */
  predicate CanSignal(s: State, t: Tid, wakes: Option<Tid>) {
    s.c.At(t, Registered) &&
    match wakes
    case Some(w) => s.c.At(w, AwaitingStart(t))
    case None => forall w :: w in s.c.pc ==> s.c.pc[w] != AwaitingStart(t)
  }

  function DoSignal(s: State, t: Tid, wakes: Option<Tid>): State {
    s.(c := if wakes.Some? then s.c.Put(t, Running).Put(wakes.value, Starting(t)) else s.c.Put(t, Running),
       b := s.b.(didStart := s.b.didStart + {t}))
  }

  /** One round of the loop in agent.start: it returns, or waits. */
  predicate CanTestStart(s: State, t: Tid) { t in s.c.pc && s.c.pc[t].Starting? }

  function DoTestStart(s: State, t: Tid): State
    requires CanTestStart(s, t)
  {
    var child := s.c.pc[t].child;
    if child in s.b.didStart
    then s.(c := s.c.Put(t, Running), b := s.b.(returned := s.b.returned[child := |s.m.log|]))
    else s.(c := s.c.Put(t, AwaitingStart(child)))
  }

  predicate CanWakeStart(s: State, t: Tid) { t in s.c.pc && s.c.pc[t].AwaitingStart? }

  function DoWakeStart(s: State, t: Tid): State
    requires CanWakeStart(s, t)
  {
    s.(c := s.c.Put(t, Starting(s.c.pc[t].child)))
  }

  /** dequeue and getReport take the lock. */
  function DoBeginWait(s: State, t: Tid, want: Want): State {
    s.(c := s.c.Put(t, Testing(want)).(lock := Some(t)))
  }

  function TakeFirst(m: Mail, t: Tid): Mail
    requires t in m.queue && t in m.taken && m.queue[t] != []
  {
    m.(queue := m.queue[t := m.queue[t][1..]], taken := m.taken[t := m.taken[t] + [m.queue[t][0]]])
  }

  /** One round of the loop in dequeue. */
  predicate CanDequeue(s: State, t: Tid) {
    s.c.At(t, Testing(AMessage)) && t in s.m.queue && t in s.m.taken
  }

  function DoDequeue(s: State, t: Tid): State
    requires CanDequeue(s, t)
  {
    if s.m.queue[t] == [] then s.(c := s.c.Put(t, Waiting(AMessage)).(lock := None))
    else s.(c := s.c.Put(t, Running).(lock := None), m := TakeFirst(s.m, t))
  }

  function TakeReport(r: Reports): Reports
    requires r.pending != []
  {
    r.(pending := r.pending[1..], taken := r.taken + [r.pending[0]])
  }

  /** One round of the loop in getReport. */
  predicate CanCollect(s: State, t: Tid) { s.c.At(t, Testing(AReport)) }

  function DoCollect(s: State, t: Tid): State {
    if s.r.pending == [] then s.(c := s.c.Put(t, Waiting(AReport)).(lock := None))
    else s.(c := s.c.Put(t, Running).(lock := None), r := TakeReport(s.r))
  }

  predicate CanWake(s: State, t: Tid) { t in s.c.pc && s.c.pc[t].Waiting? }

  function DoWake(s: State, t: Tid): State
    requires CanWake(s, t)
  {
    s.(c := s.c.Put(t, Woken(s.c.pc[t].want)))
  }

  predicate CanReacquire(s: State, t: Tid) { t in s.c.pc && s.c.pc[t].Woken? && s.c.lock == None }

  function DoReacquire(s: State, t: Tid): State
    requires CanReacquire(s, t)
  {
    s.(c := s.c.Put(t, Testing(s.c.pc[t].want)).(lock := Some(t)))
  }

  /** broadcast takes the lock and sets out over the list of workers. */
  function DoBeginBroadcast(s: State, t: Tid, message: Message): State {
    s.(c := s.c.Put(t, Sending(message, s.m.queue.Keys)).(lock := Some(t)),
       m := s.m.(log := s.m.log + [Entry(t, message)]))
  }

  /** One round of the loop in broadcast: enqueue, except on the sender's own worker. */
  predicate CanVisit(s: State, t: Tid, w: Tid) {
    t in s.c.pc && s.c.pc[t].Sending? && w in s.c.pc[t].rest && w in s.m.queue
  }

  function DoVisit(s: State, t: Tid, w: Tid): State
    requires CanVisit(s, t, w)
  {
    var Sending(message, rest) := s.c.pc[t];
    s.(c := s.c.Put(t, Sending(message, rest - {w})),
       m := if w == t then s.m else s.m.(queue := s.m.queue[w := s.m.queue[w] + [message]]))
  }

  function DoBeginReport(s: State, t: Tid, report: string): State {
    s.(c := s.c.Put(t, MustNotify).(lock := Some(t)),
       r := s.r.(pending := s.r.pending + [report], log := s.r.log + [report]))
  }

  /** notifyAll, upon which everyone in the wait set leaves it, and the lock is released. */
  predicate CanNotify(s: State, t: Tid) {
    t in s.c.pc && (s.c.pc[t] == MustNotify || (s.c.pc[t].Sending? && s.c.pc[t].rest == {}))
  }

  function WakeAll(pc: map<Tid, Pc>): map<Tid, Pc> {
    map u | u in pc :: if pc[u].Waiting? then Woken(pc[u].want) else pc[u]
  }

  function DoNotify(s: State, t: Tid): State {
    s.(c := Control(None, WakeAll(s.c.pc)[t := Running]))
  }

  function DoTryGetReport(s: State, t: Tid): State {
    if s.r.pending == [] then s else s.(r := TakeReport(s.r))
  }

  /** The destructor of Worker. */
  function DoExit(s: State, t: Tid): State {
    s.(c := s.c.Put(t, Exited), m := s.m.(queue := s.m.queue - {t}))
  }

  /** May the step be taken?  Taking the lock needs it free; everything else is up to the thread. */
  predicate Enabled(s: State, step: Step) {
    match step
    case Spawn(t, child) => CanSpawn(s, t, child)
    case Register(t) => CanRegister(s, t)
    case Signal(t, wakes) => CanSignal(s, t, wakes)
    case TestStart(t) => CanTestStart(s, t)
    case WakeStart(t) => CanWakeStart(s, t)
    case BeginWait(t, want) => s.c.MayLock(t)
    case Dequeue(t) => CanDequeue(s, t)
    case Collect(t) => CanCollect(s, t)
    case Wake(t) => CanWake(s, t)
    case Reacquire(t) => CanReacquire(s, t)
    case BeginBroadcast(t, message) => s.c.MayLock(t)
    case Visit(t, w) => CanVisit(s, t, w)
    case BeginReport(t, report) => s.c.MayLock(t)
    case Notify(t) => CanNotify(s, t)
    case TryGetReport(t) => s.c.MayLock(t)
    case Exit(t) => s.c.MayLock(t)
  }

  function Apply(s: State, step: Step): State
    requires Enabled(s, step)
  {
    match step
    case Spawn(t, child) => DoSpawn(s, t, child)
    case Register(t) => DoRegister(s, t)
    case Signal(t, wakes) => DoSignal(s, t, wakes)
    case TestStart(t) => DoTestStart(s, t)
    case WakeStart(t) => DoWakeStart(s, t)
    case BeginWait(t, want) => DoBeginWait(s, t, want)
    case Dequeue(t) => DoDequeue(s, t)
    case Collect(t) => DoCollect(s, t)
    case Wake(t) => DoWake(s, t)
    case Reacquire(t) => DoReacquire(s, t)
    case BeginBroadcast(t, message) => DoBeginBroadcast(s, t, message)
    case Visit(t, w) => DoVisit(s, t, w)
    case BeginReport(t, report) => DoBeginReport(s, t, report)
    case Notify(t) => DoNotify(s, t)
    case TryGetReport(t) => DoTryGetReport(s, t)
    case Exit(t) => DoExit(s, t)
  }

  /** A run: steps taken one after another, each when it was enabled. */
  ghost predicate Reaches(s: State, steps: seq<Step>, end: State)
    decreases |steps|
  {
    if steps == [] then s == end
    else Enabled(s, steps[0]) && Reaches(Apply(s, steps[0]), steps[1..], end)
  }

  // ----- the invariant -----

  predicate Holds(pc: Pc) { pc.Testing? || pc.Sending? || pc.MustNotify? }

  /** Whoever is inside a critical section holds the lock, and only they do. */
  ghost predicate LockInv(c: Control) {
    && (c.lock.Some? ==> c.lock.value in c.pc && Holds(c.pc[c.lock.value]))
    && (forall t :: t in c.pc && Holds(c.pc[t]) ==> c.lock == Some(t))
  }

  predicate Alive(pc: Pc) { pc != Booting && pc != Exited }

  /** The workers on the list are those of the registered, unfinished threads. */
  ghost predicate WorkersInv(c: Control, m: Mail) {
    && (forall t :: t in m.queue <==> t in c.pc && Alive(c.pc[t]))
    && (forall t :: t in m.joined <==> t in c.pc && c.pc[t] != Booting)
    && (forall t :: t in m.taken <==> t in m.joined)
    && (forall t :: t in m.joined ==> m.joined[t] <= |m.log|)
    && (c.Holder().Sending? ==> forall w :: w in c.Holder().rest ==> w in m.queue)
  }

  /** The messages of the log from a point on, without a worker's own. */
  function Visible(log: seq<Entry>, from: nat, t: Tid): seq<Message> {
    if |log| <= from then [] else
      var e := log[|log| - 1];
      Visible(log[..|log| - 1], from, t) + (if e.sender == t then [] else [e.message])
  }

  /** What a broadcast under way still has to deliver to t. */
  function InFlight(c: Control, t: Tid): seq<Message> {
    if c.Holder().Sending? && t in c.Holder().rest && c.lock != Some(t) then [c.Holder().message] else []
  }

  /** Taken, queued and still under way: together exactly what the worker is owed. */
  ghost predicate DeliveryInv(c: Control, m: Mail) {
    && (forall t :: t in m.queue && t in m.taken && t in m.joined ==>
          m.taken[t] + m.queue[t] + InFlight(c, t) == Visible(m.log, m.joined[t], t))
    && (forall t :: t in m.taken && t in m.joined ==> m.taken[t] <= Visible(m.log, m.joined[t], t))
  }

  ghost predicate ReportInv(r: Reports) { r.taken + r.pending == r.log }

  /** Is what a waiting thread waits for there? */
  predicate Satisfied(m: Mail, r: Reports, t: Tid, want: Want) {
    match want
    case AMessage => t in m.queue && m.queue[t] != []
    case AReport => r.pending != []
  }

  predicate WillNotify(c: Control) { c.Holder().Sending? || c.Holder().MustNotify? }

  /** Nobody waits for something that is there, unless a notification is on its way. */
  ghost predicate WakeupInv(c: Control, m: Mail, r: Reports) {
    forall t :: t in c.pc && c.pc[t].Waiting? && Satisfied(m, r, t, c.pc[t].want) ==> WillNotify(c)
  }

  predicate InStart(pc: Pc) { pc.Starting? || pc.AwaitingStart? }

  /** The start handshake: only a registered agent signals, only its starter waits
      for it, and nobody waits for a signal that was given. */
  ghost predicate StartInv(c: Control, m: Mail, b: Starts) {
    && (forall a :: a in b.didStart ==> a in m.joined)
    && (forall p :: p in c.pc && InStart(c.pc[p]) ==> c.pc[p].child in b.starter && b.starter[c.pc[p].child] == p)
    && (forall p :: p in c.pc && c.pc[p].AwaitingStart? ==> c.pc[p].child !in b.didStart)
    && (forall a :: a in b.starter ==> a in c.pc)
    && (forall a :: a in b.returned ==> a in m.joined && m.joined[a] <= b.returned[a] <= |m.log|)
  }

  ghost predicate Inv(s: State) {
    && LockInv(s.c) && WorkersInv(s.c, s.m) && DeliveryInv(s.c, s.m)
    && ReportInv(s.r) && WakeupInv(s.c, s.m, s.r) && StartInv(s.c, s.m, s.b)
  }

  lemma InitialInv(main: Tid)
    ensures Inv(Initial(main))
  {
  }

  // ----- what a thread can do without upsetting each part -----

  /** Moving on outside, into, inside or out of a critical section keeps the lock in order. */
  lemma LockKept(c: Control, t: Tid, p: Pc, lock: Option<Tid>)
    requires LockInv(c)
    requires c.lock == None || c.lock == Some(t) || (lock == c.lock && !Holds(p))
    requires c.lock == None || c.lock == Some(t) ==> lock == if Holds(p) then Some(t) else None
    ensures LockInv(c.Put(t, p).(lock := lock))
  {
  }

  lemma WorkersKept(c: Control, m: Mail, t: Tid, p: Pc, lock: Option<Tid>)
    requires WorkersInv(c, m) && t in c.pc && Alive(c.pc[t]) && Alive(p)
    requires var c' := c.Put(t, p).(lock := lock);
      c'.Holder().Sending? ==> forall w :: w in c'.Holder().rest ==> w in m.queue
    ensures WorkersInv(c.Put(t, p).(lock := lock), m)
  {
  }

  /** Deliveries only depend on what a broadcast under way has left to do. */
  lemma DeliveryKept(c: Control, c': Control, m: Mail)
    requires DeliveryInv(c, m)
    requires (c'.lock == c.lock && c'.Holder() == c.Holder()) || (Delivered(c) && Delivered(c'))
    ensures DeliveryInv(c', m)
  {
  }

  predicate Delivered(c: Control) { c.Holder().Sending? ==> c.Holder().rest == {} }

  /** Taking things away, and waiting only for what is not there, loses no wakeup. */
  lemma WakeupKept(c: Control, m: Mail, r: Reports, t: Tid, p: Pc, lock: Option<Tid>, m': Mail, r': Reports)
    requires WakeupInv(c, m, r)
    requires forall u, want | u != t :: Satisfied(m', r', u, want) ==> Satisfied(m, r, u, want)
    requires p.Waiting? ==> !Satisfied(m', r', t, p.want)
    requires WillNotify(c) ==> WillNotify(c.Put(t, p).(lock := lock))
    ensures WakeupInv(c.Put(t, p).(lock := lock), m', r')
  {
  }

  lemma StartKept(c: Control, m: Mail, b: Starts, t: Tid, p: Pc, lock: Option<Tid>)
    requires StartInv(c, m, b) && !InStart(p)
    ensures StartInv(c.Put(t, p).(lock := lock), m, b)
  {
  }

  /** A registered thread moves on, and nothing but its own place and the lock changes. */
  lemma MoveKeeps(s: State, t: Tid, p: Pc, lock: Option<Tid>)
    requires Inv(s) && t in s.c.pc && Alive(s.c.pc[t]) && !WillNotify(s.c.(lock := Some(t)))
    requires Alive(p) && !InStart(p) && !p.Sending?
    requires s.c.lock == None || s.c.lock == Some(t) || (lock == s.c.lock && !Holds(p))
    requires s.c.lock == None || s.c.lock == Some(t) ==> lock == if Holds(p) then Some(t) else None
    requires p.Waiting? ==> !Satisfied(s.m, s.r, t, p.want)
    ensures Inv(s.(c := s.c.Put(t, p).(lock := lock)))
  {
    LockKept(s.c, t, p, lock);
    WorkersKept(s.c, s.m, t, p, lock);
    DeliveryKept(s.c, s.c.Put(t, p).(lock := lock), s.m);
    WakeupKept(s.c, s.m, s.r, t, p, lock, s.m, s.r);
    StartKept(s.c, s.m, s.b, t, p, lock);
  }

  lemma SpawnWorkers(s: State, t: Tid, child: Tid)
    requires WorkersInv(s.c, s.m) && CanSpawn(s, t, child) && LockInv(s.c)
    ensures WorkersInv(DoSpawn(s, t, child).c, s.m)
  {
  }

  lemma SpawnStart(s: State, t: Tid, child: Tid)
    requires StartInv(s.c, s.m, s.b) && CanSpawn(s, t, child) && WorkersInv(s.c, s.m)
    ensures StartInv(DoSpawn(s, t, child).c, s.m, DoSpawn(s, t, child).b)
  {
  }

  lemma SpawnKeeps(s: State, t: Tid, child: Tid)
    requires Inv(s) && CanSpawn(s, t, child)
    ensures Inv(DoSpawn(s, t, child))
  {
    var c := s.c.Put(child, Booting);
    LockKept(s.c, child, Booting, s.c.lock);
    LockKept(c, t, Starting(child), c.lock);
    DeliveryKept(s.c, DoSpawn(s, t, child).c, s.m);
    WakeupKept(s.c, s.m, s.r, child, Booting, s.c.lock, s.m, s.r);
    WakeupKept(c, s.m, s.r, t, Starting(child), c.lock, s.m, s.r);
    SpawnWorkers(s, t, child);
    SpawnStart(s, t, child);
  }

  lemma RegisterWorkers(s: State, t: Tid)
    requires LockInv(s.c) && WorkersInv(s.c, s.m) && CanRegister(s, t)
    ensures WorkersInv(DoRegister(s, t).c, DoRegister(s, t).m)
  {
  }

  lemma RegisterDelivers(s: State, t: Tid)
    requires LockInv(s.c) && DeliveryInv(s.c, s.m) && CanRegister(s, t)
    ensures DeliveryInv(DoRegister(s, t).c, DoRegister(s, t).m)
  {
  }

  lemma RegisterStart(s: State, t: Tid)
    requires WorkersInv(s.c, s.m) && StartInv(s.c, s.m, s.b) && CanRegister(s, t)
    ensures StartInv(DoRegister(s, t).c, DoRegister(s, t).m, s.b)
  {
  }

  lemma RegisterKeeps(s: State, t: Tid)
    requires Inv(s) && CanRegister(s, t)
    ensures Inv(DoRegister(s, t))
  {
    var s' := DoRegister(s, t);
    LockKept(s.c, t, s'.c.pc[t], None);
    WakeupKept(s.c, s.m, s.r, t, s'.c.pc[t], None, s'.m, s.r);
    RegisterWorkers(s, t);
    RegisterDelivers(s, t);
    RegisterStart(s, t);
  }

  lemma SignalGiven(c: Control, m: Mail, b: Starts, t: Tid)
    requires StartInv(c, m, b) && t in m.joined && forall w :: w in c.pc ==> c.pc[w] != AwaitingStart(t)
    ensures StartInv(c, m, b.(didStart := b.didStart + {t}))
  {
  }

  lemma SignalKeeps(s: State, t: Tid)
    requires Inv(s) && CanSignal(s, t, None)
    ensures Inv(DoSignal(s, t, None))
  {
    var u := DoSignal(s, t, None);
    MoveKeeps(s, t, Running, s.c.lock);
    assert u.c == s.c.Put(t, Running).(lock := s.c.lock) && u.m == s.m && u.r == s.r;
    SignalGiven(u.c, s.m, s.b, t);
  }

  /** A signal that wakes the starter is a wakeup followed by a signal that finds nobody waiting. */
  lemma SignalWakes(s: State, t: Tid, w: Tid)
    requires StartInv(s.c, s.m, s.b) && CanSignal(s, t, Some(w))
    ensures CanWakeStart(s, w) && CanSignal(DoWakeStart(s, w), t, None)
    ensures DoSignal(DoWakeStart(s, w), t, None) == DoSignal(s, t, Some(w))
  {
    forall u | u in s.c.pc && s.c.pc[u] == AwaitingStart(t) ensures u == w {
      assert s.b.starter[s.c.pc[u].child] == u && s.b.starter[s.c.pc[w].child] == w;
    }
    assert s.c.pc[w := Starting(t)][t := Running] == s.c.pc[t := Running][w := Starting(t)];
  }

  lemma StartReturns(c: Control, m: Mail, b: Starts, child: Tid)
    requires WorkersInv(c, m) && StartInv(c, m, b) && child in b.didStart
    ensures StartInv(c, m, b.(returned := b.returned[child := |m.log|]))
  {
  }

  lemma TestStartKeeps(s: State, t: Tid)
    requires Inv(s) && CanTestStart(s, t)
    ensures Inv(DoTestStart(s, t))
  {
    if s.c.pc[t].child in s.b.didStart {
      MoveKeeps(s, t, Running, s.c.lock);
      StartReturns(DoTestStart(s, t).c, s.m, s.b, s.c.pc[t].child);
    } else {
      StayInStart(s, t, AwaitingStart(s.c.pc[t].child));
    }
  }

  lemma StartStays(c: Control, m: Mail, b: Starts, t: Tid, p: Pc)
    requires StartInv(c, m, b) && t in c.pc && InStart(c.pc[t]) && InStart(p) && p.child == c.pc[t].child
    requires p.AwaitingStart? ==> p.child !in b.didStart
    ensures StartInv(c.Put(t, p), m, b)
  {
  }

  /** A thread in agent.start goes from testing to waiting or back. */
  lemma StayInStart(s: State, t: Tid, p: Pc)
    requires Inv(s) && t in s.c.pc && InStart(s.c.pc[t]) && InStart(p) && p.child == s.c.pc[t].child
    requires p.AwaitingStart? ==> p.child !in s.b.didStart
    ensures Inv(s.(c := s.c.Put(t, p)))
  {
    LockKept(s.c, t, p, s.c.lock);
    WorkersKept(s.c, s.m, t, p, s.c.lock);
    DeliveryKept(s.c, s.c.Put(t, p), s.m);
    WakeupKept(s.c, s.m, s.r, t, p, s.c.lock, s.m, s.r);
    StartStays(s.c, s.m, s.b, t, p);
  }

  lemma WakeStartKeeps(s: State, t: Tid)
    requires Inv(s) && CanWakeStart(s, t)
    ensures Inv(DoWakeStart(s, t))
  {
    StayInStart(s, t, Starting(s.c.pc[t].child));
  }

  /** What moves from queued to taken is still what was owed. */
  lemma TakingDelivers(c: Control, m: Mail, t: Tid)
    requires WorkersInv(c, m) && DeliveryInv(c, m) && t in m.queue && t in m.taken && m.queue[t] != []
    ensures DeliveryInv(c, TakeFirst(m, t)) && WorkersInv(c, TakeFirst(m, t))
  {
    var q := m.queue[t];
    assert m.taken[t] + [q[0]] + q[1..] + InFlight(c, t) == m.taken[t] + q + InFlight(c, t);
  }

  lemma DequeueKeeps(s: State, t: Tid)
    requires Inv(s) && CanDequeue(s, t)
    ensures Inv(DoDequeue(s, t))
  {
    if s.m.queue[t] == [] {
      MoveKeeps(s, t, Waiting(AMessage), None);
    } else {
      MoveKeeps(s, t, Running, None);
      TakingKeeps(s.(c := s.c.Put(t, Running).(lock := None)), t);
    }
  }

  lemma TakingWakes(c: Control, m: Mail, r: Reports, t: Tid)
    requires WakeupInv(c, m, r) && c.At(t, Running) && t in m.queue && t in m.taken && m.queue[t] != []
    ensures WakeupInv(c, TakeFirst(m, t), r)
  {
  }

  lemma TakingStarts(c: Control, m: Mail, b: Starts, t: Tid)
    requires StartInv(c, m, b) && t in m.queue && t in m.taken && m.queue[t] != []
    ensures StartInv(c, TakeFirst(m, t), b)
  {
  }

  lemma TakingKeeps(s: State, t: Tid)
    requires Inv(s) && s.c.At(t, Running) && t in s.m.queue && t in s.m.taken && s.m.queue[t] != []
    ensures Inv(s.(m := TakeFirst(s.m, t)))
  {
    TakingDelivers(s.c, s.m, t);
    TakingWakes(s.c, s.m, s.r, t);
    TakingStarts(s.c, s.m, s.b, t);
  }

  lemma CollectKeeps(s: State, t: Tid)
    requires Inv(s) && CanCollect(s, t)
    ensures Inv(DoCollect(s, t))
  {
    if s.r.pending == [] {
      MoveKeeps(s, t, Waiting(AReport), None);
    } else {
      MoveKeeps(s, t, Running, None);
      ReportTaken(s.(c := s.c.Put(t, Running).(lock := None)));
    }
  }

  lemma ReportTaken(s: State)
    requires Inv(s) && s.r.pending != []
    ensures Inv(s.(r := TakeReport(s.r)))
  {
  }

  lemma {:induction false} VisibleGrows(log: seq<Entry>, e: Entry, from: nat, t: Tid)
    requires from <= |log|
    ensures Visible(log + [e], from, t) == Visible(log, from, t) + (if e.sender == t then [] else [e.message])
  {
    assert (log + [e])[..|log|] == log;
  }

  /** Logging a broadcast puts it in flight to everyone else on the list. */
  lemma BroadcastDelivers(s: State, t: Tid, message: Message)
    requires WorkersInv(s.c, s.m) && DeliveryInv(s.c, s.m) && s.c.MayLock(t)
    ensures DeliveryInv(DoBeginBroadcast(s, t, message).c, DoBeginBroadcast(s, t, message).m)
  {
    forall u | u in s.m.joined
      ensures Visible(s.m.log + [Entry(t, message)], s.m.joined[u], u)
           == Visible(s.m.log, s.m.joined[u], u) + (if t == u then [] else [message])
    {
      VisibleGrows(s.m.log, Entry(t, message), s.m.joined[u], u);
    }
  }

  lemma LogGrows(c: Control, m: Mail, b: Starts, e: Entry)
    requires WorkersInv(c, m) && StartInv(c, m, b)
    ensures WorkersInv(c, m.(log := m.log + [e])) && StartInv(c, m.(log := m.log + [e]), b)
  {
  }

  lemma BeginBroadcastKeeps(s: State, t: Tid, message: Message)
    requires Inv(s) && s.c.MayLock(t)
    ensures Inv(DoBeginBroadcast(s, t, message))
  {
    var p, m := Sending(message, s.m.queue.Keys), DoBeginBroadcast(s, t, message).m;
    LockKept(s.c, t, p, Some(t));
    WorkersKept(s.c, s.m, t, p, Some(t));
    StartKept(s.c, s.m, s.b, t, p, Some(t));
    LogGrows(s.c.Put(t, p).(lock := Some(t)), s.m, s.b, Entry(t, message));
    BroadcastDelivers(s, t, message);
  }

  lemma VisitDelivers(s: State, t: Tid, w: Tid)
    requires LockInv(s.c) && DeliveryInv(s.c, s.m) && CanVisit(s, t, w)
    ensures DeliveryInv(DoVisit(s, t, w).c, DoVisit(s, t, w).m)
  {
    var c', m := DoVisit(s, t, w).c, DoVisit(s, t, w).m;
    forall u | u in m.queue && u in m.taken && u in m.joined
      ensures m.taken[u] + m.queue[u] + InFlight(c', u) == Visible(m.log, m.joined[u], u)
    {
      assert s.m.taken[u] + s.m.queue[u] + InFlight(s.c, u) == Visible(m.log, m.joined[u], u);
    }
  }

  lemma VisitKeeps(s: State, t: Tid, w: Tid)
    requires Inv(s) && CanVisit(s, t, w)
    ensures Inv(DoVisit(s, t, w))
  {
    var s' := DoVisit(s, t, w);
    LockKept(s.c, t, s'.c.pc[t], Some(t));
    WorkersKept(s.c, s.m, t, s'.c.pc[t], Some(t));
    StartKept(s.c, s.m, s.b, t, s'.c.pc[t], Some(t));
    VisitDelivers(s, t, w);
  }

  lemma BeginReportKeeps(s: State, t: Tid, report: string)
    requires Inv(s) && s.c.MayLock(t)
    ensures Inv(DoBeginReport(s, t, report))
  {
    MoveKeeps(s, t, MustNotify, Some(t));
  }

  lemma NotifyLock(s: State, t: Tid)
    requires LockInv(s.c) && CanNotify(s, t)
    ensures LockInv(DoNotify(s, t).c) && WakeupInv(DoNotify(s, t).c, s.m, s.r)
  {
  }

  lemma NotifyWorkers(s: State, t: Tid)
    requires WorkersInv(s.c, s.m) && CanNotify(s, t)
    ensures WorkersInv(DoNotify(s, t).c, s.m)
  {
  }

  lemma NotifyStart(s: State, t: Tid)
    requires StartInv(s.c, s.m, s.b) && CanNotify(s, t)
    ensures StartInv(DoNotify(s, t).c, s.m, s.b)
  {
  }

  lemma NotifyKeeps(s: State, t: Tid)
    requires Inv(s) && CanNotify(s, t)
    ensures Inv(DoNotify(s, t))
  {
    NotifyLock(s, t);
    NotifyWorkers(s, t);
    NotifyStart(s, t);
    DeliveryKept(s.c, DoNotify(s, t).c, s.m);
  }

  lemma ExitWorkers(s: State, t: Tid)
    requires LockInv(s.c) && WorkersInv(s.c, s.m) && s.c.MayLock(t)
    ensures WorkersInv(DoExit(s, t).c, DoExit(s, t).m)
  {
  }

  lemma ExitDelivers(s: State, t: Tid)
    requires DeliveryInv(s.c, s.m) && s.c.MayLock(t)
    ensures DeliveryInv(DoExit(s, t).c, DoExit(s, t).m)
  {
  }

  lemma ExitKeeps(s: State, t: Tid)
    requires Inv(s) && s.c.MayLock(t)
    ensures Inv(DoExit(s, t))
  {
    LockKept(s.c, t, Exited, None);
    WakeupKept(s.c, s.m, s.r, t, Exited, None, DoExit(s, t).m, s.r);
    StartKept(s.c, s.m, s.b, t, Exited, None);
    ExitWorkers(s, t);
    ExitDelivers(s, t);
  }

  lemma SignalAnyKeeps(s: State, t: Tid, wakes: Option<Tid>)
    requires Inv(s) && CanSignal(s, t, wakes)
    ensures Inv(DoSignal(s, t, wakes))
  {
    match wakes
    case None => SignalKeeps(s, t);
    case Some(w) =>
      SignalWakes(s, t, w);
      WakeStartKeeps(s, w);
      SignalKeeps(DoWakeStart(s, w), t);
  }

  lemma BeginWaitKeeps(s: State, t: Tid, want: Want)
    requires Inv(s) && s.c.MayLock(t)
    ensures Inv(DoBeginWait(s, t, want))
  {
    MoveKeeps(s, t, Testing(want), Some(t));
  }

  lemma WakeKeeps(s: State, t: Tid)
    requires Inv(s) && CanWake(s, t)
    ensures Inv(DoWake(s, t))
  {
    MoveKeeps(s, t, Woken(s.c.pc[t].want), s.c.lock);
  }

  lemma ReacquireKeeps(s: State, t: Tid)
    requires Inv(s) && CanReacquire(s, t)
    ensures Inv(DoReacquire(s, t))
  {
    MoveKeeps(s, t, Testing(s.c.pc[t].want), Some(t));
  }

  lemma TryGetReportKeeps(s: State, t: Tid)
    requires Inv(s)
    ensures Inv(DoTryGetReport(s, t))
  {
    if s.r.pending != [] {
      ReportTaken(s);
    }
  }

  lemma StepKeeps(s: State, step: Step)
    requires Inv(s) && Enabled(s, step)
    ensures Inv(Apply(s, step))
  {
    match step
    case Spawn(t, child) => SpawnKeeps(s, t, child);
    case Register(t) => RegisterKeeps(s, t);
    case Signal(t, wakes) => SignalAnyKeeps(s, t, wakes);
    case TestStart(t) => TestStartKeeps(s, t);
    case WakeStart(t) => WakeStartKeeps(s, t);
    case BeginWait(t, want) => BeginWaitKeeps(s, t, want);
    case Dequeue(t) => DequeueKeeps(s, t);
    case Collect(t) => CollectKeeps(s, t);
    case Wake(t) => WakeKeeps(s, t);
    case Reacquire(t) => ReacquireKeeps(s, t);
    case BeginBroadcast(t, message) => BeginBroadcastKeeps(s, t, message);
    case Visit(t, w) => VisitKeeps(s, t, w);
    case BeginReport(t, report) => BeginReportKeeps(s, t, report);
    case Notify(t) => NotifyKeeps(s, t);
    case TryGetReport(t) => TryGetReportKeeps(s, t);
    case Exit(t) => ExitKeeps(s, t);
  }

  // ----- whole runs -----

  lemma {:induction false} RunKeeps(s: State, steps: seq<Step>, end: State)
    requires Inv(s) && Reaches(s, steps, end)
    ensures Inv(end)
    decreases |steps|
  {
    if steps != [] {
      StepKeeps(s, steps[0]);
      RunKeeps(Apply(s, steps[0]), steps[1..], end);
    }
  }

  ghost predicate Reachable(main: Tid, s: State) {
    exists steps :: Reaches(Initial(main), steps, s)
  }

  lemma ReachableInv(main: Tid, s: State)
    requires Reachable(main, s)
    ensures Inv(s)
  {
    InitialInv(main);
    var steps :| Reaches(Initial(main), steps, s);
    RunKeeps(Initial(main), steps, s);
  }

  // ----- what every run guarantees -----

  /** Where in the log the messages owed to t are. */
  function Positions(log: seq<Entry>, from: nat, t: Tid): seq<nat> {
    if |log| <= from then [] else
      Positions(log[..|log| - 1], from, t) + (if log[|log| - 1].sender == t then [] else [|log| - 1])
  }

  /** They are the positions from that point on that are not t's own, in increasing order. */
  lemma {:induction false} PositionsExact(log: seq<Entry>, from: nat, t: Tid)
    ensures forall p :: p in Positions(log, from, t) <==> from <= p < |log| && log[p].sender != t
    ensures forall i, j :: 0 <= i < j < |Positions(log, from, t)| ==>
      Positions(log, from, t)[i] < Positions(log, from, t)[j]
  {
    if |log| > from {
      var rest := log[..|log| - 1];
      PositionsExact(rest, from, t);
      var ps := Positions(rest, from, t);
      forall i | 0 <= i < |ps| ensures ps[i] < |rest| {
        assert ps[i] in ps;
      }
    }
  }

  lemma {:induction false} VisibleAt(log: seq<Entry>, from: nat, t: Tid)
    ensures |Visible(log, from, t)| == |Positions(log, from, t)|
    ensures forall i :: 0 <= i < |Positions(log, from, t)| ==>
      Positions(log, from, t)[i] < |log| && Visible(log, from, t)[i] == log[Positions(log, from, t)[i]].message
  {
    if |log| > from {
      VisibleAt(log[..|log| - 1], from, t);
    }
  }

  /** With the lock free, what a registered worker has taken followed by what is
      queued for it is the broadcast log since it registered, minus its own. */
  lemma DeliveredExactly(main: Tid, s: State, t: Tid)
    requires Reachable(main, s) && s.c.lock == None && t in s.m.queue
    ensures t in s.m.taken && t in s.m.joined
    ensures s.m.taken[t] + s.m.queue[t] == Visible(s.m.log, s.m.joined[t], t)
  {
    ReachableInv(main, s);
    assert s.m.taken[t] + s.m.queue[t] + [] == s.m.taken[t] + s.m.queue[t];
  }

  /** At any time, and after it has exited, the i-th message a worker took is the
      i-th log entry it was owed: nothing is skipped, repeated or reordered. */
  lemma TakenInOrder(main: Tid, s: State, t: Tid, i: nat)
    requires Reachable(main, s) && t in s.m.taken && i < |s.m.taken[t]|
    ensures t in s.m.joined && i < |Positions(s.m.log, s.m.joined[t], t)|
    ensures Positions(s.m.log, s.m.joined[t], t)[i] < |s.m.log|
    ensures s.m.taken[t][i] == s.m.log[Positions(s.m.log, s.m.joined[t], t)[i]].message
  {
    ReachableInv(main, s);
    VisibleAt(s.m.log, s.m.joined[t], t);
  }

  lemma PositionsInOrder(log: seq<Entry>, from: nat, u: Tid, from': nat, v: Tid, i: nat, j: nat, i': nat, j': nat)
    requires i < |Positions(log, from, u)| && j < |Positions(log, from, u)|
    requires i' < |Positions(log, from', v)| && j' < |Positions(log, from', v)|
    requires Positions(log, from, u)[i] == Positions(log, from', v)[i']
    requires Positions(log, from, u)[j] == Positions(log, from', v)[j']
    ensures i < j <==> i' < j'
  {
    PositionsExact(log, from, u);
    PositionsExact(log, from', v);
    var ps, qs := Positions(log, from, u), Positions(log, from', v);
    assert i < j <==> ps[i] < ps[j];
    assert i' < j' <==> qs[i'] < qs[j'];
  }

  /** The broadcast that a worker's i-th message is. */
  ghost function BroadcastOf(m: Mail, t: Tid, i: nat): nat {
    if t in m.joined && i < |Positions(m.log, m.joined[t], t)| then Positions(m.log, m.joined[t], t)[i] else |m.log|
  }

  /** Any two workers take the broadcasts they share in the same order: where their messages are the same
      broadcasts, they are the same messages, and one comes before the other at both workers or at neither. */
  lemma OneTotalOrder(main: Tid, s: State, u: Tid, v: Tid, i: nat, j: nat, i': nat, j': nat)
    requires Reachable(main, s) && u in s.m.taken && v in s.m.taken
    requires i < |s.m.taken[u]| && j < |s.m.taken[u]| && i' < |s.m.taken[v]| && j' < |s.m.taken[v]|
    requires BroadcastOf(s.m, u, i) == BroadcastOf(s.m, v, i') && BroadcastOf(s.m, u, j) == BroadcastOf(s.m, v, j')
    ensures s.m.taken[u][i] == s.m.taken[v][i'] && s.m.taken[u][j] == s.m.taken[v][j']
    ensures i < j <==> i' < j'
  {
    TakenInOrder(main, s, u, i);
    TakenInOrder(main, s, u, j);
    TakenInOrder(main, s, v, i');
    TakenInOrder(main, s, v, j');
    PositionsInOrder(s.m.log, s.m.joined[u], u, s.m.joined[v], v, i, j, i', j');
  }

  /** No lost wakeups: with the lock free, nobody waits for something that is there. */
  lemma NoLostWakeups(main: Tid, s: State, t: Tid)
    requires Reachable(main, s) && t in s.c.pc
    ensures s.c.lock == None && s.c.pc[t].Waiting? ==> !Satisfied(s.m, s.r, t, s.c.pc[t].want)
    ensures s.c.pc[t].AwaitingStart? ==> s.c.pc[t].child !in s.b.didStart
  {
    ReachableInv(main, s);
  }

  /** Reports are taken once each, first in, first out. */
  lemma ReportsInOrder(main: Tid, s: State)
    requires Reachable(main, s)
    ensures s.r.taken + s.r.pending == s.r.log
  {
    ReachableInv(main, s);
  }

  /** Once agent.start has returned, the agent was registered, so it is owed every
      broadcast from then on except its own. */
  lemma StartedIsListening(main: Tid, s: State, a: Tid, p: nat)
    requires Reachable(main, s) && a in s.b.returned
    ensures a in s.m.joined && s.m.joined[a] <= s.b.returned[a]
    ensures s.b.returned[a] <= p < |s.m.log| && s.m.log[p].sender != a ==> p in Positions(s.m.log, s.m.joined[a], a)
  {
    ReachableInv(main, s);
    PositionsExact(s.m.log, s.m.joined[a], a);
  }

  /** Whoever holds the lock can go on, so the lock is never held up. */
  lemma HolderProceeds(main: Tid, s: State) returns (step: Step)
    requires Reachable(main, s) && s.c.lock.Some?
    ensures step.t == s.c.lock.value && Enabled(s, step)
  {
    ReachableInv(main, s);
    var t := s.c.lock.value;
    match s.c.pc[t] {
      case Testing(AMessage) => step := Dequeue(t);
      case Testing(AReport) => step := Collect(t);
      case Sending(_, rest) =>
        if rest == {} {
          step := Notify(t);
        } else {
          var w :| w in rest;
          step := Visit(t, w);
        }
      case MustNotify => step := Notify(t);
    }
  }
}
