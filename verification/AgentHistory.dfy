/** What the agents' state says about the steps that led to it: nothing here looks at how a step is carried out. */
module AgentHistory {
  import opened Wrappers
  import opened Agents

  // ----- told from the steps alone -----

  /** What a step adds to the histories. */
  function Broadcast(step: Step): seq<Entry> {
    if step.BeginBroadcast? then [Entry(step.t, step.message)] else []
  }

  function Report(step: Step): seq<string> { if step.BeginReport? then [step.report] else [] }

  /** The broadcasts begun, in order. */
  function Broadcasts(steps: seq<Step>): seq<Entry> {
    if steps == [] then [] else
      Broadcast(steps[0]) + Broadcasts(steps[1..])
  }

  /** The reports made, in order. */
  function ReportsMade(steps: seq<Step>): seq<string> {
    if steps == [] then [] else
      Report(steps[0]) + ReportsMade(steps[1..])
  }

  /** Has a signalled? */
  ghost predicate Signalled(steps: seq<Step>, a: Tid) {
    exists i :: 0 <= i < |steps| && steps[i].Signal? && steps[i].t == a
  }

  /** Did p start a? */
  ghost predicate Spawned(steps: seq<Step>, a: Tid, p: Tid) { Spawn(p, a) in steps }

  predicate StarterIs(b: Starts, a: Tid, p: Tid) { a in b.starter && b.starter[a] == p }

  // ----- told from the steps and where they lead -----

  /** The step is a dequeue of t that returns. */
  predicate Dequeues(s: State, step: Step, t: Tid)
    requires Enabled(s, step)
  {
    step == Dequeue(t) && Apply(s, step).c.At(t, Running)
  }

  /** The step hands a report to whoever asked: a get that returns, or a try while there is one. */
  predicate Collects(s: State, step: Step)
    requires Enabled(s, step)
  {
    (step.Collect? && Apply(s, step).c.At(step.t, Running)) || (step.TryGetReport? && s.r.pending != [])
  }

  ghost function DequeuesIn(s: State, steps: seq<Step>, t: Tid): nat
    decreases |steps|
  {
    if steps == [] || !Enabled(s, steps[0]) then 0 else
      (if Dequeues(s, steps[0], t) then 1 else 0) + DequeuesIn(Apply(s, steps[0]), steps[1..], t)
  }

  ghost function CollectsIn(s: State, steps: seq<Step>): nat
    decreases |steps|
  {
    if steps == [] || !Enabled(s, steps[0]) then 0 else
      (if Collects(s, steps[0]) then 1 else 0) + CollectsIn(Apply(s, steps[0]), steps[1..])
  }

  function TakenBy(m: Mail, t: Tid): nat { if t in m.taken then |m.taken[t]| else 0 }

  // ----- one step -----

  /** Only a dequeue or a new worker touches what was taken. */
  lemma OthersTakeNothing(s: State, step: Step)
    requires Enabled(s, step) && !step.Dequeue? && !step.Register?
    ensures Apply(s, step).m.taken == s.m.taken
  {
  }

  lemma StepTakes(s: State, step: Step, t: Tid)
    requires WorkersInv(s.c, s.m) && Enabled(s, step)
    ensures TakenBy(Apply(s, step).m, t) == TakenBy(s.m, t) + if Dequeues(s, step, t) then 1 else 0
  {
    if !step.Dequeue? && !step.Register? {
      OthersTakeNothing(s, step);
    } else if step.Register? {
      assert step.t !in s.m.taken;
    }
  }

  lemma StepCollects(s: State, step: Step)
    requires Enabled(s, step)
    ensures |Apply(s, step).r.taken| == |s.r.taken| + if Collects(s, step) then 1 else 0
  {
  }

  lemma StepBroadcasts(s: State, step: Step)
    requires Enabled(s, step)
    ensures Apply(s, step).m.log == s.m.log + Broadcast(step)
  {
  }

  lemma StepReports(s: State, step: Step)
    requires Enabled(s, step)
    ensures Apply(s, step).r.log == s.r.log + Report(step)
  {
  }

  lemma StepSignals(s: State, step: Step, a: Tid)
    requires Enabled(s, step)
    ensures a in Apply(s, step).b.didStart <==> a in s.b.didStart || (step.Signal? && step.t == a)
  {
  }

  lemma StepStarts(s: State, step: Step, a: Tid, p: Tid)
    requires StartInv(s.c, s.m, s.b) && Enabled(s, step)
    ensures StarterIs(Apply(s, step).b, a, p) <==> StarterIs(s.b, a, p) || step == Spawn(p, a)
  {
  }

  // ----- every run -----

  /** In every run a worker has taken as many messages as its dequeues have returned. */
  lemma {:induction false} TakenFrom(s: State, steps: seq<Step>, end: State, t: Tid)
    requires Inv(s) && Reaches(s, steps, end)
    ensures TakenBy(end.m, t) == TakenBy(s.m, t) + DequeuesIn(s, steps, t)
    decreases |steps|
  {
    if steps != [] {
      StepKeeps(s, steps[0]);
      StepTakes(s, steps[0], t);
      TakenFrom(Apply(s, steps[0]), steps[1..], end, t);
    }
  }

  lemma {:induction false} CollectedFrom(s: State, steps: seq<Step>, end: State)
    requires Reaches(s, steps, end)
    ensures |end.r.taken| == |s.r.taken| + CollectsIn(s, steps)
    decreases |steps|
  {
    if steps != [] {
      StepCollects(s, steps[0]);
      CollectedFrom(Apply(s, steps[0]), steps[1..], end);
    }
  }

  /** Each dequeue that returns takes one message and each report asked for and given is one report taken, and
      nothing else is: the numbers taken are the numbers of those steps. */
  lemma EachReturnTakesOne(main: Tid, steps: seq<Step>, end: State, t: Tid)
    requires Reaches(Initial(main), steps, end)
    ensures TakenBy(end.m, t) == DequeuesIn(Initial(main), steps, t)
    ensures |end.r.taken| == CollectsIn(Initial(main), steps)
  {
    InitialInv(main);
    TakenFrom(Initial(main), steps, end, t);
    CollectedFrom(Initial(main), steps, end);
  }

  lemma {:induction false} BroadcastsFrom(s: State, steps: seq<Step>, end: State)
    requires Reaches(s, steps, end)
    ensures end.m.log == s.m.log + Broadcasts(steps)
    decreases |steps|
  {
    if steps != [] {
      BroadcastsFrom(Apply(s, steps[0]), steps[1..], end);
      StepBroadcasts(s, steps[0]);
      Regroup(s.m.log, Broadcast(steps[0]), Broadcasts(steps[1..]));
    }
  }

  lemma Regroup<T>(a: seq<T>, b: seq<T>, c: seq<T>)
    ensures a + b + c == a + (b + c)
  {
  }

  lemma {:induction false} ReportsFrom(s: State, steps: seq<Step>, end: State)
    requires Reaches(s, steps, end)
    ensures end.r.log == s.r.log + ReportsMade(steps)
    decreases |steps|
  {
    if steps != [] {
      ReportsFrom(Apply(s, steps[0]), steps[1..], end);
      StepReports(s, steps[0]);
      Regroup(s.r.log, Report(steps[0]), ReportsMade(steps[1..]));
    }
  }

  lemma SignalledFirst(steps: seq<Step>, a: Tid)
    requires steps != []
    ensures Signalled(steps, a) <==> (steps[0].Signal? && steps[0].t == a) || Signalled(steps[1..], a)
  {
    if i :| 0 <= i < |steps| && steps[i].Signal? && steps[i].t == a {
      assert i > 0 ==> steps[1..][i - 1] == steps[i];
    }
    if i :| 0 <= i < |steps[1..]| && steps[1..][i].Signal? && steps[1..][i].t == a {
      assert steps[1..][i] == steps[i + 1];
    }
  }

  lemma {:induction false} SignalsFrom(s: State, steps: seq<Step>, end: State, a: Tid)
    requires Reaches(s, steps, end)
    ensures a in end.b.didStart <==> a in s.b.didStart || Signalled(steps, a)
    decreases |steps|
  {
    if steps != [] {
      SignalsFrom(Apply(s, steps[0]), steps[1..], end, a);
      StepSignals(s, steps[0], a);
      SignalledFirst(steps, a);
    }
  }

  lemma SpawnedFirst(steps: seq<Step>, a: Tid, p: Tid)
    requires steps != []
    ensures Spawned(steps, a, p) <==> steps[0] == Spawn(p, a) || Spawned(steps[1..], a, p)
  {
    assert steps == [steps[0]] + steps[1..];
  }

  lemma {:induction false} StartedFrom(s: State, steps: seq<Step>, end: State, a: Tid, p: Tid)
    requires Inv(s) && Reaches(s, steps, end)
    ensures StarterIs(end.b, a, p) <==> StarterIs(s.b, a, p) || Spawned(steps, a, p)
    decreases |steps|
  {
    if steps != [] {
      StepKeeps(s, steps[0]);
      StartedFrom(Apply(s, steps[0]), steps[1..], end, a, p);
      StepStarts(s, steps[0], a, p);
      SpawnedFirst(steps, a, p);
    }
  }

  /** The histories are those of the run: what was broadcast and reported, in order, who has signalled, and who was
      started by whom. */
  lemma HistoryIsTold(main: Tid, steps: seq<Step>, end: State, a: Tid, p: Tid)
    requires Reaches(Initial(main), steps, end)
    ensures end.m.log == Broadcasts(steps) && end.r.log == ReportsMade(steps)
    ensures a in end.b.didStart <==> Signalled(steps, a)
    ensures StarterIs(end.b, a, p) <==> Spawned(steps, a, p)
  {
    InitialInv(main);
    BroadcastsFrom(Initial(main), steps, end);
    ReportsFrom(Initial(main), steps, end);
    SignalsFrom(Initial(main), steps, end, a);
    StartedFrom(Initial(main), steps, end, a, p);
  }

  /** In every run, one round of agent.start returns exactly if the agent has signalled, and otherwise waits. */
  lemma StartReturnsExactly(main: Tid, steps: seq<Step>, s: State, t: Tid)
    requires Reaches(Initial(main), steps, s) && Enabled(s, TestStart(t))
    ensures Apply(s, TestStart(t)).c.At(t, Running) <==> Signalled(steps, s.c.pc[t].child)
    ensures !Apply(s, TestStart(t)).c.At(t, Running) ==>
      Apply(s, TestStart(t)).c.At(t, AwaitingStart(s.c.pc[t].child))
    ensures Apply(s, TestStart(t)).c.At(t, Running) ==>
      s.c.pc[t].child in Apply(s, TestStart(t)).b.returned &&
      Apply(s, TestStart(t)).b.returned[s.c.pc[t].child] == |Broadcasts(steps)|
  {
    HistoryIsTold(main, steps, s, s.c.pc[t].child, t);
  }

  /** In every run, one round of a dequeue returns exactly if a message is queued, and otherwise waits; and likewise
      for a report. */
  lemma RoundsReturnExactly(main: Tid, s: State, t: Tid)
    requires Reachable(main, s)
    ensures Enabled(s, Dequeue(t)) ==>
      Apply(s, Dequeue(t)).c.At(t, if s.m.queue[t] != [] then Running else Waiting(AMessage))
    ensures Enabled(s, Collect(t)) ==>
      Apply(s, Collect(t)).c.At(t, if s.r.pending != [] then Running else Waiting(AReport))
  {
  }

  /** A new agent must register, and one that was started must signal before it goes on. */
  lemma StartedMustSignal(main: Tid, steps: seq<Step>, s: State, t: Tid)
    requires Reaches(Initial(main), steps, s) && Enabled(s, Register(t))
    ensures Apply(s, Register(t)).c.At(t, Registered) <==> exists p :: Spawned(steps, t, p)
    ensures Apply(s, Register(t)).c.At(t, Running) <==> forall p :: !Spawned(steps, t, p)
  {
    forall p ensures StarterIs(s.b, t, p) <==> Spawned(steps, t, p) {
      HistoryIsTold(main, steps, s, t, p);
    }
    assert t in s.b.starter ==> StarterIs(s.b, t, s.b.starter[t]);
  }
}
