/** Exactly when commands of a session that overlap can break what holds of commands in turn. */
module OverlappingCommands {
  import opened Wrappers
  import opened BrowsingContext

  // ----- runs of the commands already in flight -----

  ghost predicate NoStarts(steps: seq<Step>) { forall i :: 0 <= i < |steps| ==> !steps[i].Start? }

  lemma RunOne(s: State, step: Step)
    requires Enabled(s, step)
    ensures Runs(s, [step], Apply(s, step))
  {
    assert [step][1..] == [];
    assert Runs(Apply(s, step), [], Apply(s, step));
  }

  lemma RunFirst(s: State, step: Step, steps: seq<Step>, t: State)
    requires Enabled(s, step) && Runs(Apply(s, step), steps, t)
    ensures Runs(s, [step] + steps, t)
  {
    assert ([step] + steps)[1..] == steps;
  }

  lemma FirstOfBoth(a: seq<Step>, b: seq<Step>)
    requires a != []
    ensures a + b == [a[0]] + (a[1..] + b)
  {
  }

  lemma {:induction false} RunBoth(s: State, a: seq<Step>, t: State, b: seq<Step>, u: State)
    requires Runs(s, a, t) && Runs(t, b, u)
    ensures Runs(s, a + b, u)
    decreases |a|
  {
    if a == [] {
      assert a + b == b;
    } else {
      FirstOfBoth(a, b);
      RunBoth(Apply(s, a[0]), a[1..], t, b, u);
      RunFirst(s, a[0], a[1..] + b, u);
    }
  }

  lemma RunOn(s: State, steps: seq<Step>, t: State, step: Step) returns (longer: seq<Step>, u: State)
    requires Runs(s, steps, t) && Enabled(t, step)
    ensures Runs(s, longer, u) && u == Apply(t, step)
    ensures NoStarts(steps) && !step.Start? ==> NoStarts(longer)
  {
    u := Apply(t, step);
    RunOne(t, step);
    RunBoth(s, steps, t, [step], u);
    longer := steps + [step];
  }

  /** Only some commands handle prompts before they go on, and only some come after a wait. */
  predicate Proper(stage: Stage) {
    match stage
    case Prompts(c) =>
      c.Navigate? || c.CloseWindow? || c == SwitchToFrame(BadFrame) || c == SwitchToFrame(ChildFrame) ||
      c.SwitchToParentFrame? || c.UseFrame?
    case Message(c, _) => c.WaitForNavigation? && c.after.Some? ==> Follows(c.after.value)
  }

  ghost predicate Staged(s: State) { forall id :: id in s.flying ==> Proper(s.flying[id]) }

  lemma BeginIsProper(c: Contexts, command: Command)
    requires command.WaitForNavigation? && command.after.Some? ==> Follows(command.after.value)
    ensures Begin(c, command).Effect? && (Begin(c, command).next.Some? ==> Proper(Begin(c, command).next.value))
  {
    if command.SwitchToFrame? {
      match command.frame case NullFrame => case BadFrame => case ChildFrame =>
    }
  }

  lemma StepStaged(s: State, step: Step)
    requires Staged(s) && Enabled(s, step)
    ensures Staged(Apply(s, step))
  {
    if step.Start? {
      BeginIsProper(s.contexts, step.command);
    } else {
      var stage := s.flying[step.id];
      if step.Answered? && stage.command.WaitForNavigation? && stage.command.after.Some? {
        BeginIsProper(Waited(s.contexts, step.answer), stage.command.after.value);
      }
    }
  }

  lemma {:induction false} RunStaged(s: State, steps: seq<Step>, t: State)
    requires Staged(s) && Runs(s, steps, t)
    ensures Staged(t)
    decreases |steps|
  {
    if steps != [] {
      StepStaged(s, steps[0]);
      RunStaged(Apply(s, steps[0]), steps[1..], t);
    }
  }

  // ----- reading a handle that is not there -----

  /** A stage that will read the window's handle without a check. */
  predicate Reads(stage: Stage) {
    stage.Prompts? || (stage.command.UseFrame? && stage.command.more > 0)
  }

  predicate WaitsFirst(stage: Stage) {
    stage.Message? && stage.command.WaitForNavigation? && stage.command.after.Some?
  }

  /** A stage that will do so if it finds a window when its wait is over. */
  predicate WillRead(stage: Stage) {
    WaitsFirst(stage) &&
    var after := stage.command.after.value;
    after.Navigate? || after.UseFrame? || after == SwitchToFrame(BadFrame) || after == SwitchToFrame(ChildFrame)
  }

  /** And one that will read the frame's too if it finds both. */
  predicate WillReadBoth(stage: Stage) { WaitsFirst(stage) && stage.command.after.value.SwitchToParentFrame? }

  predicate Waits(stage: Stage) {
    (stage.Message? && stage.command.WaitForNavigation?) || (stage.command.UseFrame? && stage.command.wait)
  }

  /** A stage that can end with the window gone. */
  predicate Drops(stage: Stage) { Waits(stage) || stage == Prompts(CloseWindow) }

  /** A stage that can end with no frame selected. */
  predicate Clears(stage: Stage) {
    || Waits(stage)
    || stage.command.Navigate? || stage.command.SwitchToParentFrame?
    || (stage.command.SwitchToFrame? && stage != Prompts(SwitchToFrame(BadFrame)))
    || stage.command.SwitchToWindow? || stage.command.CreateTopLevel?
  }

  predicate Upsets(stage: Stage) { Drops(stage) || Clears(stage) }

  /** A stage that selects a window if its answer is good. */
  predicate Selects(stage: Stage) {
    stage.Message? && (stage.command.CreateTopLevel? || stage.command.SwitchToWindow?)
  }

  /** A stage waiting for a frame to be found in the window it asked about. */
  predicate Resolves(stage: Stage) {
    stage.Message? && (stage.command.SwitchToFrame? || stage.command.SwitchToParentFrame?)
  }

  /** A stage that will look for a frame in whatever window there is. */
  predicate WillAsk(stage: Stage) {
    stage == Prompts(SwitchToFrame(ChildFrame)) ||
    (WaitsFirst(stage) && stage.command.after.value == SwitchToFrame(ChildFrame))
  }

  /** A stage that can find a frame where none was. */
  predicate Finds(stage: Stage) { Resolves(stage) || WillAsk(stage) }

  ghost predicate OtherDrops(flying: map<nat, Stage>, i: nat) {
    exists j :: j in flying && j != i && Drops(flying[j])
  }

  ghost predicate OtherClears(flying: map<nat, Stage>, i: nat) {
    exists j :: j in flying && j != i && Clears(flying[j])
  }

  ghost predicate OtherUpsets(flying: map<nat, Stage>, i: nat) {
    exists j :: j in flying && j != i && Upsets(flying[j])
  }

  ghost predicate SomeSelect(flying: map<nat, Stage>) {
    exists k :: k in flying && Selects(flying[k])
  }

  /** One command can find a frame, and yet another upset it. */
  ghost predicate FindsThenUpsets(flying: map<nat, Stage>, i: nat) {
    exists r, j :: r in flying && j in flying && r != i && j != i && j != r && Finds(flying[r]) && Upsets(flying[j])
  }

  /** One command can select a window, another find a frame, and yet another upset them. */
  ghost predicate SelectsThenFindsThenUpsets(flying: map<nat, Stage>, i: nat) {
    exists k :: k in flying && Selects(flying[k]) && FindsThenUpsets(flying - {k}, i)
  }

  /** The window and the frame are there, or can be when the wait is over, and can be gone after that. */
  ghost predicate BothExposed(c: Contexts, flying: map<nat, Stage>, i: nat) {
    if c.toplevel.None? then SelectsThenFindsThenUpsets(flying, i)
    else if c.current.None? then FindsThenUpsets(flying, i)
    else OtherUpsets(flying, i)
  }

  ghost predicate ReadExposed(c: Contexts, flying: map<nat, Stage>, i: nat)
    requires i in flying
  {
    c.toplevel.None? || OtherDrops(flying, i) ||
    (flying[i] == Prompts(SwitchToParentFrame) && (c.current.None? || OtherClears(flying, i)))
  }

  ghost predicate ExposedAt(c: Contexts, flying: map<nat, Stage>, i: nat)
    requires i in flying
  {
    || (Reads(flying[i]) && ReadExposed(c, flying, i))
    || (WillRead(flying[i]) && (c.toplevel.Some? || SomeSelect(flying)) && OtherDrops(flying, i))
    || (WillReadBoth(flying[i]) && BothExposed(c, flying, i))
  }

  /** Some command will read a handle that is gone, or that another command can take away first; the command may
      still have to wait, the handle to be set. */
  ghost predicate Exposed(s: State) {
    exists i :: i in s.flying && ExposedAt(s.contexts, s.flying, i)
  }

  /** Without further requests, some run reads a handle that is not there. */
  ghost predicate CanCrash(s: State) {
    exists steps, t :: NoStarts(steps) && Runs(s, steps, t) && t.crashed
  }

  predicate Fits(stage: Stage, step: Step) {
    (step.PromptsEnd? <==> stage.Prompts?) && (step.Answered? <==> stage.Message?)
  }

  /** What one stage can turn into. */
  ghost predicate TurnsInto(c: Contexts, stage: Stage, d: Contexts, next: Stage) {
    && !WaitsFirst(next) && !Selects(next)
    && (Drops(next) ==> Drops(stage)) && (Clears(next) ==> Clears(stage))
    && (Finds(next) ==> Finds(stage) || (c.toplevel.Some? && c.current.Some?))
    && (Reads(next) ==> Reads(stage) || WillRead(stage) || WillReadBoth(stage))
    && (Reads(next) && WillRead(stage) ==> c.toplevel.Some? && d.toplevel.Some? && next != Prompts(SwitchToParentFrame))
    && (WillReadBoth(stage) ==> c.toplevel.Some? && c.current.Some? && d.toplevel.Some? && d.current.Some?)
    && (next.Prompts? ==> WaitsFirst(stage))
  }

  /** What one stage can do to the handles. */
  ghost predicate Changes(c: Contexts, stage: Stage, d: Contexts, next: Option<Stage>) {
    && (c.toplevel.Some? && d.toplevel.None? ==> Drops(stage) && (next.Some? ==> !Reads(next.value)))
    && (c.toplevel.None? && d.toplevel.Some? ==> Selects(stage) && next.None? && d.current.None?)
    && (c.current.Some? && d.current.None? ==> Clears(stage))
    && (c.current.None? && d.current.Some? ==> Finds(stage) && next.None? && d.toplevel == c.toplevel)
  }

  lemma StageTurns(c: Contexts, stage: Stage, step: Step)
    requires Proper(stage) && Fits(stage, step) && StageEffect(c, stage, step).Effect?
    ensures var e := StageEffect(c, stage, step); e.next.Some? ==> TurnsInto(c, stage, e.contexts, e.next.value)
  {
    if WaitsFirst(stage) && stage.command.after.value.SwitchToFrame? {
      match stage.command.after.value.frame case NullFrame => case BadFrame => case ChildFrame =>
    }
  }

  lemma StageChanges(c: Contexts, stage: Stage, step: Step)
    requires Proper(stage) && Fits(stage, step) && StageEffect(c, stage, step).Effect?
    ensures var e := StageEffect(c, stage, step); Changes(c, stage, e.contexts, e.next)
  {
  }

  lemma FewerUpset(flying: map<nat, Stage>, id: nat, next: Option<Stage>, i: nat)
    requires id in flying && (next.Some? && Drops(next.value) ==> Drops(flying[id]))
    requires next.Some? && Clears(next.value) ==> Clears(flying[id])
    ensures OtherDrops(Placed(flying, id, next), i) ==> OtherDrops(flying, i)
    ensures OtherClears(Placed(flying, id, next), i) ==> OtherClears(flying, i)
    ensures OtherUpsets(Placed(flying, id, next), i) ==> OtherUpsets(flying, i)
  {
    var later := Placed(flying, id, next);
    if OtherDrops(later, i) {
      var j :| j in later && j != i && Drops(later[j]);
      assert Drops(flying[j]);
    }
    if OtherClears(later, i) {
      var j :| j in later && j != i && Clears(later[j]);
      assert Clears(flying[j]);
    }
    if OtherUpsets(later, i) {
      var j :| j in later && j != i && Upsets(later[j]);
      assert Upsets(flying[j]);
    }
  }

  lemma FewerFind(flying: map<nat, Stage>, id: nat, next: Option<Stage>, i: nat)
    requires next.Some? ==> id in flying && (Upsets(next.value) ==> Upsets(flying[id]))
    requires next.Some? && Finds(next.value) ==> Finds(flying[id])
    ensures FindsThenUpsets(Placed(flying, id, next), i) ==> FindsThenUpsets(flying, i)
  {
    var later := Placed(flying, id, next);
    if FindsThenUpsets(later, i) {
      var r, j :| r in later && j in later && r != i && j != i && j != r && Finds(later[r]) && Upsets(later[j]);
      assert Finds(flying[r]) && Upsets(flying[j]);
    }
  }

  lemma FewerSelectAndFind(flying: map<nat, Stage>, id: nat, next: Option<Stage>, i: nat)
    requires id in flying && (next.Some? ==> !Selects(next.value) && (Upsets(next.value) ==> Upsets(flying[id])))
    requires next.Some? && Finds(next.value) ==> Finds(flying[id])
    ensures SelectsThenFindsThenUpsets(Placed(flying, id, next), i) ==> SelectsThenFindsThenUpsets(flying, i)
  {
    var later := Placed(flying, id, next);
    if SelectsThenFindsThenUpsets(later, i) {
      var k :| k in later && Selects(later[k]) && FindsThenUpsets(later - {k}, i);
      assert k != id && flying[k] == later[k];
      assert later - {k} == Placed(flying - {k}, id, next);
      FewerFind(flying - {k}, id, next, i);
    }
  }

  lemma UpsetsAfterFinding(flying: map<nat, Stage>, id: nat, i: nat)
    requires id in flying && id != i && Finds(flying[id]) && OtherUpsets(flying - {id}, i)
    ensures FindsThenUpsets(flying, i)
  {
    var j :| j in flying - {id} && j != i && Upsets((flying - {id})[j]);
    assert Finds(flying[id]) && Upsets(flying[j]);
  }

  lemma FewerInTurn(flying: map<nat, Stage>, i: nat)
    ensures SelectsThenFindsThenUpsets(flying, i) ==> FindsThenUpsets(flying, i)
  {
    if SelectsThenFindsThenUpsets(flying, i) {
      var k :| k in flying && Selects(flying[k]) && FindsThenUpsets(flying - {k}, i);
      FewerFind(flying, k, None, i);
    }
  }

  lemma NoneUpset(flying: map<nat, Stage>, i: nat)
    ensures FindsThenUpsets(flying, i) ==> OtherUpsets(flying, i)
    ensures SelectsThenFindsThenUpsets(flying, i) ==> OtherUpsets(flying, i)
  {
    FewerInTurn(flying, i);
    if FindsThenUpsets(flying, i) {
      var r, j :| r in flying && j in flying && r != i && j != i && j != r && Finds(flying[r]) && Upsets(flying[j]);
      assert Upsets(flying[j]);
    }
  }

  /** A command that waits before it goes to the parent frame stays as safe as it was. */
  lemma BothStaySafe(c: Contexts, flying: map<nat, Stage>, id: nat, d: Contexts, next: Option<Stage>, i: nat)
    requires id in flying && id != i && Changes(c, flying[id], d, next)
    requires next.Some? ==> TurnsInto(c, flying[id], d, next.value)
    requires !BothExposed(c, flying, i)
    ensures !BothExposed(d, Placed(flying, id, next), i)
  {
    if c.toplevel.Some? && c.current.Some? {
      FewerUpset(flying, id, next, i);
      NoneUpset(Placed(flying, id, next), i);
    } else if c.toplevel.Some? {
      FewerFind(flying, id, next, i);
      FewerInTurn(Placed(flying, id, next), i);
      if d.current.Some? && OtherUpsets(flying - {id}, i) {
        UpsetsAfterFinding(flying, id, i);
      }
    } else {
      FewerSelectAndFind(flying, id, next, i);
    }
  }

  /** So does any other command that is not the one to step. */
  lemma OthersStaySafe(c: Contexts, flying: map<nat, Stage>, id: nat, d: Contexts, next: Option<Stage>, i: nat)
    requires id in flying && i in flying && id != i && Changes(c, flying[id], d, next)
    requires next.Some? ==> TurnsInto(c, flying[id], d, next.value)
    requires !ExposedAt(c, flying, i)
    ensures !ExposedAt(d, Placed(flying, id, next), i)
  {
    var later := Placed(flying, id, next);
    FewerUpset(flying, id, next, i);
    if WillReadBoth(flying[i]) {
      BothStaySafe(c, flying, id, d, next, i);
    } else if WillRead(flying[i]) && OtherDrops(later, i) {
      forall k | k in later ensures !Selects(later[k]) {
        assert k != id ==> !Selects(flying[k]);
      }
    } else if Reads(flying[i]) {
      assert Drops(flying[id]) ==> OtherDrops(flying, i);
      assert Clears(flying[id]) ==> OtherClears(flying, i);
    }
  }

  /** And so does the command that steps. */
  lemma StaysSafe(c: Contexts, flying: map<nat, Stage>, id: nat, d: Contexts, next: Stage)
    requires id in flying && Changes(c, flying[id], d, Some(next)) && TurnsInto(c, flying[id], d, next)
    requires !ExposedAt(c, flying, id)
    ensures !ExposedAt(d, flying[id := next], id)
  {
    FewerUpset(flying, id, Some(next), id);
    if Reads(next) && WillReadBoth(flying[id]) {
      forall j | j in flying && j != id ensures !Drops(flying[j]) && !Clears(flying[j]) {
        assert !Upsets(flying[j]);
      }
    }
  }

  lemma UnexposedIsSafe(c: Contexts, flying: map<nat, Stage>, id: nat, step: Step)
    requires id in flying && Proper(flying[id]) && Fits(flying[id], step) && !ExposedAt(c, flying, id)
    ensures StageEffect(c, flying[id], step).Effect?
  {
  }

  lemma UnexposedStep(s: State, step: Step)
    requires Staged(s) && !Exposed(s) && Enabled(s, step) && !step.Start?
    ensures !Apply(s, step).crashed && !Exposed(Apply(s, step))
  {
    var id, stage := step.id, s.flying[step.id];
    assert !ExposedAt(s.contexts, s.flying, id);
    assert EffectOf(s, step).Effect? by { UnexposedIsSafe(s.contexts, s.flying, id, step); }
    StageTurns(s.contexts, stage, step);
    StageChanges(s.contexts, stage, step);
    var e := EffectOf(s, step);
    forall i | i in Placed(s.flying, id, e.next) ensures !ExposedAt(e.contexts, Placed(s.flying, id, e.next), i) {
      assert !ExposedAt(s.contexts, s.flying, i);
      if i == id {
        StaysSafe(s.contexts, s.flying, id, e.contexts, e.next.value);
      } else {
        OthersStaySafe(s.contexts, s.flying, id, e.contexts, e.next, i);
      }
    }
  }

  lemma {:induction false} UnexposedRuns(s: State, steps: seq<Step>, t: State)
    requires Staged(s) && !s.crashed && !Exposed(s) && NoStarts(steps) && Runs(s, steps, t)
    ensures !t.crashed
    decreases |steps|
  {
    if steps != [] {
      UnexposedStep(s, steps[0]);
      StepStaged(s, steps[0]);
      UnexposedRuns(Apply(s, steps[0]), steps[1..], t);
    }
  }

  /** The stages that wait for navigation, or will, and how far that is. */
  function Distance(stage: Stage): nat {
    if !stage.command.UseFrame? then 0 else stage.command.more + (if stage.Prompts? then 2 else 1)
  }

  /** Brought on by answers of no consequence, such a stage comes to wait. */
  lemma {:induction false} ComesToWait(s: State, j: nat) returns (steps: seq<Step>, t: State)
    requires !s.crashed && s.contexts.toplevel.Some? && j in s.flying && Waits(s.flying[j])
    ensures NoStarts(steps) && Runs(s, steps, t) && !t.crashed && t.contexts == s.contexts
    ensures j in t.flying && t.flying[j].Message? && t.flying[j].command.WaitForNavigation?
    ensures Proper(s.flying[j]) ==> Proper(t.flying[j])
    ensures forall i :: i in s.flying && i != j ==> i in t.flying && t.flying[i] == s.flying[i]
    decreases Distance(s.flying[j])
  {
    if s.flying[j].command.UseFrame? {
      var step := if s.flying[j].Prompts? then PromptsEnd(j, true) else Answered(j, Success);
      var u := Apply(s, step);
      RunOne(s, step);
      steps, t := ComesToWait(u, j);
      RunBoth(s, [step], u, steps, t);
      steps := [step] + steps;
    } else {
      steps, t := [], s;
    }
  }

  lemma DropsWindow(s: State, j: nat) returns (steps: seq<Step>, t: State)
    requires !s.crashed && s.contexts.toplevel.Some? && j in s.flying && Drops(s.flying[j])
    ensures NoStarts(steps) && Runs(s, steps, t) && !t.crashed && t.contexts.toplevel.None?
    ensures forall i :: i in s.flying && i != j ==> i in t.flying && t.flying[i] == s.flying[i]
  {
    var last, u;
    if Waits(s.flying[j]) {
      steps, u := ComesToWait(s, j);
      last := Answered(j, NoSuchWindow);
    } else {
      steps, u := [], s;
      last := PromptsEnd(j, true);
    }
    steps, t := RunOn(s, steps, u, last);
  }

  /** The answer that clears the frame. */
  function Clearing(stage: Stage): Answer
    requires stage.Message?
  {
    if stage.command.WaitForNavigation? then NoSuchFrame
    else if stage.command.Navigate? || stage.command.SwitchToWindow? then Success
    else Resolution("")
  }

  lemma ClearsAtOnce(s: State, j: nat)
    requires !s.crashed && s.contexts.toplevel.Some? && j in s.flying
    requires Proper(s.flying[j]) && Clears(s.flying[j]) && s.flying[j].Message? && !s.flying[j].command.UseFrame?
    ensures var t := Apply(s, Answered(j, Clearing(s.flying[j])));
      !t.crashed && t.contexts.toplevel.Some? && t.contexts.current.None?
  {
  }

  lemma ClearsFrame(s: State, j: nat) returns (steps: seq<Step>, t: State)
    requires !s.crashed && s.contexts.toplevel.Some? && s.contexts.current.Some?
    requires j in s.flying && Proper(s.flying[j]) && Clears(s.flying[j])
    ensures NoStarts(steps) && Runs(s, steps, t) && !t.crashed
    ensures t.contexts.toplevel.Some? && t.contexts.current.None?
    ensures forall i :: i in s.flying && i != j ==> i in t.flying && t.flying[i] == s.flying[i]
  {
    var u;
    if Waits(s.flying[j]) {
      steps, u := ComesToWait(s, j);
    } else if s.flying[j].Prompts? {
      steps, u := [PromptsEnd(j, true)], Apply(s, PromptsEnd(j, true));
      RunOne(s, PromptsEnd(j, true));
    } else {
      steps, u := [], s;
    }
    ClearsAtOnce(u, j);
    steps, t := RunOn(s, steps, u, Answered(j, Clearing(u.flying[j])));
  }

  /** A stage that can find a frame where none was does so. */
  lemma {:induction false} FindsFrame(s: State, r: nat) returns (steps: seq<Step>, t: State)
    requires !s.crashed && s.contexts.toplevel.Some? && s.contexts.current.None? && r in s.flying && Finds(s.flying[r])
    ensures NoStarts(steps) && Runs(s, steps, t) && !t.crashed
    ensures t.contexts.toplevel.Some? && t.contexts.current.Some?
    ensures forall i :: i in s.flying && i != r ==> i in t.flying && t.flying[i] == s.flying[i]
    decreases if Resolves(s.flying[r]) then 0 else if s.flying[r].Prompts? then 1 else 2
  {
    var step :=
      if Resolves(s.flying[r]) then Answered(r, Resolution("f"))
      else if s.flying[r].Prompts? then PromptsEnd(r, true)
      else Answered(r, Success);
    var u := Apply(s, step);
    RunOne(s, step);
    if Resolves(s.flying[r]) {
      steps, t := [step], u;
    } else {
      steps, t := FindsFrame(u, r);
      RunBoth(s, [step], u, steps, t);
      steps := [step] + steps;
    }
  }

  lemma CrashLater(s: State, steps: seq<Step>, t: State)
    requires NoStarts(steps) && Runs(s, steps, t) && CanCrash(t)
    ensures CanCrash(s)
  {
    var more, u :| NoStarts(more) && Runs(t, more, u) && u.crashed;
    RunBoth(s, steps, t, more, u);
    assert NoStarts(steps + more);
  }

  lemma ReadsNothing(s: State, i: nat)
    requires !s.crashed && i in s.flying && Reads(s.flying[i])
    requires s.contexts.toplevel.None? || (s.flying[i] == Prompts(SwitchToParentFrame) && s.contexts.current.None?)
    ensures CanCrash(s)
  {
    var last := if s.flying[i].Prompts? then PromptsEnd(i, true) else Answered(i, Success);
    RunOne(s, last);
    assert NoStarts([last]) && Apply(s, last).crashed;
  }

  lemma ReaderCrashes(s: State, i: nat)
    requires Staged(s) && !s.crashed && i in s.flying && Reads(s.flying[i]) && ReadExposed(s.contexts, s.flying, i)
    ensures CanCrash(s)
  {
    if s.contexts.toplevel.None? {
      ReadsNothing(s, i);
    } else if OtherDrops(s.flying, i) {
      var j :| j in s.flying && j != i && Drops(s.flying[j]);
      var steps, t := DropsWindow(s, j);
      ReadsNothing(t, i);
      CrashLater(s, steps, t);
    } else if s.contexts.current.None? {
      ReadsNothing(s, i);
    } else {
      var j :| j in s.flying && j != i && Clears(s.flying[j]);
      var steps, t := ClearsFrame(s, j);
      ReadsNothing(t, i);
      CrashLater(s, steps, t);
    }
  }

  /** A wait that is over, with what it was for to go on with. */
  lemma WaitEnds(s: State, i: nat) returns (t: State)
    requires Staged(s) && !s.crashed && i in s.flying && s.contexts.toplevel.Some?
    requires WillRead(s.flying[i]) || (WillReadBoth(s.flying[i]) && s.contexts.current.Some?)
    ensures Runs(s, [Answered(i, Success)], t) && Staged(t) && !t.crashed && t.contexts == s.contexts
    ensures t.flying == s.flying[i := Prompts(s.flying[i].command.after.value)]
  {
    var step := Answered(i, Success);
    t := Apply(s, step);
    RunOne(s, step);
    StepStaged(s, step);
  }

  lemma WaiterCrashes(s: State, i: nat)
    requires Staged(s) && !s.crashed && i in s.flying && s.contexts.toplevel.Some?
    requires WillRead(s.flying[i]) && OtherDrops(s.flying, i)
    ensures CanCrash(s)
  {
    var j :| j in s.flying && j != i && Drops(s.flying[j]);
    var t := WaitEnds(s, i);
    assert Drops(t.flying[j]);
    ReaderCrashes(t, i);
    CrashLater(s, [Answered(i, Success)], t);
  }

  lemma ParentWaiterCrashes(s: State, i: nat)
    requires Staged(s) && !s.crashed && i in s.flying && s.contexts.toplevel.Some? && s.contexts.current.Some?
    requires WillReadBoth(s.flying[i]) && OtherUpsets(s.flying, i)
    ensures CanCrash(s)
  {
    var j :| j in s.flying && j != i && Upsets(s.flying[j]);
    var t := WaitEnds(s, i);
    assert Upsets(t.flying[j]);
    ReaderCrashes(t, i);
    CrashLater(s, [Answered(i, Success)], t);
  }

  lemma FrameFoundCrashes(s: State, i: nat)
    requires Staged(s) && !s.crashed && i in s.flying && s.contexts.toplevel.Some? && s.contexts.current.None?
    requires WillReadBoth(s.flying[i]) && FindsThenUpsets(s.flying, i)
    ensures CanCrash(s)
  {
    var r, j :| r in s.flying && j in s.flying && r != i && j != i && j != r &&
      Finds(s.flying[r]) && Upsets(s.flying[j]);
    var steps, t := FindsFrame(s, r);
    RunStaged(s, steps, t);
    assert Upsets(t.flying[j]);
    ParentWaiterCrashes(t, i);
    CrashLater(s, steps, t);
  }

  /** Some window is selected, by a command that can. */
  lemma SelectsWindow(s: State, k: nat) returns (step: Step, t: State)
    requires Staged(s) && !s.crashed && k in s.flying && Selects(s.flying[k])
    ensures NoStarts([step]) && Runs(s, [step], t) && Staged(t) && !t.crashed
    ensures t.contexts.toplevel.Some? && t.contexts.current.None? && t.flying == s.flying - {k}
  {
    step := Answered(k, if s.flying[k].command.CreateTopLevel? then Resolution("w") else Success);
    t := Apply(s, step);
    RunOne(s, step);
    StepStaged(s, step);
  }

  lemma SelectionCrashes(s: State, i: nat)
    requires Staged(s) && !s.crashed && i in s.flying && s.contexts.toplevel.None? && !Reads(s.flying[i])
    requires ExposedAt(s.contexts, s.flying, i)
    ensures CanCrash(s)
  {
    if WillRead(s.flying[i]) {
      var k :| k in s.flying && Selects(s.flying[k]);
      var j :| j in s.flying && j != i && Drops(s.flying[j]);
      var step, t := SelectsWindow(s, k);
      assert Drops(t.flying[j]);
      WaiterCrashes(t, i);
      CrashLater(s, [step], t);
    } else {
      var k :| k in s.flying && Selects(s.flying[k]) && FindsThenUpsets(s.flying - {k}, i);
      var step, t := SelectsWindow(s, k);
      FrameFoundCrashes(t, i);
      CrashLater(s, [step], t);
    }
  }

  /** Without further requests, the session can read a handle that is not there if and only if it is exposed. */
  lemma CrashesExactly(s: State)
    requires Staged(s) && !s.crashed
    ensures CanCrash(s) <==> Exposed(s)
  {
    if Exposed(s) {
      var i :| i in s.flying && ExposedAt(s.contexts, s.flying, i);
      if Reads(s.flying[i]) {
        ReaderCrashes(s, i);
      } else if s.contexts.toplevel.None? {
        SelectionCrashes(s, i);
      } else if WillRead(s.flying[i]) {
        WaiterCrashes(s, i);
      } else if s.contexts.current.None? {
        FrameFoundCrashes(s, i);
      } else {
        ParentWaiterCrashes(s, i);
      }
    } else {
      forall steps, t | NoStarts(steps) && Runs(s, steps, t) ensures !t.crashed {
        UnexposedRuns(s, steps, t);
      }
    }
  }

  /** A session with a window selected and nothing in flight. */
  lemma WindowSelected(a: Handle) returns (steps: seq<Step>, s: State)
    ensures Runs(FRESH, steps, s) && s.contexts == Contexts(Some(a), None)
    ensures !s.crashed && s.flying == map[] && s.started == 1
  {
    var first := Start(SwitchToWindow(a));
    RunOne(FRESH, first);
    steps, s := RunOn(FRESH, [first], Apply(FRESH, first), Answered(0, Success));
  }

  lemma ExposedCrashes(steps: seq<Step>, s: State) returns (longer: seq<Step>, t: State)
    requires Runs(FRESH, steps, s) && !s.crashed && Exposed(s)
    ensures Runs(FRESH, longer, t) && t.crashed
  {
    RunStaged(FRESH, steps, s);
    CrashesExactly(s);
    var more;
    more, t :| NoStarts(more) && Runs(s, more, t) && t.crashed;
    RunBoth(FRESH, steps, s, more, t);
    longer := steps + more;
  }

  /** Two requests that overlap are enough: from a fresh session, a window is closed while another command waits
      for prompts. */
  lemma OverlapReadsNothing(a: Handle) returns (steps: seq<Step>, t: State)
    ensures Runs(FRESH, steps, t) && t.crashed
  {
    var s;
    steps, s := WindowSelected(a);
    steps, s := RunOn(FRESH, steps, s, Start(UseFrame(0, false)));
    assert s.flying[1] == Prompts(UseFrame(0, false));
    steps, s := RunOn(FRESH, steps, s, Start(CloseWindow));
    assert s.flying[1] == Prompts(UseFrame(0, false)) && s.flying[2] == Prompts(CloseWindow);
    assert ExposedAt(s.contexts, s.flying, 1);
    steps, t := ExposedCrashes(steps, s);
  }

  /** So are two that only ask for something: both wait for navigation first, and one wait finds the window gone
      after the other has found it there. */
  lemma WaitsReadNothing(a: Handle) returns (steps: seq<Step>, t: State)
    ensures Runs(FRESH, steps, t) && t.crashed
  {
    var s;
    var request := WaitForNavigation(Some(UseFrame(0, false)));
    steps, s := WindowSelected(a);
    steps, s := RunOn(FRESH, steps, s, Start(request));
    assert s.flying[1] == Message(request, a);
    steps, s := RunOn(FRESH, steps, s, Start(request));
    assert s.flying[1] == Message(request, a) && Drops(s.flying[2]);
    assert ExposedAt(s.contexts, s.flying, 1);
    steps, t := ExposedCrashes(steps, s);
  }

  // ----- a frame beside the wrong window -----

  /** A stage that can select a window other than this one. */
  predicate SelectsOther(stage: Stage, a: Handle) {
    Selects(stage) && (stage.command.CreateTopLevel? || stage.command.window != a)
  }

  /** Two stages that can select different windows. */
  predicate Differ(p: Stage, q: Stage) {
    Selects(p) && Selects(q) && (p.command.SwitchToWindow? ==> SelectsOther(q, p.command.window))
  }

  ghost predicate SomeSelects(flying: map<nat, Stage>, a: Handle) {
    exists j :: j in flying && SelectsOther(flying[j], a)
  }

  ghost predicate SomeDiffer(flying: map<nat, Stage>) {
    exists j, k :: j in flying && k in flying && j != k && Differ(flying[j], flying[k])
  }

  /** A stage that will look for the parent of whatever frame there is. */
  predicate WillAskParent(stage: Stage) { stage == Prompts(SwitchToParentFrame) || WillReadBoth(stage) }

  /** A frame asked for, or to be asked for, in one window beside a command that can select another. */
  ghost predicate MixedAt(c: Contexts, flying: map<nat, Stage>, stage: Stage) {
    || (Resolves(stage) &&
        ((c.toplevel.Some? && c.toplevel.value != stage.toplevel) || SomeSelects(flying, stage.toplevel)))
    || (WillAsk(stage) &&
        ((c.toplevel.Some? && SomeSelects(flying, c.toplevel.value)) || SomeDiffer(flying)))
    || (WillAskParent(stage) &&
        c.toplevel.Some? && c.current.Some? && SomeSelects(flying, c.toplevel.value))
  }

  ghost predicate Mixable(s: State) {
    exists i :: i in s.flying && MixedAt(s.contexts, s.flying, s.flying[i])
  }

  /** Without further requests, some run leaves a frame beside a window it was not found in. */
  ghost predicate CanMix(s: State) {
    exists steps, t :: NoStarts(steps) && Runs(s, steps, t) && !t.crashed && !Agree(t.contexts, t.log)
  }

  /** Selecting is only ever done by stages there already. */
  lemma FewerSelect(flying: map<nat, Stage>, id: nat, next: Option<Stage>, a: Handle)
    requires id in flying && (next.Some? ==> !Selects(next.value))
    ensures SomeSelects(Placed(flying, id, next), a) ==> SomeSelects(flying, a)
    ensures SomeDiffer(Placed(flying, id, next)) ==> SomeDiffer(flying)
  {
    var later := Placed(flying, id, next);
    if SomeSelects(later, a) {
      var j :| j in later && SelectsOther(later[j], a);
      assert flying[j] == later[j];
    }
    if SomeDiffer(later) {
      var j, k :| j in later && k in later && j != k && Differ(later[j], later[k]);
      assert flying[j] == later[j] && flying[k] == later[k];
    }
  }

  /** After a window has been selected by one of several that do not differ, the others select the same. */
  lemma SelectedByOne(flying: map<nat, Stage>, id: nat, w: Handle)
    requires id in flying && Selects(flying[id]) && !SomeDiffer(flying)
    requires flying[id].command.SwitchToWindow? ==> flying[id].command.window == w
    ensures !SomeSelects(flying - {id}, w)
  {
    forall j | j in flying - {id} ensures !SelectsOther(flying[j], w) {
      assert !Differ(flying[id], flying[j]);
    }
  }

  /** A stage selects a window, or finds a frame, or else leaves no more than there was and asks, if at all, about
      the window there is. */
  ghost predicate Moves(c: Contexts, stage: Stage, e: Effect)
    requires e.Effect?
  {
    if |e.events| == 1 && e.events[0].Selected? then
      && Selects(stage) && e.next.None? && e.contexts == Contexts(Some(e.events[0].toplevel), None)
      && (stage.command.SwitchToWindow? ==> stage.command.window == e.events[0].toplevel)
    else if |e.events| == 1 && e.events[0].Resolved? then
      && Resolves(stage) && e.next.None? && e.events[0].toplevel == stage.toplevel
      && e.contexts == SelectFrame(c, Some(e.events[0].frame))
    else
      && |e.events| <= 1
      && (e.contexts.toplevel == c.toplevel || e.contexts.toplevel.None?)
      && (e.contexts.current == c.current || e.contexts.current.None?)
      && (e.next.Some? ==> !Selects(e.next.value))
      && (e.next.Some? && WillAsk(e.next.value) ==> WillAsk(stage))
      && (e.next.Some? && WillAskParent(e.next.value) ==> WillAskParent(stage))
      && (e.next.Some? && Resolves(e.next.value) ==> Asks(c, stage, e))
  }

  ghost predicate Asks(c: Contexts, stage: Stage, e: Effect)
    requires e.Effect? && e.next.Some? && e.next.value.Message?
  {
    && e.contexts == c && c.toplevel == Some(e.next.value.toplevel)
    && (stage == Prompts(SwitchToFrame(ChildFrame)) || (stage == Prompts(SwitchToParentFrame) && c.current.Some?))
  }

  lemma StageMovesSo(c: Contexts, stage: Stage, step: Step)
    requires Proper(stage) && Fits(stage, step)
    requires StageEffect(c, stage, step).Effect?
    ensures Moves(c, stage, StageEffect(c, stage, step))
  {
    if WaitsFirst(stage) && stage.command.after.value.SwitchToFrame? {
      match stage.command.after.value.frame case NullFrame => case BadFrame => case ChildFrame =>
    }
  }

  lemma SelectionUnmixes(c: Contexts, flying: map<nat, Stage>, id: nat, w: Handle, stage: Stage)
    requires id in flying && Selects(flying[id])
    requires flying[id].command.SwitchToWindow? ==> flying[id].command.window == w
    requires !MixedAt(c, flying, stage)
    ensures !MixedAt(Contexts(Some(w), None), flying - {id}, stage)
  {
    if WillAsk(stage) {
      SelectedByOne(flying, id, w);
    }
    if Resolves(stage) {
      assert !SelectsOther(flying[id], stage.toplevel);
      FewerSelect(flying, id, None, stage.toplevel);
    } else {
      FewerSelect(flying, id, None, w);
    }
  }

  lemma FindingUnmixes(c: Contexts, flying: map<nat, Stage>, id: nat, f: Handle, stage: Stage)
    requires id in flying && Resolves(flying[id]) && !MixedAt(c, flying, flying[id])
    requires !MixedAt(c, flying, stage)
    ensures !MixedAt(SelectFrame(c, Some(f)), flying - {id}, stage)
  {
    FewerSelect(flying, id, None, flying[id].toplevel);
    if Resolves(stage) {
      FewerSelect(flying, id, None, stage.toplevel);
    } else if c.toplevel.Some? {
      FewerSelect(flying, id, None, c.toplevel.value);
    }
  }

  lemma OtherwiseUnmixed(c: Contexts, d: Contexts, flying: map<nat, Stage>, id: nat, next: Option<Stage>, stage: Stage)
    requires id in flying && (next.Some? ==> !Selects(next.value)) && !MixedAt(c, flying, stage)
    requires (d.toplevel == c.toplevel || d.toplevel.None?) && (d.current == c.current || d.current.None?)
    ensures !MixedAt(d, Placed(flying, id, next), stage)
  {
    if Resolves(stage) {
      FewerSelect(flying, id, next, stage.toplevel);
    } else if c.toplevel.Some? {
      FewerSelect(flying, id, next, c.toplevel.value);
    } else {
      FewerSelect(flying, id, next, "");
    }
  }

  lemma AskingUnmixed(c: Contexts, flying: map<nat, Stage>, id: nat, e: Effect)
    requires id in flying && e.Effect? && e.next.Some? && e.next.value.Message? && Resolves(e.next.value)
    requires Asks(c, flying[id], e) && !MixedAt(c, flying, flying[id])
    ensures !MixedAt(c, Placed(flying, id, e.next), e.next.value)
  {
    FewerSelect(flying, id, e.next, e.next.value.toplevel);
  }

  /** One step of a session that cannot mix leaves it one that cannot. */
  lemma UnmixedStep(s: State, step: Step)
    requires Staged(s) && !Mixable(s) && Enabled(s, step) && !step.Start? && EffectOf(s, step).Effect?
    ensures !Mixable(Apply(s, step))
  {
    var id, stage, e := step.id, s.flying[step.id], EffectOf(s, step);
    var t := Apply(s, step);
    StageMovesSo(s.contexts, stage, step);
    assert !MixedAt(s.contexts, s.flying, stage);
    forall i | i in t.flying ensures !MixedAt(t.contexts, t.flying, t.flying[i]) {
      if i != id {
        assert !MixedAt(s.contexts, s.flying, s.flying[i]);
        if |e.events| == 1 && e.events[0].Selected? {
          SelectionUnmixes(s.contexts, s.flying, id, e.events[0].toplevel, s.flying[i]);
        } else if |e.events| == 1 && e.events[0].Resolved? {
          FindingUnmixes(s.contexts, s.flying, id, e.events[0].frame, s.flying[i]);
        } else {
          OtherwiseUnmixed(s.contexts, t.contexts, s.flying, id, e.next, s.flying[i]);
        }
      } else if Resolves(t.flying[i]) {
        AskingUnmixed(s.contexts, s.flying, id, e);
      } else if WillAsk(t.flying[i]) || WillAskParent(t.flying[i]) {
        OtherwiseUnmixed(s.contexts, t.contexts, s.flying, id, e.next, stage);
      }
    }
  }

  lemma MovesAgree(c: Contexts, log: seq<Event>, stage: Stage, e: Effect)
    requires e.Effect? && Moves(c, stage, e) && Agree(c, log)
    requires Resolves(stage) && c.toplevel.Some? ==> c.toplevel.value == stage.toplevel
    ensures Agree(e.contexts, log + e.events)
  {
    if e.events == [] {
      assert log + e.events == log;
    } else {
      LiveAfter(log, e.events[0]);
      assert log + e.events == log + [e.events[0]];
    }
  }

  /** And the frame it keeps is still one of its window. */
  lemma UnmixedAgrees(s: State, step: Step)
    requires Staged(s) && !Mixable(s) && Enabled(s, step) && !step.Start? && EffectOf(s, step).Effect?
    requires Agree(s.contexts, s.log)
    ensures Agree(Apply(s, step).contexts, Apply(s, step).log)
  {
    var stage, e := s.flying[step.id], EffectOf(s, step);
    StageMovesSo(s.contexts, stage, step);
    assert !MixedAt(s.contexts, s.flying, stage);
    MovesAgree(s.contexts, s.log, stage, e);
  }

  lemma {:induction false} UnmixedRuns(s: State, steps: seq<Step>, t: State)
    requires Staged(s) && !Mixable(s) && Agree(s.contexts, s.log) && NoStarts(steps) && Runs(s, steps, t)
    ensures Agree(t.contexts, t.log)
    decreases |steps|
  {
    if steps != [] {
      var u := Apply(s, steps[0]);
      StepStaged(s, steps[0]);
      if EffectOf(s, steps[0]).Effect? {
        UnmixedStep(s, steps[0]);
        UnmixedAgrees(s, steps[0]);
      }
      UnmixedRuns(u, steps[1..], t);
    }
  }

  lemma {:induction false} LongerThanAll(live: set<(Handle, Handle)>) returns (n: nat)
    ensures forall p :: p in live ==> |p.1| < n
    decreases |live|
  {
    if live == {} {
      n := 0;
    } else {
      var q :| q in live;
      var m := LongerThanAll(live - {q});
      n := if m <= |q.1| then |q.1| + 1 else m;
      forall p | p in live ensures |p.1| < n {
        assert p != q ==> p in live - {q};
      }
    }
  }

  /** A handle that names no frame found so far. */
  lemma NewHandle(live: set<(Handle, Handle)>) returns (f: Handle)
    ensures f != "" && forall p :: p in live ==> p.1 != f
  {
    var n := LongerThanAll(live);
    f := seq(n + 1, _ => 'f');
  }

  lemma FoundElsewhere(log: seq<Event>, a: Handle, b: Handle, f: Handle)
    requires a != b && forall p :: p in Live(log) ==> p.1 != f
    ensures !Agree(Contexts(Some(a), Some(f)), log + [Resolved(b, f)])
  {
    LiveAfter(log, Resolved(b, f));
  }

  /** A frame that comes in for another window than the one there is. */
  lemma FoundBeside(s: State, i: nat)
    requires !s.crashed && i in s.flying && Resolves(s.flying[i])
    requires s.contexts.toplevel.Some? && s.contexts.toplevel.value != s.flying[i].toplevel
    ensures CanMix(s)
  {
    var f := NewHandle(Live(s.log));
    var step := Answered(i, Resolution(f));
    FoundElsewhere(s.log, s.contexts.toplevel.value, s.flying[i].toplevel, f);
    MixesAtOnce(s, step);
  }

  lemma MixesAtOnce(s: State, step: Step)
    requires Enabled(s, step) && !step.Start?
    requires !Apply(s, step).crashed && !Agree(Apply(s, step).contexts, Apply(s, step).log)
    ensures CanMix(s)
  {
    RunOne(s, step);
    assert NoStarts([step]);
  }

  lemma MixLater(s: State, step: Step)
    requires Enabled(s, step) && !step.Start? && CanMix(Apply(s, step))
    ensures CanMix(s)
  {
    var steps, t :| NoStarts(steps) && Runs(Apply(s, step), steps, t) && !t.crashed && !Agree(t.contexts, t.log);
    RunOne(s, step);
    RunBoth(s, [step], Apply(s, step), steps, t);
    assert NoStarts([step] + steps);
  }

  /** The answer that makes a stage select another window than this. */
  function Selecting(stage: Stage, a: Handle): Answer
    requires Selects(stage)
  {
    if stage.command.CreateTopLevel? then Resolution(a + "x") else Success
  }

  lemma SelectsBeside(s: State, j: nat, a: Handle) returns (step: Step)
    requires !s.crashed && j in s.flying && SelectsOther(s.flying[j], a)
    ensures Enabled(s, step) && !step.Start?
    ensures !Apply(s, step).crashed && Apply(s, step).flying == s.flying - {j}
    ensures Apply(s, step).contexts.toplevel.Some? && Apply(s, step).contexts.toplevel.value != a
    ensures s.flying[j].command.SwitchToWindow? ==>
      Apply(s, step).contexts.toplevel == Some(s.flying[j].command.window)
  {
    step := Answered(j, Selecting(s.flying[j], a));
  }

  /** A frame asked for in one window while another is being selected. */
  lemma AskedMixes(s: State, i: nat)
    requires !s.crashed && i in s.flying && Resolves(s.flying[i]) && SomeSelects(s.flying, s.flying[i].toplevel)
    ensures CanMix(s)
  {
    var j :| j in s.flying && SelectsOther(s.flying[j], s.flying[i].toplevel);
    var step := SelectsBeside(s, j, s.flying[i].toplevel);
    FoundBeside(Apply(s, step), i);
    MixLater(s, step);
  }

  /** A frame yet to be asked for in the window there is, while another is being selected. */
  lemma {:induction false} AskingMixes(s: State, i: nat)
    requires !s.crashed && i in s.flying
    requires s.contexts.toplevel.Some? && SomeSelects(s.flying, s.contexts.toplevel.value)
    requires WillAsk(s.flying[i]) || (WillAskParent(s.flying[i]) && s.contexts.current.Some?)
    ensures CanMix(s)
    decreases WaitsFirst(s.flying[i])
  {
    var j :| j in s.flying && SelectsOther(s.flying[j], s.contexts.toplevel.value);
    var step := if WaitsFirst(s.flying[i]) then Answered(i, Success) else PromptsEnd(i, true);
    var t := Apply(s, step);
    assert t.flying[j] == s.flying[j];
    if WaitsFirst(s.flying[i]) {
      AskingMixes(t, i);
    } else {
      AskedMixes(t, i);
    }
    MixLater(s, step);
  }

  /** A frame yet to be asked for while two different windows are being selected. */
  lemma DifferingMixes(s: State, i: nat)
    requires !s.crashed && i in s.flying && WillAsk(s.flying[i]) && SomeDiffer(s.flying)
    ensures CanMix(s)
  {
    var j, k :| j in s.flying && k in s.flying && j != k && Differ(s.flying[j], s.flying[k]);
    var other := if s.flying[k].command.SwitchToWindow? then s.flying[k].command.window else "";
    if !SelectsOther(s.flying[j], other) {
      other := other + "x";
    }
    var step := SelectsBeside(s, j, other);
    var t := Apply(s, step);
    assert t.flying[k] == s.flying[k] && SelectsOther(t.flying[k], t.contexts.toplevel.value);
    AskingMixes(t, i);
    MixLater(s, step);
  }

  /** Without further requests, a frame can end up beside a window it was not found in if and only if a frame is
      asked for, or is to be, beside a command that can select another window. */
  lemma MixesExactly(s: State)
    requires Staged(s) && !s.crashed && Agree(s.contexts, s.log)
    ensures CanMix(s) <==> Mixable(s)
  {
    if Mixable(s) {
      var i :| i in s.flying && MixedAt(s.contexts, s.flying, s.flying[i]);
      if Resolves(s.flying[i]) {
        if s.contexts.toplevel.Some? && s.contexts.toplevel.value != s.flying[i].toplevel {
          FoundBeside(s, i);
        } else {
          AskedMixes(s, i);
        }
      } else if s.contexts.toplevel.Some? && SomeSelects(s.flying, s.contexts.toplevel.value) {
        AskingMixes(s, i);
      } else {
        DifferingMixes(s, i);
      }
    } else {
      forall steps, t | NoStarts(steps) && Runs(s, steps, t) ensures Agree(t.contexts, t.log) {
        UnmixedRuns(s, steps, t);
      }
    }
  }

  /** A frame beside the wrong window is sent with it by the next request that waits. */
  lemma MixIsSent(s: State)
    requires !s.crashed && !Agree(s.contexts, s.log)
    ensures !Faithful(Apply(s, Start(WaitForNavigation(Some(AskWindow)))).log)
  {
    var t := Apply(s, Start(WaitForNavigation(Some(AskWindow))));
    assert t.log == s.log + [Sent(s.contexts.toplevel.value, s.contexts.current)];
    assert t.log[..|s.log|] == s.log && t.log[|s.log|] == Sent(s.contexts.toplevel.value, s.contexts.current);
  }

  /** From a fresh session, a frame asked for in one window while another is being selected is sent with the
      other. */
  lemma OverlapMixesWindows(a: Handle, b: Handle) returns (steps: seq<Step>, t: State)
    requires a != b
    ensures Runs(FRESH, steps, t) && !Faithful(t.log)
  {
    var s;
    steps, s := WindowSelected(a);
    steps, s := RunOn(FRESH, steps, s, Start(SwitchToFrame(ChildFrame)));
    assert s.flying[1] == Prompts(SwitchToFrame(ChildFrame));
    steps, s := RunOn(FRESH, steps, s, Start(SwitchToWindow(b)));
    assert s.flying[1] == Prompts(SwitchToFrame(ChildFrame)) && SelectsOther(s.flying[2], a);
    assert MixedAt(s.contexts, s.flying, s.flying[1]);
    RunStaged(FRESH, steps, s);
    MixesExactly(s);
    var more, u :| NoStarts(more) && Runs(s, more, u) && !u.crashed && !Agree(u.contexts, u.log);
    RunBoth(FRESH, steps, s, more, u);
    MixIsSent(u);
    steps, t := RunOn(FRESH, steps + more, u, Start(WaitForNavigation(Some(AskWindow))));
  }
}
