/** What a session's handles say about the run that led to them, told from requests and answers. */
module CommandHistory {
  import opened Wrappers
  import opened History
  import opened BrowsingContext
  import opened OverlappingCommands

  // ----- answers that fail -----

  predicate IsAnswered(s: State, step: Step) { step.Answered? && step.id in s.flying && s.flying[step.id].Message? }

  /** The command answered, or the one whose prompts have been handled. */
  function CommandOf(s: State, step: Step): Option<Command> {
    if !step.Start? && step.id in s.flying then Some(s.flying[step.id].command) else None
  }

  predicate EndsWait(s: State, step: Step) {
    IsAnswered(s, step) && s.flying[step.id].command.WaitForNavigation?
  }

  /** A failed answer ends its command, and nothing else changes. */
  lemma FailedAnswer(s: State, step: Step)
    requires Enabled(s, step) && step.Answered? && IsError(step.answer) && !EndsWait(s, step)
    ensures Apply(s, step) == s.(flying := s.flying - {step.id})
  {
    assert s.log + [] == s.log;
  }

  /** So does a wait that fails, and so do prompts that cannot be handled. */
  lemma FailedWait(s: State, step: Step)
    requires Enabled(s, step)
    requires (EndsWait(s, step) && step.answer.Failure?) || (step.PromptsEnd? && !step.handled)
    ensures Apply(s, step) == s.(flying := s.flying - {step.id})
  {
    assert s.log + [] == s.log;
  }

  /** A wait that finds the window gone forgets it, and whatever was to follow the wait is over with it. */
  lemma WindowGone(s: State, step: Step)
    requires Staged(s) && Enabled(s, step) && EndsWait(s, step) && step.answer.NoSuchWindow?
    ensures Apply(s, step) == s.(contexts := s.contexts.(toplevel := None), flying := s.flying - {step.id})
  {
    assert s.log + [] == s.log;
  }

  /** Without a window, a request that needs one is over at once, and nothing is sent. */
  lemma NoWindowNoCommand(s: State, command: Command)
    requires Enabled(s, Start(command)) && s.contexts.toplevel.None?
    requires !command.CreateTopLevel? && !command.SwitchToWindow?
    ensures Apply(s, Start(command)) == s.(started := s.started + 1, flying := s.flying - {s.started})
  {
    assert s.log + [] == s.log;
  }

  // ----- what is sent -----

  /** The command speaks to the frame kept, not only to the window. */
  predicate NamesFrame(command: Command) {
    command.UseFrame? || command == SwitchToFrame(ChildFrame) || command.SwitchToParentFrame?
  }

  /** After its prompts a command sends one message about the window kept, with the frame kept if it speaks to that. */
  lemma HandledSends(s: State, step: Step)
    requires Staged(s) && Enabled(s, step) && step.PromptsEnd? && step.handled
    requires s.contexts.toplevel.Some? && s.flying[step.id].command != SwitchToFrame(BadFrame)
    requires s.flying[step.id].command.SwitchToParentFrame? ==> s.contexts.current.Some?
    ensures var t, command := s.contexts.toplevel.value, s.flying[step.id].command;
      && !Apply(s, step).crashed
      && Apply(s, step).log == s.log + [Sent(t, if NamesFrame(command) then s.contexts.current else None)]
      && Apply(s, step).flying == s.flying[step.id := Message(command, t)]
  {
  }

  /** A request sends its first message at once, unless it has none to send: the wait names the frame kept. */
  lemma RequestSends(s: State, command: Command)
    requires Enabled(s, Start(command)) && s.contexts.toplevel.Some?
    requires !command.CreateTopLevel? && !command.SwitchToWindow? && !command.CloseSession?
    requires command != SwitchToFrame(NullFrame) && (command.SwitchToParentFrame? ==> s.contexts.current.Some?)
    ensures var t, u := s.contexts.toplevel.value, Apply(s, Start(command));
      && u.log == s.log + [Sent(t, if command.WaitForNavigation? then s.contexts.current else None)]
      && u.contexts == s.contexts && s.started in u.flying && u.flying[s.started].command == command
      && (u.flying[s.started].Message? <==> command.WaitForNavigation? || command.AskWindow?)
  {
  }

  /** Selecting or making a window waits for one answer, and changes nothing before it comes. */
  lemma SelectionStarts(s: State, command: Command)
    requires Enabled(s, Start(command)) && (command.CreateTopLevel? || command.SwitchToWindow?)
    ensures var u := Apply(s, Start(command));
      && u.contexts == s.contexts && u.log == s.log && s.started in u.flying
      && u.flying[s.started].Message? && u.flying[s.started].command == command
  {
    assert s.log + [] == s.log;
  }

  /** Some requests are over without a message: the main frame is asked for, or the parent of no frame, or the
      session ends. */
  lemma NothingToSend(s: State, command: Command)
    requires Enabled(s, Start(command))
    requires command.CloseSession? || command == SwitchToFrame(NullFrame) ||
      (command.SwitchToParentFrame? && s.contexts.current.None?)
    ensures var u := Apply(s, Start(command)); u.log == s.log && u.flying == s.flying - {s.started}
  {
    assert s.log + [] == s.log;
  }

  /** So is, after its prompts, one for a frame that cannot be. */
  lemma BadFrameEnds(s: State, step: Step)
    requires Enabled(s, step) && step.PromptsEnd? && s.contexts.toplevel.Some?
    requires s.flying[step.id].command == SwitchToFrame(BadFrame)
    ensures Apply(s, step) == s.(flying := s.flying - {step.id})
  {
    assert s.log + [] == s.log;
  }

  /** After a wait that has not failed the request goes on with what it waited for, and sends its message. */
  lemma WaitGoesOn(s: State, step: Step, d: Command)
    requires Staged(s) && Enabled(s, step) && EndsWait(s, step) && s.flying[step.id].command.after == Some(d)
    requires !step.answer.Failure? && !step.answer.NoSuchWindow? && s.contexts.toplevel.Some?
    requires d != SwitchToFrame(NullFrame)
    requires d.SwitchToParentFrame? ==> s.contexts.current.Some? && !step.answer.NoSuchFrame?
    ensures var u := Apply(s, step);
      && u.log == s.log + [Sent(s.contexts.toplevel.value, None)] && u.contexts.toplevel == s.contexts.toplevel
      && step.id in u.flying && u.flying[step.id].command == d
      && (u.flying[step.id].Message? <==> d.AskWindow?)
  {
  }

  /** A further message goes out for each that the command still has to send, naming the frame kept. */
  lemma FurtherSends(s: State, step: Step)
    requires Enabled(s, step) && IsAnswered(s, step) && !IsError(step.answer) && s.contexts.toplevel.Some?
    requires s.flying[step.id].command.UseFrame?
    ensures var t, command, u := s.contexts.toplevel.value, s.flying[step.id].command, Apply(s, step);
      && u.contexts == s.contexts
      && (command.more == 0 && !command.wait ==> u == s.(flying := s.flying - {step.id}))
      && (command.more > 0 || command.wait ==>
          u.log == s.log + [Sent(t, s.contexts.current)] && step.id in u.flying && u.flying[step.id].Message?)
      && (command.more > 0 ==> u.flying[step.id].command == UseFrame(command.more - 1, command.wait))
      && (command.more == 0 && command.wait ==> u.flying[step.id].command == WaitForNavigation(None))
  {
    assert s.log + [] == s.log;
  }

  // ----- the window kept -----

  /** The window that a step selects: that of a switch that succeeded, or a new one. */
  function WindowSet(s: State, step: Step): Option<Handle> {
    if !IsAnswered(s, step) then None
    else if s.flying[step.id].command.SwitchToWindow? && !IsError(step.answer) then
      Some(s.flying[step.id].command.window)
    else if s.flying[step.id].command.CreateTopLevel? && step.answer.Resolution? then Some(step.answer.handle)
    else None
  }

  /** The session ends, the window is closed, or a wait finds it gone. */
  predicate WindowLost(s: State, step: Step) {
    || step == Start(CloseSession)
    || (step.PromptsEnd? && step.handled && CommandOf(s, step) == Some(CloseWindow))
    || (EndsWait(s, step) && step.answer.NoSuchWindow?)
  }

  function WindowMark(s: State, step: Step): Mark<Handle> {
    if WindowSet(s, step).Some? then Sets(WindowSet(s, step).value) else if WindowLost(s, step) then Clears else Keeps
  }

  lemma StepWindow(s: State, step: Step)
    requires Staged(s) && Enabled(s, step) && !Apply(s, step).crashed
    ensures Apply(s, step).contexts.toplevel == Marked(s.contexts.toplevel, WindowMark(s, step))
  {
  }

  // ----- the frame kept -----

  /** The handle of the frame that a step finds, empty for the main frame. */
  function FrameFound(s: State, step: Step): Option<Handle> {
    if IsAnswered(s, step) && Resolves(s.flying[step.id]) && step.answer.Resolution? then Some(step.answer.handle)
    else None
  }

  /** The request asks for the main frame, at once or after its wait. */
  predicate AsksMainFrame(s: State, step: Step) {
    s.contexts.toplevel.Some? &&
    (step == Start(SwitchToFrame(NullFrame)) ||
     (EndsWait(s, step) && (step.answer.Success? || step.answer.NoSuchFrame? || step.answer.Resolution?) &&
      CommandOf(s, step) == Some(WaitForNavigation(Some(SwitchToFrame(NullFrame))))))
  }

  /** A window is selected, a navigation succeeds, a wait finds the frame gone, or the main frame is asked for. */
  predicate FrameLost(s: State, step: Step) {
    || WindowSet(s, step).Some?
    || (IsAnswered(s, step) && s.flying[step.id].command.Navigate? && !IsError(step.answer))
    || (EndsWait(s, step) && step.answer.NoSuchFrame?)
    || FrameFound(s, step) == Some("")
    || AsksMainFrame(s, step)
  }

  function FrameMark(s: State, step: Step): Mark<Handle> {
    if FrameLost(s, step) then Clears
    else if FrameFound(s, step).Some? then Sets(FrameFound(s, step).value) else Keeps
  }

  lemma StepFrame(s: State, step: Step)
    requires Staged(s) && Enabled(s, step) && !Apply(s, step).crashed
    ensures Apply(s, step).contexts.current == Marked(s.contexts.current, FrameMark(s, step))
  {
  }

  // ----- over whole runs -----

  /** Where a run leads. */
  ghost function After(s: State, steps: seq<Step>): State
    decreases |steps|
  {
    if steps == [] || !Enabled(s, steps[0]) then s else After(Apply(s, steps[0]), steps[1..])
  }

  lemma {:induction false} RunsAfter(s: State, steps: seq<Step>, t: State)
    requires Runs(s, steps, t)
    ensures After(s, steps) == t
    decreases |steps|
  {
    if steps != [] {
      RunsAfter(Apply(s, steps[0]), steps[1..], t);
    }
  }

  /** A run but for its last step. */
  lemma {:induction false} AllButLast(s: State, steps: seq<Step>, t: State) returns (u: State)
    requires Runs(s, steps, t) && steps != []
    ensures Runs(s, steps[..|steps| - 1], u) && Enabled(u, steps[|steps| - 1]) && t == Apply(u, steps[|steps| - 1])
    decreases |steps|
  {
    var last := |steps| - 1;
    if last == 0 {
      u := s;
    } else {
      u := AllButLast(Apply(s, steps[0]), steps[1..], t);
      assert steps[..last][1..] == steps[1..][..last - 1];
    }
  }

  /** What each step of a run from a fresh session does to a handle. */
  ghost function Marks(steps: seq<Step>, mark: (State, Step) -> Mark<Handle>): (marks: seq<Mark<Handle>>)
    ensures |marks| == |steps|
    ensures forall k :: 0 <= k < |steps| ==> marks[k] == mark(After(FRESH, steps[..k]), steps[k])
  {
    seq(|steps|, k requires 0 <= k < |steps| => mark(After(FRESH, steps[..k]), steps[k]))
  }

  lemma MarksOneMore(steps: seq<Step>, step: Step, mark: (State, Step) -> Mark<Handle>)
    ensures Marks(steps + [step], mark) == Marks(steps, mark) + [mark(After(FRESH, steps), step)]
  {
    var more := steps + [step];
    forall k | 0 <= k <= |steps| ensures more[..k] == steps[..k] {
    }
    assert more[..|steps|] == steps;
  }

  lemma LastMarked(steps: seq<Step>, step: Step, mark: (State, Step) -> Mark<Handle>, h: Handle)
    ensures var m := mark(After(FRESH, steps), step);
      LastSet(Marks(steps + [step], mark), h) <==> m == Sets(h) || (m == Keeps && LastSet(Marks(steps, mark), h))
  {
    MarksOneMore(steps, step, mark);
    LastSetOneMore(Marks(steps, mark), mark(After(FRESH, steps), step), h);
  }

  lemma MarksSplit(steps: seq<Step>, t: State, mark: (State, Step) -> Mark<Handle>, h: Handle) returns (u: State)
    requires Runs(FRESH, steps, t) && steps != []
    ensures var last := |steps| - 1;
      && Runs(FRESH, steps[..last], u) && Staged(u) && Enabled(u, steps[last]) && t == Apply(u, steps[last])
      && (LastSet(Marks(steps, mark), h) <==>
          mark(u, steps[last]) == Sets(h) ||
          (mark(u, steps[last]) == Keeps && LastSet(Marks(steps[..last], mark), h)))
  {
    var last := |steps| - 1;
    u := AllButLast(FRESH, steps, t);
    RunsAfter(FRESH, steps[..last], u);
    RunStaged(FRESH, steps[..last], u);
    LastMarked(steps[..last], steps[last], mark, h);
    assert steps[..last] + [steps[last]] == steps;
  }

  /** In every run, serial or not, the window kept is that of the last create or switch that succeeded, unless a
      later close, session end or lost window has cleared it. */
  lemma {:induction false} WindowIsLast(steps: seq<Step>, t: State, w: Handle)
    requires Runs(FRESH, steps, t) && !t.crashed
    ensures t.contexts.toplevel == Some(w) <==> LastSet(Marks(steps, WindowMark), w)
    decreases |steps|
  {
    if steps != [] {
      var u := MarksSplit(steps, t, WindowMark, w);
      WindowIsLast(steps[..|steps| - 1], u, w);
      StepWindow(u, steps[|steps| - 1]);
    }
  }

  /** And the frame kept is the last one found, unless a later step has cleared it. */
  lemma {:induction false} FrameIsLast(steps: seq<Step>, t: State, f: Handle)
    requires Runs(FRESH, steps, t) && !t.crashed
    ensures t.contexts.current == Some(f) <==> LastSet(Marks(steps, FrameMark), f)
    decreases |steps|
  {
    if steps != [] {
      var u := MarksSplit(steps, t, FrameMark, f);
      FrameIsLast(steps[..|steps| - 1], u, f);
      StepFrame(u, steps[|steps| - 1]);
    }
  }
}
