/** Which window and which frame a session's commands speak about. */
module BrowsingContext {
  import opened Wrappers

  type Handle = string

  /** The handles a session keeps: its window, and a frame of it unless it is at the top. */
  datatype Contexts = Contexts(toplevel: Option<Handle>, current: Option<Handle>)

  datatype FrameID = NullFrame | BadFrame | ChildFrame

  datatype Command =
    | CreateTopLevel
    | Navigate                        // to an address, back, forward, or to the same page again
    | CloseWindow
    | SwitchToWindow(window: Handle)
    | SwitchToFrame(frame: FrameID)
    | SwitchToParentFrame
    | WaitForNavigation(after: Option<Command>) // most requests wait first, and then go on
    | UseFrame(more: nat, wait: bool) // works in the window or frame: one message, more of them, then perhaps a wait
    | AskWindow                       // about the window or its alert, with one message at once
    | CloseSession

  /** The commands that requests go on with after a wait. */
  predicate Follows(command: Command) {
    command.Navigate? || command.SwitchToFrame? || command.SwitchToParentFrame? || command.UseFrame? ||
    command.AskWindow?
  }

  /** What a request is: a wait is never one of its own. */
  predicate IsRequest(command: Command) {
    command.WaitForNavigation? ==> command.after.Some? && Follows(command.after.value)
  }

  /** What a command in flight waits for: user prompts to be handled, or the answer to a message of its own. */
  datatype Stage = Prompts(command: Command) | Message(command: Command, toplevel: Handle)

  datatype Answer = Success | Failure | NoSuchWindow | NoSuchFrame | Resolution(handle: Handle)

  predicate IsError(a: Answer) { a.Failure? || a.NoSuchWindow? || a.NoSuchFrame? }

  /** What is seen from outside: a window selected, a frame found in a window, a message sent. */
  datatype Event =
    | Selected(toplevel: Handle)
    | Resolved(toplevel: Handle, frame: Handle)
    | Sent(toplevel: Handle, within: Option<Handle>)

  /** What a piece of a command does; a crash reads a handle that is not there. */
  datatype Effect = Effect(contexts: Contexts, events: seq<Event>, next: Option<Stage>) | Crash

  function SelectTopLevel(t: Option<Handle>): Contexts { Contexts(t, None) }

  /** The browser names its main frame with an empty handle. */
  function SelectFrame(c: Contexts, f: Option<Handle>): Contexts {
    c.(current := if f.None? || f.value == "" then None else f)
  }

  /** From the request up to the first message. */
  function Begin(c: Contexts, command: Command): Effect {
    if command.CreateTopLevel? then Effect(c, [], Some(Message(command, "")))
    else if command.SwitchToWindow? then Effect(c, [], Some(Message(command, command.window)))
    else if command.CloseSession? then Effect(c.(toplevel := None), [], None)
    else if c.toplevel.None? then Effect(c, [], None)
    else if command == SwitchToFrame(NullFrame) then Effect(SelectFrame(c, None), [], None)
    else if command.SwitchToParentFrame? && c.current.None? then Effect(c, [], None)
    else if command.WaitForNavigation? then
      Effect(c, [Sent(c.toplevel.value, c.current)], Some(Message(command, c.toplevel.value)))
    else if command.AskWindow? then
      Effect(c, [Sent(c.toplevel.value, None)], Some(Message(command, c.toplevel.value)))
    else Effect(c, [Sent(c.toplevel.value, None)], Some(Prompts(command)))
  }

  /** After user prompts have been handled. */
  function Proceed(c: Contexts, command: Command): Effect {
    if c.toplevel.None? then Crash
    else
      var t := c.toplevel.value;
      if command.CloseWindow? then Effect(c.(toplevel := None), [Sent(t, None)], Some(Message(command, t)))
      else if command.Navigate? then Effect(c, [Sent(t, None)], Some(Message(command, t)))
      else if command == SwitchToFrame(BadFrame) then Effect(c, [], None)
      else if command.SwitchToParentFrame? && c.current.None? then Crash
      else Effect(c, [Sent(t, c.current)], Some(Message(command, t)))
  }

  /** When the answer to a message of the command comes. */
  function Finish(c: Contexts, command: Command, asked: Handle, a: Answer): Effect {
    match command
    case CreateTopLevel =>
      if a.Resolution? then Effect(SelectTopLevel(Some(a.handle)), [Selected(a.handle)], None) else Effect(c, [], None)
    case SwitchToWindow(window) =>
      if !IsError(a) then Effect(SelectTopLevel(Some(window)), [Selected(window)], None) else Effect(c, [], None)
    case Navigate =>
      if !IsError(a) then Effect(SelectFrame(c, None), [], None) else Effect(c, [], None)
    case SwitchToFrame(_) => Found(c, asked, a)
    case SwitchToParentFrame => Found(c, asked, a)
    case WaitForNavigation(after) => if a.Failure? then Effect(c, [], None) else GoAhead(Waited(c, a), after)
    case UseFrame(more, wait) => if IsError(a) then Effect(c, [], None) else GoOn(c, more, wait)
    case _ => Effect(c, [], None)
  }

  function Found(c: Contexts, asked: Handle, a: Answer): Effect {
    if a.Resolution? then Effect(SelectFrame(c, Some(a.handle)), [Resolved(asked, a.handle)], None)
    else Effect(c, [], None)
  }

  /** A wait may find the window or the frame gone, and takes that for success. */
  function Waited(c: Contexts, a: Answer): Contexts {
    if a.NoSuchWindow? then c.(toplevel := None) else if a.NoSuchFrame? then SelectFrame(c, None) else c
  }

  function GoAhead(c: Contexts, after: Option<Command>): Effect {
    if after.None? then Effect(c, [], None) else Begin(c, after.value)
  }

  /** The next message of a command that sends several: the handles are read again, the window's unchecked
      unless the command is done and only waits. */
  function GoOn(c: Contexts, more: nat, wait: bool): Effect {
    if more > 0 then
      if c.toplevel.None? then Crash
      else Effect(c, [Sent(c.toplevel.value, c.current)], Some(Message(UseFrame(more - 1, wait), c.toplevel.value)))
    else if wait then Begin(c, WaitForNavigation(None))
    else Effect(c, [], None)
  }

  // ----- what is promised -----

  /** The frames found since a window was last selected, with the windows they were found in. */
  ghost function Live(log: seq<Event>): set<(Handle, Handle)> {
    if log == [] then {} else LiveNext(Live(log[..|log| - 1]), log[|log| - 1])
  }

  ghost function LiveNext(before: set<(Handle, Handle)>, e: Event): set<(Handle, Handle)> {
    if e.Selected? then {} else if e.Resolved? then before + {(e.toplevel, e.frame)} else before
  }

  /** Each message that names a frame names one found in the very window it names, since that window was
      last selected. */
  ghost predicate Faithful(log: seq<Event>) {
    forall i :: 0 <= i < |log| && log[i].Sent? && log[i].within.Some? ==>
      (log[i].toplevel, log[i].within.value) in Live(log[..i])
  }

  /** The frame kept was found in the window kept, since that was selected. */
  ghost predicate Agree(c: Contexts, log: seq<Event>) {
    c.toplevel.Some? && c.current.Some? ==> (c.toplevel.value, c.current.value) in Live(log)
  }

  /** What a command in flight counts on, when it is the only one. */
  predicate CountsOn(stage: Stage, c: Contexts) {
    match stage
    case Prompts(command) => c.toplevel.Some? && (command.SwitchToParentFrame? ==> c.current.Some?)
    case Message(command, t) =>
      && (command.SwitchToFrame? || command.SwitchToParentFrame? ==> c.toplevel == Some(t))
      && (command.UseFrame? ==> c.toplevel.Some?)
  }

  lemma LiveAfter(log: seq<Event>, e: Event)
    ensures Live(log + [e]) == LiveNext(Live(log), e)
  {
    assert (log + [e])[..|log|] == log;
  }

  lemma LogOne(log: seq<Event>, e: Event)
    requires Faithful(log) && (e.Sent? && e.within.Some? ==> (e.toplevel, e.within.value) in Live(log))
    ensures Faithful(log + [e])
    ensures Live(log + [e]) == LiveNext(Live(log), e)
  {
    var more := log + [e];
    LiveAfter(log, e);
    assert more[..|log|] == log;
    forall i | 0 <= i < |more| && more[i].Sent? && more[i].within.Some?
      ensures (more[i].toplevel, more[i].within.value) in Live(more[..i])
    {
      if i < |log| {
        assert more[..i] == log[..i];
      }
    }
  }

  ghost predicate SoundEvent(c: Contexts, log: seq<Event>, e: Event) {
    match e
    case Selected(t) => c.current.None?
    case Resolved(t, f) => Agree(c, log) || c == Contexts(Some(t), Some(f))
    case Sent(t, f) => (f.Some? ==> (t, f.value) in Live(log)) && Agree(c, log)
  }

  /** What an effect must be for the promises to survive it. */
  ghost predicate Sound(log: seq<Event>, effect: Effect) {
    && effect.Effect?
    && |effect.events| <= 1
    && (effect.events == [] ==> Agree(effect.contexts, log))
    && (effect.events != [] ==> SoundEvent(effect.contexts, log, effect.events[0]))
    && (effect.next.Some? ==> CountsOn(effect.next.value, effect.contexts))
  }

  lemma BeginIsSound(c: Contexts, command: Command, log: seq<Event>)
    requires Agree(c, log)
    ensures Sound(log, Begin(c, command))
  {
  }

  lemma ProceedIsSound(c: Contexts, command: Command, log: seq<Event>)
    requires Agree(c, log) && CountsOn(Prompts(command), c)
    ensures Sound(log, Proceed(c, command))
  {
  }

  lemma FinishIsSound(c: Contexts, command: Command, asked: Handle, a: Answer, log: seq<Event>)
    requires Agree(c, log) && CountsOn(Message(command, asked), c)
    ensures Sound(log, Finish(c, command, asked, a))
  {
    if command.WaitForNavigation? && command.after.Some? {
      BeginIsSound(Waited(c, a), command.after.value, log);
    }
  }

  /** A sound effect keeps the promises. */
  lemma SoundKeeps(log: seq<Event>, effect: Effect)
    requires Faithful(log) && Sound(log, effect)
    ensures Faithful(log + effect.events) && Agree(effect.contexts, log + effect.events)
  {
    if effect.events == [] {
      assert log + effect.events == log;
    } else {
      LogOne(log, effect.events[0]);
      assert log + effect.events == log + [effect.events[0]];
    }
  }

  // ----- the session object -----

  /** The session, one command at a time: its handles, the callback it waits in, and what was seen of it. */
  class Session {
    var toplevel: Option<Handle>
    var current: Option<Handle>
    var pending: Option<Stage>
    ghost var log: seq<Event>

    function Now(): Contexts
      reads this
    {
      Contexts(toplevel, current)
    }

    /** The promises hold so far, and the pending callback finds the handles it reads. */
    ghost predicate Valid()
      reads this
    {
      Faithful(log) && Agree(Now(), log) && (pending.Some? ==> CountsOn(pending.value, Now()))
    }

    constructor ()
      ensures Valid() && Now() == Contexts(None, None) && pending == None && log == []
    {
      toplevel, current, pending := None, None, None;
      log := [];
    }

    method SwitchToTopLevelBrowsingContext(t: Option<Handle>)
      modifies this`toplevel, this`current
      ensures Now() == SelectTopLevel(t)
    {
      toplevel := t;
      current := None;
    }

    method SwitchToBrowsingContext(f: Option<Handle>)
      modifies this`current
      ensures Now() == SelectFrame(old(Now()), f)
    {
      if f.None? || f.value == "" {
        current := None;
      } else {
        current := f;
      }
    }

    method Send(within: Option<Handle>, stage: Stage)
      requires toplevel.Some?
      modifies this`pending, this`log
      ensures pending == Some(stage) && log == old(log) + [Sent(toplevel.value, within)]
    {
      log := log + [Sent(toplevel.value, within)];
      pending := Some(stage);
    }

    /** A new command; the promises survive it, and its callback will find what it reads. */
    method Start(command: Command)
      requires Valid() && pending.None?
      modifies this
      ensures Valid() && old(log) <= log
      ensures Begin(old(Now()), command) == Effect(Now(), log[|old(log)|..], pending)
    {
      BeginIsSound(Now(), command, log);
      SoundKeeps(log, Begin(Now(), command));
      Launch(command);
    }

    /** The part of a command before its first answer. */
    method Launch(command: Command)
      requires pending.None?
      modifies this
      ensures log == old(log) + Begin(old(Now()), command).events
      ensures Now() == Begin(old(Now()), command).contexts && pending == Begin(old(Now()), command).next
    {
      if command.CreateTopLevel? {
        pending := Some(Message(command, ""));
      } else if command.SwitchToWindow? {
        pending := Some(Message(command, command.window));
      } else if command.CloseSession? {
        toplevel := None;
      } else if toplevel.Some? {
        if command == SwitchToFrame(NullFrame) {
          SwitchToBrowsingContext(None);
        } else if !command.SwitchToParentFrame? || current.Some? {
          if command.WaitForNavigation? {
            Send(current, Message(command, toplevel.value));
          } else if command.AskWindow? {
            Send(None, Message(command, toplevel.value));
          } else {
            Send(None, Prompts(command));
          }
        }
      }
    }

    /** The callback after prompts: it reads the window's handle without a check, and the frame's on the way to
        its parent; both are there. */
    method PromptsHandled()
      requires Valid() && pending.Some? && pending.value.Prompts?
      modifies this
      ensures Valid() && old(log) <= log
      ensures Proceed(old(Now()), old(pending).value.command) == Effect(Now(), log[|old(log)|..], pending)
    {
      var command := pending.value.command;
      ProceedIsSound(Now(), command, log);
      SoundKeeps(log, Proceed(Now(), command));
      var t := toplevel.value;
      pending := None;
      if command.CloseWindow? {
        Send(None, Message(command, t));
        toplevel := None;
      } else if command.Navigate? {
        Send(None, Message(command, t));
      } else if command.SwitchToParentFrame? {
        Send(Some(current.value), Message(command, t));
      } else if command != SwitchToFrame(BadFrame) {
        Send(current, Message(command, t));
      }
      assert log == old(log) + Proceed(old(Now()), command).events;
    }

    /** The callback of a command's own message; one that sends another reads the handles again. */
    method MessageAnswered(a: Answer)
      requires Valid() && pending.Some? && pending.value.Message?
      modifies this
      ensures Valid() && old(log) <= log
      ensures Finish(old(Now()), old(pending).value.command, old(pending).value.toplevel, a) ==
        Effect(Now(), log[|old(log)|..], pending)
    {
      var command, asked := pending.value.command, pending.value.toplevel;
      ghost var effect := Finish(Now(), command, asked, a);
      FinishIsSound(Now(), command, asked, a, log);
      SoundKeeps(log, effect);
      pending := None;
      if command.UseFrame? {
        if !IsError(a) {
          if command.more > 0 {
            Send(current, Message(UseFrame(command.more - 1, command.wait), toplevel.value));
          } else if command.wait && toplevel.Some? {
            Send(current, Message(WaitForNavigation(None), toplevel.value));
          }
        }
      } else if command.WaitForNavigation? {
        if a.NoSuchWindow? {
          toplevel := None;
        } else if a.NoSuchFrame? {
          SwitchToBrowsingContext(None);
        }
        if !a.Failure? && command.after.Some? {
          Launch(command.after.value);
        }
      } else {
        Settle(command, asked, a);
      }
      assert log == old(log) + effect.events;
    }

    /** What the last answer of a command does to the handles. */
    method Settle(command: Command, asked: Handle, a: Answer)
      requires !command.UseFrame? && !command.WaitForNavigation? && pending.None?
      modifies this`toplevel, this`current, this`log
      ensures Now() == Finish(old(Now()), command, asked, a).contexts
      ensures log == old(log) + Finish(old(Now()), command, asked, a).events
    {
      if command.CreateTopLevel? && a.Resolution? {
        SwitchToTopLevelBrowsingContext(Some(a.handle));
        log := log + [Selected(a.handle)];
      } else if command.SwitchToWindow? && !IsError(a) {
        SwitchToTopLevelBrowsingContext(Some(command.window));
        log := log + [Selected(command.window)];
      } else if command.Navigate? && !IsError(a) {
        SwitchToBrowsingContext(None);
      } else if (command.SwitchToFrame? || command.SwitchToParentFrame?) && a.Resolution? {
        SwitchToBrowsingContext(Some(a.handle));
        log := log + [Resolved(asked, a.handle)];
      }
    }
  }

  // ----- runs -----

  /** The commands in flight are known by the order they were started in. */
  datatype State = State(contexts: Contexts, flying: map<nat, Stage>, started: nat, log: seq<Event>, crashed: bool)

  const FRESH := State(Contexts(None, None), map[], 0, [], false)

  datatype Step = Start(command: Command) | PromptsEnd(id: nat, handled: bool) | Answered(id: nat, answer: Answer)

  predicate Enabled(s: State, step: Step) {
    !s.crashed &&
    match step
    case Start(command) => IsRequest(command)
    case PromptsEnd(id, _) => id in s.flying && s.flying[id].Prompts?
    case Answered(id, _) => id in s.flying && s.flying[id].Message?
  }

  /** What a step of a command in flight makes the session do. */
  function StageEffect(c: Contexts, stage: Stage, step: Step): Effect {
    match step
    case Start(command) => Begin(c, command)
    case PromptsEnd(_, handled) => if handled then Proceed(c, stage.command) else Effect(c, [], None)
    case Answered(_, a) => if stage.Message? then Finish(c, stage.command, stage.toplevel, a) else Effect(c, [], None)
  }

  function EffectOf(s: State, step: Step): Effect
    requires Enabled(s, step)
  {
    if step.Start? then Begin(s.contexts, step.command) else StageEffect(s.contexts, s.flying[step.id], step)
  }

  /** A command goes on to its next stage, or is over. */
  function Placed(flying: map<nat, Stage>, id: nat, next: Option<Stage>): map<nat, Stage> {
    if next.Some? then flying[id := next.value] else flying - {id}
  }

  function Apply(s: State, step: Step): State
    requires Enabled(s, step)
  {
    match EffectOf(s, step)
    case Crash => s.(crashed := true)
    case Effect(contexts, events, next) =>
      if step.Start? then
        State(contexts, Placed(s.flying, s.started, next), s.started + 1, s.log + events, false)
      else
        State(contexts, Placed(s.flying, step.id, next), s.started, s.log + events, false)
  }

  ghost predicate Runs(s: State, steps: seq<Step>, t: State)
    decreases |steps|
  {
    if steps == [] then s == t else Enabled(s, steps[0]) && Runs(Apply(s, steps[0]), steps[1..], t)
  }

  /** Every command completes before the next starts. */
  ghost predicate Serial(s: State, steps: seq<Step>)
    decreases |steps|
  {
    steps != [] && Enabled(s, steps[0]) ==>
      (steps[0].Start? ==> s.flying == map[]) && Serial(Apply(s, steps[0]), steps[1..])
  }

  ghost predicate Inv(s: State) {
    && !s.crashed
    && (forall i, j :: i in s.flying && j in s.flying ==> i == j)
    && Faithful(s.log) && Agree(s.contexts, s.log)
    && (forall i :: i in s.flying ==> CountsOn(s.flying[i], s.contexts))
  }

  lemma EffectIsSound(s: State, step: Step)
    requires Inv(s) && Enabled(s, step)
    ensures Sound(s.log, EffectOf(s, step))
  {
    match step
    case Start(command) => BeginIsSound(s.contexts, command, s.log);
    case PromptsEnd(id, handled) => if handled { ProceedIsSound(s.contexts, s.flying[id].command, s.log); }
    case Answered(id, a) => FinishIsSound(s.contexts, s.flying[id].command, s.flying[id].toplevel, a, s.log);
  }

  lemma StepKeeps(s: State, step: Step)
    requires Inv(s) && Enabled(s, step) && (step.Start? ==> s.flying == map[])
    ensures Inv(Apply(s, step))
  {
    EffectIsSound(s, step);
    SoundKeeps(s.log, EffectOf(s, step));
  }

  lemma {:induction false} SerialKeeps(s: State, steps: seq<Step>, t: State)
    requires Inv(s) && Runs(s, steps, t) && Serial(s, steps)
    ensures Inv(t)
    decreases |steps|
  {
    if steps != [] {
      StepKeeps(s, steps[0]);
      SerialKeeps(Apply(s, steps[0]), steps[1..], t);
    }
  }

  /** In every serial run, whatever the browser answers and however many messages commands send: no message
      names a frame with a window it was not found in since that window was selected, the frame kept is always
      one of the window kept, and no handle that is not there is ever read. */
  lemma SerialRunsAreFaithful(steps: seq<Step>, t: State)
    requires Runs(FRESH, steps, t) && Serial(FRESH, steps)
    ensures Faithful(t.log) && Agree(t.contexts, t.log) && !t.crashed
  {
    SerialKeeps(FRESH, steps, t);
  }
}
