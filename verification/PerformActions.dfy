/** What a session tells the browser about its input sources, tick by tick. */
module PerformActions {
  import opened Wrappers
  import opened History
  import opened ActionTicks
  import opened SendKeys

  type Id = string

  datatype MouseButton = NoButton | Left | Middle | Right

  datatype Origin = Viewport | Pointer | Element(elementID: string)

  /** What an action does; the kind of its source decides which of these it may be. */
  datatype Doing =
    | Pause(duration: nat)
    | PointerUp
    | PointerDown(button: MouseButton)
    | PointerMove(origin: Origin, x: Option<int>, y: Option<int>, moveDuration: Option<nat>)
    | PointerCancel
    | KeyUp
    | KeyDown(key: seq<nat>)

  datatype SourceType = NullSource | KeySource | PointerSource

  datatype Action = Action(id: Id, source: SourceType, doing: Doing)

  /** What the parser lets through: a pointer move may lack its coordinates. */
  predicate Accepted(a: Action) {
    match a.doing
    case Pause(_) => true
    case KeyUp => a.source.KeySource?
    case KeyDown(key) => a.source.KeySource? && key != []
    case _ => a.source.PointerSource?
  }

  /** What dispatching counts on. */
  predicate HasPlace(a: Action) { a.doing.PointerMove? ==> a.doing.x.Some? && a.doing.y.Some? }

  predicate WellFormed(a: Action) { Accepted(a) && HasPlace(a) }

  /** What is remembered of a source. */
  datatype InputState = InputState(
    pressedButton: Option<MouseButton>,
    pressedKey: Option<seq<nat>>,
    pressedVirtualKey: Option<Key>)

  const IDLE := InputState(None, None, None)

  datatype Move = Move(origin: Origin, x: int, y: int)

  /** What the browser is told about a source in one tick. */
  datatype Shown = Shown(
    sourceId: Id,
    duration: Option<nat>,
    move: Option<Move>,
    pressedButton: Option<MouseButton>,
    pressedCharKey: Option<seq<nat>>,
    pressedVirtualKey: Option<Key>)

  function StateAfter(keyOf: KeyTable, s: InputState, a: Action): InputState
    requires WellFormed(a)
  {
    match a.doing
    case PointerUp => s.(pressedButton := None)
    case PointerCancel => s.(pressedButton := None)
    case PointerDown(button) => s.(pressedButton := Some(button))
    case KeyUp => if s.pressedVirtualKey.Some? then s.(pressedVirtualKey := None) else s.(pressedKey := None)
    case KeyDown(key) =>
      if keyOf(key[0]).Some? then s.(pressedVirtualKey := keyOf(key[0])) else s.(pressedKey := Some(key))
    case _ => s
  }

  /** What is shown of an action, given the state it leads to. */
  function Show(after: InputState, a: Action): Shown
    requires WellFormed(a)
  {
    var plain := Shown(a.id, None, None, None, None, None);
    var held :=
      match a.source
      case NullSource => plain
      case PointerSource => plain.(pressedButton := after.pressedButton)
      case KeySource => plain.(pressedCharKey := after.pressedKey, pressedVirtualKey := after.pressedVirtualKey);
    match a.doing
    case Pause(duration) => held.(duration := Some(duration))
    case PointerMove(origin, x, y, duration) =>
      held.(duration := duration, move := Some(Move(origin, x.value, y.value)))
    case _ => held
  }

  // ----- one source alone -----

  ghost predicate AllAccepted(actions: seq<Action>) { forall i :: 0 <= i < |actions| ==> Accepted(actions[i]) }

  ghost predicate AllHavePlaces(actions: seq<Action>) { forall i :: 0 <= i < |actions| ==> HasPlace(actions[i]) }

  ghost predicate AllWellFormed(actions: seq<Action>) { AllAccepted(actions) && AllHavePlaces(actions) }

  ghost function FinalState(keyOf: KeyTable, s: InputState, actions: seq<Action>): InputState
    requires AllWellFormed(actions)
  {
    if actions == [] then s
    else StateAfter(keyOf, FinalState(keyOf, s, actions[..|actions| - 1]), actions[|actions| - 1])
  }

  /** What is shown of one source's actions, from a state of that source. */
  ghost function ShownAlone(keyOf: KeyTable, s: InputState, actions: seq<Action>): seq<Shown>
    requires AllWellFormed(actions)
  {
    if actions == [] then []
    else
      var last := |actions| - 1;
      ShownAlone(keyOf, s, actions[..last]) + [Show(FinalState(keyOf, s, actions), actions[last])]
  }

  predicate Touches(a: Action) { a.doing.PointerDown? || a.doing.PointerUp? || a.doing.PointerCancel? }

  ghost predicate Untouched(actions: seq<Action>, from: nat) {
    forall j :: from <= j < |actions| ==> !Touches(actions[j])
  }

  /** The last action on the buttons pressed this one. */
  ghost predicate LastPressed(actions: seq<Action>, b: MouseButton) {
    exists i :: 0 <= i < |actions| && actions[i].doing == PointerDown(b) && Untouched(actions, i + 1)
  }

  /** An action that leaves buttons alone changes nothing about who touched them last. */
  lemma UntouchedFront(actions: seq<Action>, from: nat)
    requires actions != [] && !Touches(actions[|actions| - 1])
    ensures Untouched(actions, from) <==> Untouched(actions[..|actions| - 1], from)
  {
    var front := actions[..|actions| - 1];
    if Untouched(front, from) {
      forall j | from <= j < |actions| ensures !Touches(actions[j]) {
        assert j < |front| ==> front[j] == actions[j];
      }
    }
  }

  lemma LastPressedFront(actions: seq<Action>, b: MouseButton)
    requires actions != [] && !Touches(actions[|actions| - 1])
    ensures LastPressed(actions, b) <==> LastPressed(actions[..|actions| - 1], b)
  {
    var front := actions[..|actions| - 1];
    if LastPressed(actions, b) {
      var i :| 0 <= i < |actions| && actions[i].doing == PointerDown(b) && Untouched(actions, i + 1);
      UntouchedFront(actions, i + 1);
      assert front[i].doing == PointerDown(b);
    }
    if LastPressed(front, b) {
      var i :| 0 <= i < |front| && front[i].doing == PointerDown(b) && Untouched(front, i + 1);
      UntouchedFront(actions, i + 1);
      assert actions[i].doing == PointerDown(b);
    }
  }

  lemma LastPressedLast(actions: seq<Action>, b: MouseButton)
    requires actions != [] && Touches(actions[|actions| - 1])
    ensures !Untouched(actions, 0)
    ensures LastPressed(actions, b) <==> actions[|actions| - 1].doing == PointerDown(b)
  {
    var last := |actions| - 1;
    assert Untouched(actions, last + 1);
  }

  /** A button is down exactly when the last action on buttons pressed it, or none was acted on and it was down
      before. */
  lemma {:induction false} ButtonHeld(keyOf: KeyTable, s: InputState, actions: seq<Action>, b: MouseButton)
    requires AllWellFormed(actions)
    ensures FinalState(keyOf, s, actions).pressedButton == Some(b) <==>
      LastPressed(actions, b) || (Untouched(actions, 0) && s.pressedButton == Some(b))
  {
    if actions != [] {
      var last := |actions| - 1;
      ButtonHeld(keyOf, s, actions[..last], b);
      if Touches(actions[last]) {
        LastPressedLast(actions, b);
      } else {
        LastPressedFront(actions, b);
        UntouchedFront(actions, 0);
      }
    }
  }

  // ----- keys -----

  /** What an action does to the special key held: one going down takes its place, and any coming up lets it go. */
  function SpecialMark(keyOf: KeyTable, a: Action): Mark<Key> {
    if a.doing.KeyUp? then Clears
    else if a.doing.KeyDown? && a.doing.key != [] && keyOf(a.doing.key[0]).Some? then Sets(keyOf(a.doing.key[0]).value)
    else Keeps
  }

  /** What it does to the character held: one coming up lets it go only if no special key is held. */
  function CharacterMark(keyOf: KeyTable, specialHeld: bool, a: Action): Mark<seq<nat>> {
    if a.doing.KeyUp? && !specialHeld then Clears
    else if a.doing.KeyDown? && a.doing.key != [] && keyOf(a.doing.key[0]).None? then Sets(a.doing.key)
    else Keeps
  }

  ghost function SpecialMarks(keyOf: KeyTable, actions: seq<Action>): seq<Mark<Key>> {
    if actions == [] then [] else
      var last := |actions| - 1;
      SpecialMarks(keyOf, actions[..last]) + [SpecialMark(keyOf, actions[last])]
  }

  ghost function CharacterMarks(keyOf: KeyTable, s: InputState, actions: seq<Action>): seq<Mark<seq<nat>>>
    requires AllWellFormed(actions)
  {
    if actions == [] then [] else
      var last := |actions| - 1;
      var specialHeld := FinalState(keyOf, s, actions[..last]).pressedVirtualKey.Some?;
      CharacterMarks(keyOf, s, actions[..last]) + [CharacterMark(keyOf, specialHeld, actions[last])]
  }

  /** A special key is held exactly when it was the last to go down and none has come up since, or none went down or
      came up and it was held before. */
  lemma {:induction false} SpecialKeyHeld(keyOf: KeyTable, s: InputState, actions: seq<Action>, k: Key)
    requires AllWellFormed(actions)
    ensures FinalState(keyOf, s, actions).pressedVirtualKey == Some(k) <==>
      LastSet(SpecialMarks(keyOf, actions), k) ||
      (AllKeep(SpecialMarks(keyOf, actions)) && s.pressedVirtualKey == Some(k))
  {
    if actions != [] {
      var last := |actions| - 1;
      SpecialKeyHeld(keyOf, s, actions[..last], k);
      LastSetOneMore(SpecialMarks(keyOf, actions[..last]), SpecialMark(keyOf, actions[last]), k);
    }
  }

  /** A character is held exactly when it was the last to go down and nothing has come up since while no special key
      was held, or none did either and it was held before. */
  lemma {:induction false} CharacterHeld(keyOf: KeyTable, s: InputState, actions: seq<Action>, key: seq<nat>)
    requires AllWellFormed(actions)
    ensures FinalState(keyOf, s, actions).pressedKey == Some(key) <==>
      LastSet(CharacterMarks(keyOf, s, actions), key) ||
      (AllKeep(CharacterMarks(keyOf, s, actions)) && s.pressedKey == Some(key))
  {
    if actions != [] {
      var last := |actions| - 1;
      CharacterHeld(keyOf, s, actions[..last], key);
      var specialHeld := FinalState(keyOf, s, actions[..last]).pressedVirtualKey.Some?;
      LastSetOneMore(CharacterMarks(keyOf, s, actions[..last]), CharacterMark(keyOf, specialHeld, actions[last]), key);
    }
  }

  // ----- what is shown -----

  /** What is shown of an action tells where it moves to, from where and for how long, exactly if it is a move, and
      what its kind of source holds after it. */
  ghost predicate ShowsWell(shown: Shown, a: Action, after: InputState) {
    && shown.sourceId == a.id
    && (a.doing.PointerMove? ==>
        shown.move.Some? && shown.move.value.origin == a.doing.origin && shown.duration == a.doing.moveDuration &&
        Some(shown.move.value.x) == a.doing.x && Some(shown.move.value.y) == a.doing.y)
    && (!a.doing.PointerMove? ==> shown.move.None?)
    && (a.doing.Pause? ==> shown.duration == Some(a.doing.duration))
    && (!a.doing.PointerMove? && !a.doing.Pause? ==> shown.duration.None?)
    && shown.pressedButton == (if a.source.PointerSource? then after.pressedButton else None)
    && shown.pressedCharKey == (if a.source.KeySource? then after.pressedKey else None)
    && shown.pressedVirtualKey == (if a.source.KeySource? then after.pressedVirtualKey else None)
  }

  lemma ShowShows(after: InputState, a: Action)
    requires WellFormed(a)
    ensures ShowsWell(Show(after, a), a, after)
  {
  }

  /** One thing is shown of each action of a source, with what the actions so far lead to. */
  lemma {:induction false} EachIsShown(keyOf: KeyTable, s: InputState, actions: seq<Action>, i: nat)
    requires AllWellFormed(actions) && i < |actions|
    ensures |ShownAlone(keyOf, s, actions)| == |actions|
    ensures ShowsWell(ShownAlone(keyOf, s, actions)[i], actions[i], FinalState(keyOf, s, actions[..i + 1]))
  {
    var last := |actions| - 1;
    ShownLength(keyOf, s, actions);
    ShownLength(keyOf, s, actions[..last]);
    if i == last {
      assert actions[..i + 1] == actions;
      ShowShows(FinalState(keyOf, s, actions), actions[last]);
    } else {
      EachIsShown(keyOf, s, actions[..last], i);
      assert actions[..last][..i + 1] == actions[..i + 1];
    }
  }

  lemma {:induction false} ShownLength(keyOf: KeyTable, s: InputState, actions: seq<Action>)
    requires AllWellFormed(actions)
    ensures |ShownAlone(keyOf, s, actions)| == |actions|
  {
    if actions != [] {
      ShownLength(keyOf, s, actions[..|actions| - 1]);
    }
  }

  // ----- all sources together -----

  type Table = map<Id, InputState>

  function Of(table: Table, id: Id): InputState { if id in table then table[id] else IDLE }

  function By(id: Id): Action -> bool { (a: Action) => a.id == id }

  function About(id: Id): Shown -> bool { (s: Shown) => s.sourceId == id }

  lemma {:induction false} OnlyWellFormed(actions: seq<Action>, id: Id)
    requires AllWellFormed(actions)
    ensures AllWellFormed(Only(actions, By(id)))
  {
    if actions != [] {
      OnlyWellFormed(actions[..|actions| - 1], id);
    }
  }

  /** What the actions so far must have done: for every source, the table holds, and what was shown of it is,
      what its own actions alone lead to. */
  ghost predicate Faithful(keyOf: KeyTable, before: Table, done: seq<Action>, after: Table, shown: seq<Shown>) {
    AllWellFormed(done) &&
    forall id :: Mirrors(keyOf, Of(before, id), done, id, Of(after, id), shown)
  }

  ghost predicate Mirrors(keyOf: KeyTable, s: InputState, done: seq<Action>, id: Id, t: InputState, shown: seq<Shown>)
    requires AllWellFormed(done)
  {
    OnlyWellFormed(done, id);
    t == FinalState(keyOf, s, Only(done, By(id))) && Only(shown, About(id)) == ShownAlone(keyOf, s, Only(done, By(id)))
  }

  lemma OnlyMore<A>(s: seq<A>, a: A, keep: A -> bool)
    ensures Only(s + [a], keep) == if keep(a) then Only(s, keep) + [a] else Only(s, keep)
  {
    assert (s + [a])[..|s|] == s;
  }

  lemma MirrorsMore(keyOf: KeyTable, s: InputState, done: seq<Action>, id: Id, t: InputState, shown: seq<Shown>,
      a: Action, v: InputState)
    requires AllWellFormed(done) && WellFormed(a) && Mirrors(keyOf, s, done, id, t, shown)
    requires a.id == id ==> v == StateAfter(keyOf, t, a)
    ensures AllWellFormed(done + [a])
    ensures Mirrors(keyOf, s, done + [a], id, if a.id == id then v else t, shown + [Show(v, a)])
  {
    var alone := Only(done, By(id));
    OnlyWellFormed(done, id);
    OnlyMore(done, a, By(id));
    OnlyMore(shown, Show(v, a), About(id));
    assert Show(v, a).sourceId == a.id;
    assert (alone + [a])[..|alone|] == alone;
  }

  lemma FaithfulMore(keyOf: KeyTable, before: Table, done: seq<Action>, table: Table, shown: seq<Shown>, a: Action)
    requires Faithful(keyOf, before, done, table, shown) && WellFormed(a)
    ensures var v := StateAfter(keyOf, Of(table, a.id), a);
      Faithful(keyOf, before, done + [a], table[a.id := v], shown + [Show(v, a)])
  {
    var v := StateAfter(keyOf, Of(table, a.id), a);
    var more, now, all := done + [a], table[a.id := v], shown + [Show(v, a)];
    assert AllWellFormed(more);
    forall id ensures Mirrors(keyOf, Of(before, id), more, id, Of(now, id), all) {
      assert Mirrors(keyOf, Of(before, id), done, id, Of(table, id), shown);
      MirrorsMore(keyOf, Of(before, id), done, id, Of(table, id), shown, a, v);
      assert Of(now, id) == if a.id == id then v else Of(table, id);
    }
  }

  lemma FaithfulStart(keyOf: KeyTable, before: Table)
    ensures Faithful(keyOf, before, [], before, [])
  {
    forall id ensures Mirrors(keyOf, Of(before, id), [], id, Of(before, id), []) {
    }
  }

  class Session {
    var inputStateTable: Table

    constructor ()
      ensures inputStateTable == map[]
    {
      inputStateTable := map[];
    }

    /** One action; a pointer move without coordinates ends the program. */
    method PerformOne(keyOf: KeyTable, a: Action) returns (r: Option<Shown>)
      requires Accepted(a)
      modifies this
      ensures r.Some? <==> HasPlace(a)
      ensures r.Some? ==>
        inputStateTable == old(inputStateTable)[a.id := StateAfter(keyOf, Of(old(inputStateTable), a.id), a)]
      ensures r.Some? ==> r.value == Show(inputStateTable[a.id], a)
    {
      var current := Of(inputStateTable, a.id);
      var shown := Shown(a.id, None, None, None, None, None);
      match a.doing {
        case Pause(duration) => shown := shown.(duration := Some(duration));
        case PointerUp => current := current.(pressedButton := None);
        case PointerDown(button) => current := current.(pressedButton := Some(button));
        case PointerMove(origin, x, y, duration) =>
          if x.None? || y.None? {
            return None;
          }
          shown := shown.(duration := duration, move := Some(Move(origin, x.value, y.value)));
        case PointerCancel => current := current.(pressedButton := None);
        case KeyUp =>
          if current.pressedVirtualKey.Some? {
            current := current.(pressedVirtualKey := None);
          } else {
            current := current.(pressedKey := None);
          }
        case KeyDown(key) =>
          var virtualKey := keyOf(key[0]);
          if virtualKey.Some? {
            current := current.(pressedVirtualKey := virtualKey);
          } else {
            current := current.(pressedKey := Some(key));
          }
      }
      if a.source.PointerSource? {
        shown := shown.(pressedButton := current.pressedButton);
      } else if a.source.KeySource? {
        shown := shown.(pressedCharKey := current.pressedKey, pressedVirtualKey := current.pressedVirtualKey);
      }
      inputStateTable := inputStateTable[a.id := current];
      r := Some(shown);
    }

    /** One action more, seen against all that went before. */
    method PerformNext(keyOf: KeyTable, a: Action,
        ghost before: Table, ghost done: seq<Action>, ghost told: seq<Shown>)
      returns (r: Option<Shown>)
      requires Accepted(a) && Faithful(keyOf, before, done, inputStateTable, told)
      modifies this
      ensures r.Some? <==> HasPlace(a)
      ensures r.Some? ==> Faithful(keyOf, before, done + [a], inputStateTable, told + [r.value])
    {
      if HasPlace(a) {
        FaithfulMore(keyOf, before, done, inputStateTable, told, a);
      }
      r := PerformOne(keyOf, a);
    }

    /** The states of one tick. */
    method PerformTick(keyOf: KeyTable, tick: seq<Action>,
        ghost before: Table, ghost done: seq<Action>, ghost told: seq<Shown>)
      returns (r: Option<seq<Shown>>)
      requires AllAccepted(tick) && Faithful(keyOf, before, done, inputStateTable, told)
      modifies this
      ensures r.Some? <==> AllHavePlaces(tick)
      ensures r.Some? ==> |r.value| == |tick| && Faithful(keyOf, before, done + tick, inputStateTable, told + r.value)
    {
      var states: seq<Shown> := [];
      ghost var sofar, shownSoFar := done, told;
      for j := 0 to |tick|
        invariant |states| == j && forall i :: 0 <= i < j ==> HasPlace(tick[i])
        invariant sofar == done + tick[..j] && shownSoFar == told + states
        invariant Faithful(keyOf, before, sofar, inputStateTable, shownSoFar)
      {
        var shown := PerformNext(keyOf, tick[j], before, sofar, shownSoFar);
        if shown.None? {
          return None;
        }
        sofar, shownSoFar := sofar + [tick[j]], shownSoFar + [shown.value];
        states := states + [shown.value];
      }
      assert tick[..|tick|] == tick;
      r := Some(states);
    }

    /** All ticks: whatever the interleaving, each source's part is what its own actions alone lead to. */
    method PerformAll(keyOf: KeyTable, actionsByTick: seq<seq<Action>>) returns (r: Option<seq<seq<Shown>>>)
      requires forall i :: 0 <= i < |actionsByTick| ==> AllAccepted(actionsByTick[i])
      modifies this
      ensures r.Some? <==> forall i :: 0 <= i < |actionsByTick| ==> AllHavePlaces(actionsByTick[i])
      ensures r.Some? ==> |r.value| == |actionsByTick|
      ensures r.Some? ==> forall i :: 0 <= i < |r.value| ==> |r.value[i]| == |actionsByTick[i]|
      ensures r.Some? ==> Faithful(keyOf, old(inputStateTable), Flat(actionsByTick), inputStateTable, Flat(r.value))
    {
      var steps: seq<seq<Shown>> := [];
      FaithfulStart(keyOf, inputStateTable);
      assert actionsByTick[..0] == [];
      for i := 0 to |actionsByTick|
        invariant |steps| == i && forall j :: 0 <= j < i ==> |steps[j]| == |actionsByTick[j]|
        invariant forall j :: 0 <= j < i ==> AllHavePlaces(actionsByTick[j])
        invariant Faithful(keyOf, old(inputStateTable), Flat(actionsByTick[..i]), inputStateTable, Flat(steps))
      {
        var states := PerformTick(keyOf, actionsByTick[i],
          old(inputStateTable), Flat(actionsByTick[..i]), Flat(steps));
        if states.None? {
          return None;
        }
        assert actionsByTick[..i + 1][..i] == actionsByTick[..i] && (steps + [states.value])[..i] == steps;
        steps := steps + [states.value];
      }
      assert actionsByTick[..|actionsByTick|] == actionsByTick;
      r := Some(steps);
    }

    /** From the sources to the browser: the program ends exactly if some pointer move lacks a coordinate.
        Otherwise, for sources with different names, what is shown of each, and what is remembered of it, is
        what running that source alone would have given. */
    method PerformSources(keyOf: KeyTable, sources: seq<seq<Action>>, ids: seq<Id>) returns (r: Option<seq<seq<Shown>>>)
      requires forall k :: 0 <= k < |sources| ==> AllAccepted(sources[k])
      requires Named(sources, ids)
      modifies this
      ensures r.Some? <==> forall k :: 0 <= k < |sources| ==> AllHavePlaces(sources[k])
      ensures r.Some? ==> |r.value| == Longest(sources)
      ensures r.Some? ==> forall k :: 0 <= k < |sources| ==>
        Only(Flat(r.value), About(ids[k])) == ShownAlone(keyOf, Of(old(inputStateTable), ids[k]), sources[k])
      ensures r.Some? ==> forall k :: 0 <= k < |sources| ==>
        Of(inputStateTable, ids[k]) == FinalState(keyOf, Of(old(inputStateTable), ids[k]), sources[k])
    {
      var ticks := ActionsByTick(sources);
      TicksLikeSources(ticks, sources);
      r := PerformAll(keyOf, ticks);
      if r.Some? {
        forall k | 0 <= k < |sources|
          ensures Only(Flat(r.value), About(ids[k])) == ShownAlone(keyOf, Of(old(inputStateTable), ids[k]), sources[k])
          ensures Of(inputStateTable, ids[k]) == FinalState(keyOf, Of(old(inputStateTable), ids[k]), sources[k])
        {
          SourceIsKept(ticks, sources, k, By(ids[k]));
          assert Mirrors(keyOf, Of(old(inputStateTable), ids[k]), Flat(ticks), ids[k],
            Of(inputStateTable, ids[k]), Flat(r.value));
        }
      }
    }
  }

  /** Each source has a name of its own. */
  ghost predicate Named(sources: seq<seq<Action>>, ids: seq<Id>) {
    && |ids| == |sources|
    && (forall j, k :: 0 <= j < k < |ids| ==> ids[j] != ids[k])
    && (forall k, i :: 0 <= k < |sources| && 0 <= i < |sources[k]| ==> sources[k][i].id == ids[k])
  }

  /** The ticks are as well formed as the sources. */
  lemma TicksLikeSources(ticks: seq<seq<Action>>, sources: seq<seq<Action>>)
    requires IsTransposeOf(ticks, sources)
    ensures (forall k :: 0 <= k < |sources| ==> AllAccepted(sources[k])) ==>
      forall i :: 0 <= i < |ticks| ==> AllAccepted(ticks[i])
    ensures (forall k :: 0 <= k < |sources| ==> AllHavePlaces(sources[k])) <==>
      forall i :: 0 <= i < |ticks| ==> AllHavePlaces(ticks[i])
  {
    forall i, j | 0 <= i < |ticks| && 0 <= j < |ticks[i]|
      ensures exists k :: 0 <= k < |sources| && ticks[i][j] in sources[k]
    {
      assert ticks[i][j] in ticks[i];
      SameActions(ticks, sources, ticks[i][j]);
    }
    forall k, j | 0 <= k < |sources| && 0 <= j < |sources[k]|
      ensures exists i :: 0 <= i < |ticks| && sources[k][j] in ticks[i]
    {
      assert sources[k][j] in sources[k];
      SameActions(ticks, sources, sources[k][j]);
    }
  }

  /** One pointer move with one coordinate, which the parser lets through, ends the program. */
  method MoveWithoutPlace(keyOf: KeyTable) returns (a: Action, r: Option<seq<seq<Shown>>>)
    ensures Accepted(a) && a.doing == PointerMove(Viewport, None, Some(0), None) && r.None?
  {
    a := Action("mouse", PointerSource, PointerMove(Viewport, None, Some(0), None));
    var session := new Session();
    r := session.PerformSources(keyOf, [[a]], ["mouse"]);
    assert !HasPlace([[a]][0][0]);
  }
}
