/** What a script's result becomes on its way back to the client: nodes of the session become web elements. */
module ScriptResult {
  import opened Wrappers
  import opened Json

  const WEB_ELEMENT := "element-6066-11e4-a52e-4f735466cecf"

  function NodeKey(session: string): string { "session-node-" + session }

  /** A node of the session: an object that names it. Whatever else the object holds is not looked at. */
  predicate IsNode(session: string, v: Value) {
    v.Object? && NodeKey(session) in v.members && v.members[NodeKey(session)].String?
  }

  function CreateElement(id: string): Value { Object(map[WEB_ELEMENT := String(id)]) }

  function HandleScriptResult(session: string, v: Value): Value
    decreases v, 1
  {
    match v
    case Array(items) => Array(HandleAll(session, items))
    case Object(members) =>
      if IsNode(session, v) then CreateElement(members[NodeKey(session)].text)
      else Object(map k | k in members :: HandleScriptResult(session, members[k]))
    case _ => v
  }

  function HandleAll(session: string, items: seq<Value>): (r: seq<Value>)
    ensures |r| == |items|
    decreases items, 0
  {
    if items == [] then [] else [HandleScriptResult(session, items[0])] + HandleAll(session, items[1..])
  }

  lemma {:induction false} HandleAllAt(session: string, items: seq<Value>, i: nat)
    requires i < |items|
    ensures HandleAll(session, items)[i] == HandleScriptResult(session, items[i])
  {
    if i > 0 {
      HandleAllAt(session, items[1..], i - 1);
    }
  }

  // ----- places in a value -----

  datatype Step = Item(index: nat) | Member(key: string)

  function StepInto(v: Value, step: Step): Option<Value> {
    match step
    case Item(i) => if v.Array? && i < |v.items| then Some(v.items[i]) else None
    case Member(k) => if v.Object? && k in v.members then Some(v.members[k]) else None
  }

  function At(v: Value, path: seq<Step>): Option<Value>
    decreases |path|
  {
    if path == [] then Some(v)
    else
      var w := StepInto(v, path[0]);
      if w.None? then None else At(w.value, path[1..])
  }

  /** A place that is reached: no node of the session lies on the way to it. */
  predicate Reached(session: string, v: Value, path: seq<Step>)
    decreases |path|
  {
    path == [] ||
    (!IsNode(session, v) && StepInto(v, path[0]).Some? && Reached(session, StepInto(v, path[0]).value, path[1..]))
  }

  lemma HandleStep(session: string, v: Value, step: Step)
    requires !IsNode(session, v)
    ensures StepInto(v, step).None? <==> StepInto(HandleScriptResult(session, v), step).None?
    ensures StepInto(v, step).Some? ==>
      StepInto(HandleScriptResult(session, v), step) == Some(HandleScriptResult(session, StepInto(v, step).value))
  {
    if step.Item? && v.Array? && step.index < |v.items| {
      HandleAllAt(session, v.items, step.index);
    }
  }

  /** What may stand in place of what: a web element for the node it names, an array of the same length, an
      object with the same keys, and anything else only for itself. */
  predicate Stands(session: string, v: Value, w: Value) {
    if IsNode(session, v) then w == CreateElement(v.members[NodeKey(session)].text)
    else if v.Array? then w.Array? && |w.items| == |v.items|
    else if v.Object? then w.Object? && w.members.Keys == v.members.Keys
    else w == v
  }

  /** Each place that is reached holds in the result what its own value alone becomes: so exactly the nodes
      reached are replaced, arrays keep their lengths, other objects their keys, and all else stays. */
  lemma {:induction false} HandledInPlace(session: string, v: Value, path: seq<Step>)
    requires Reached(session, v, path)
    ensures At(v, path).Some?
    ensures At(HandleScriptResult(session, v), path) == Some(HandleScriptResult(session, At(v, path).value))
    ensures Stands(session, At(v, path).value, At(HandleScriptResult(session, v), path).value)
    decreases |path|
  {
    if path != [] {
      HandleStep(session, v, path[0]);
      HandledInPlace(session, StepInto(v, path[0]).value, path[1..]);
    }
  }

  lemma NothingInside(v: Value, path: seq<Step>)
    requires !v.Array? && !v.Object?
    ensures At(v, path).Some? <==> path == []
  {
  }

  lemma InsideElement(id: string, path: seq<Step>)
    ensures At(CreateElement(id), path).Some? ==> path == [] || path == [Member(WEB_ELEMENT)]
  {
    if path != [] && path[0] == Member(WEB_ELEMENT) {
      NothingInside(String(id), path[1..]);
      assert path == [path[0]] + path[1..];
    }
  }

  /** Conversely, a place in the result is a place reached in the value, or the name inside a new web element. */
  lemma {:induction false} NothingAdded(session: string, v: Value, path: seq<Step>)
    requires At(HandleScriptResult(session, v), path).Some?
    ensures Reached(session, v, path) ||
      (path != [] && path[|path| - 1] == Member(WEB_ELEMENT) && Reached(session, v, path[..|path| - 1]) &&
       At(v, path[..|path| - 1]).Some? && IsNode(session, At(v, path[..|path| - 1]).value))
    decreases |path|
  {
    if path == [] {
    } else if IsNode(session, v) {
      InsideElement(v.members[NodeKey(session)].text, path);
      assert path[..|path| - 1] == [];
    } else {
      HandleStep(session, v, path[0]);
      NothingAdded(session, StepInto(v, path[0]).value, path[1..]);
      assert path[1..] != [] ==> path[..|path| - 1][1..] == path[1..][..|path| - 2];
    }
  }

  lemma {:induction false} AtOneMore(v: Value, path: seq<Step>, step: Step)
    requires At(v, path).Some?
    ensures At(v, path + [step]) == StepInto(At(v, path).value, step)
    decreases |path|
  {
    if path == [] {
      assert path + [step] == [step] && [step][1..] == [];
    } else {
      assert (path + [step])[1..] == path[1..] + [step];
      AtOneMore(StepInto(v, path[0]).value, path[1..], step);
    }
  }

  /** Where a node of the session is reached, the result holds an object with one member, whose key is that of web
      elements and whose value is what names the node. */
  lemma ElementNamesNode(session: string, v: Value, path: seq<Step>, id: string)
    requires Reached(session, v, path) && At(v, path).Some? && At(v, path).value.Object?
    requires var members := At(v, path).value.members;
      "session-node-" + session in members && members["session-node-" + session] == String(id)
    ensures var r := HandleScriptResult(session, v);
      && At(r, path + [Member("element-6066-11e4-a52e-4f735466cecf")]) == Some(String(id))
      && At(r, path).Some? && At(r, path).value.Object? && |At(r, path).value.members| == 1
  {
    HandledInPlace(session, v, path);
    AtOneMore(HandleScriptResult(session, v), path, Member("element-6066-11e4-a52e-4f735466cecf"));
  }

  /** Every other object reached stays one, with the same keys. */
  lemma OtherObjectsStay(session: string, v: Value, path: seq<Step>)
    requires Reached(session, v, path) && At(v, path).Some? && At(v, path).value.Object?
    requires var members := At(v, path).value.members;
      "session-node-" + session in members ==> !members["session-node-" + session].String?
    ensures var r := At(HandleScriptResult(session, v), path);
      r.Some? && r.value.Object? && r.value.members.Keys == At(v, path).value.members.Keys
  {
    HandledInPlace(session, v, path);
  }

  // ----- no nodes left -----

  ghost predicate Clean(session: string, v: Value) {
    forall path :: At(v, path).Some? ==> !IsNode(session, At(v, path).value)
  }

  lemma CleanInside(session: string, v: Value, step: Step)
    requires Clean(session, v) && StepInto(v, step).Some?
    ensures Clean(session, StepInto(v, step).value)
  {
    forall path | At(StepInto(v, step).value, path).Some?
      ensures !IsNode(session, At(StepInto(v, step).value, path).value)
    {
      assert ([step] + path)[1..] == path;
      assert At(v, [step] + path) == At(StepInto(v, step).value, path);
    }
  }

  lemma KeysDiffer(session: string)
    ensures NodeKey(session) != WEB_ELEMENT
  {
    assert NodeKey(session)[0] == 's' && WEB_ELEMENT[0] == 'e';
  }

  lemma {:induction false} HandledIsClean(session: string, v: Value)
    ensures Clean(session, HandleScriptResult(session, v))
  {
    forall path | At(HandleScriptResult(session, v), path).Some?
      ensures !IsNode(session, At(HandleScriptResult(session, v), path).value)
    {
      NoNodeAt(session, v, path);
    }
  }

  lemma {:induction false} NoNodeAt(session: string, v: Value, path: seq<Step>)
    requires At(HandleScriptResult(session, v), path).Some?
    ensures !IsNode(session, At(HandleScriptResult(session, v), path).value)
    decreases |path|
  {
    KeysDiffer(session);
    if path != [] {
      if IsNode(session, v) {
        InsideElement(v.members[NodeKey(session)].text, path);
      } else {
        HandleStep(session, v, path[0]);
        NoNodeAt(session, StepInto(v, path[0]).value, path[1..]);
      }
    }
  }

  lemma {:induction false} CleanIsKept(session: string, v: Value)
    requires Clean(session, v)
    ensures HandleScriptResult(session, v) == v
    decreases v, 1
  {
    assert At(v, []) == Some(v);
    match v
    case Array(items) =>
      forall i | 0 <= i < |items| ensures Clean(session, items[i]) {
        CleanInside(session, v, Item(i));
      }
      CleanAllKept(session, items);
    case Object(members) =>
      forall k | k in members ensures HandleScriptResult(session, members[k]) == members[k] {
        CleanInside(session, v, Member(k));
        CleanIsKept(session, members[k]);
      }
    case _ =>
  }

  lemma {:induction false} CleanAllKept(session: string, items: seq<Value>)
    requires forall i :: 0 <= i < |items| ==> Clean(session, items[i])
    ensures HandleAll(session, items) == items
    decreases items, 0
  {
    if items != [] {
      CleanIsKept(session, items[0]);
      CleanAllKept(session, items[1..]);
    }
  }

  /** Handling a result again changes nothing. */
  lemma HandlingIsIdempotent(session: string, v: Value)
    ensures HandleScriptResult(session, HandleScriptResult(session, v)) == HandleScriptResult(session, v)
  {
    HandledIsClean(session, v);
    CleanIsKept(session, HandleScriptResult(session, v));
  }
}
