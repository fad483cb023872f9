/** The C++ that the keyword matcher generator prints, as data with an
    evaluator, and the proof that it matches exactly the keywords. */
module KeywordCode {
  import opened Wrappers
  import opened KeywordTrie
  import opened KeywordOrder

  /** code[base] == 'c' for one character, a COMPARE macro at code + base for more. */
  datatype Test = Test(base: nat, chars: Text)

  datatype Stmt =
    | Boundary(length: nat, ident: Text, token: Token)  // if no identifier part follows, shift and return
    | Chain(arms: seq<Arm>)                             // if ... else if ... without a final else

  datatype Arm = Arm(test: Test, body: seq<Stmt>)

  datatype Flow = FellThrough | Returned(token: Token, length: nat, ident: Text)

  // ----- printing -----

  /** The comparison that guards child c below the path root: three characters
      are widened backwards to four. */
  function EmitTest(root: Text, c: Trie): Test
    requires |root| <= |c.fullPrefix|
  {
    if |root| > 0 && |c.prefix| == 3 then Test(|root| - 1, [c.fullPrefix[|root| - 1]] + c.prefix)
    else Test(|root|, c.prefix)
  }

  function Emit(t: Trie): seq<Stmt>
    requires Filled(t)
    decreases t, 1
  {
    (match t.value
     case Some(token) => [Boundary(|t.fullPrefix|, t.fullPrefix, token)]
     case None => [])
    + (if t.keys == [] then [] else [Chain(EmitArms(t.fullPrefix, t.keys))])
  }

  ghost predicate FilledUnder(root: Text, ts: seq<Trie>) {
    forall i :: 0 <= i < |ts| ==> ts[i].fullPrefix == root + ts[i].prefix && Filled(ts[i])
  }

  function EmitArms(root: Text, ts: seq<Trie>): (arms: seq<Arm>)
    requires FilledUnder(root, ts)
    ensures |arms| == |ts|
    ensures forall i :: 0 <= i < |ts| ==> arms[i] == Arm(EmitTest(root, ts[i]), Emit(ts[i]))
    decreases ts, 0
  {
    if ts == [] then [] else
      [Arm(EmitTest(root, ts[0]), Emit(ts[0]))] + EmitArms(root, ts[1..])
  }

  // ----- running -----

  /** What surrounds the printed code: how a comparison turns out, and whether
      an identifier part is found at a position. */
  datatype Context = Context(holds: Test -> bool, identPart: nat -> bool)

  function Exec(code: seq<Stmt>, ctx: Context): Flow
    decreases code
  {
    if code == [] then FellThrough else
      match code[0]
      case Boundary(n, ident, token) =>
        if !ctx.identPart(n) then Returned(token, n, ident) else Exec(code[1..], ctx)
      case Chain(arms) =>
        var flow := ExecArms(arms, ctx);
        if flow.Returned? then flow else Exec(code[1..], ctx)
  }

  function ExecArms(arms: seq<Arm>, ctx: Context): Flow
    decreases arms
  {
    if arms == [] then FellThrough
    else if ctx.holds(arms[0].test) then Exec(arms[0].body, ctx)
    else ExecArms(arms[1..], ctx)
  }

  /** A comparison read character by character. */
  predicate Matches(buffer: Text, test: Test) {
    test.base + |test.chars| <= |buffer| && buffer[test.base..test.base + |test.chars|] == test.chars
  }

  /** The boundary check is only known to accept identifier-part characters. */
  ghost predicate Recognises(buffer: Text, part: nat -> bool, identPart: nat -> bool) {
    forall p :: 0 <= p < |buffer| && part(buffer[p]) ==> identPart(p)
  }

  // ----- one node at a time -----

  lemma PrefixExtends(root: Text, p: Text, buffer: Text)
    requires root <= buffer
    ensures root + p <= buffer <==> p <= buffer[|root|..]
  {
    assert buffer == root + buffer[|root|..];
    PrefixCancel(root, p, buffer[|root|..]);
  }

  /** Once the path root has been matched, the printed comparison, widened or
      not, tells whether the child's path goes on in the buffer. */
  lemma TestDecides(root: Text, c: Trie, buffer: Text)
    requires root <= buffer && c.fullPrefix == root + c.prefix
    ensures Matches(buffer, EmitTest(root, c)) <==> c.fullPrefix <= buffer
  {
    var n, k := |root|, |c.prefix|;
    PrefixExtends(root, c.prefix, buffer);
    if n > 0 && k == 3 {
      assert c.fullPrefix[n - 1] == root[n - 1] == buffer[n - 1];
      if n + 3 <= |buffer| {
        assert buffer[n - 1..n + 3] == [buffer[n - 1]] + buffer[n..n + 3];
        assert buffer[n..n + 3] == buffer[n..][..3];
      }
    } else if n + k <= |buffer| {
      assert buffer[n..n + k] == buffer[n..][..k];
    }
  }

  lemma {:induction false} ArmTaken(arms: seq<Arm>, ctx: Context, i: nat)
    requires i < |arms| && ctx.holds(arms[i].test)
    requires forall j :: 0 <= j < i ==> !ctx.holds(arms[j].test)
    ensures ExecArms(arms, ctx) == Exec(arms[i].body, ctx)
    decreases |arms|
  {
    if i != 0 {
      ArmTaken(arms[1..], ctx, i - 1);
    }
  }

  lemma {:induction false} NoArmTaken(arms: seq<Arm>, ctx: Context)
    requires forall j :: 0 <= j < |arms| ==> !ctx.holds(arms[j].test)
    ensures ExecArms(arms, ctx) == FellThrough
    decreases |arms|
  {
    if arms != [] {
      NoArmTaken(arms[1..], ctx);
    }
  }

  function CharContext(buffer: Text, identPart: nat -> bool): Context {
    Context(test => Matches(buffer, test), identPart)
  }

  /** The chain goes into the one child whose path continues in the buffer. */
  lemma ChainTakes(root: Text, ts: seq<Trie>, buffer: Text, identPart: nat -> bool, i: nat)
    requires FilledUnder(root, ts) && Siblings(ts) && root <= buffer
    requires i < |ts| && ts[i].fullPrefix <= buffer
    ensures ExecArms(EmitArms(root, ts), CharContext(buffer, identPart))
         == Exec(Emit(ts[i]), CharContext(buffer, identPart))
  {
    var arms, ctx := EmitArms(root, ts), CharContext(buffer, identPart);
    TestDecides(root, ts[i], buffer);
    forall j | 0 <= j < i ensures !ctx.holds(arms[j].test) {
      TestDecides(root, ts[j], buffer);
      assert ts[j].fullPrefix[|root|] != ts[i].fullPrefix[|root|] == buffer[|root|];
    }
    ArmTaken(arms, ctx, i);
  }

  lemma ChainSkips(root: Text, ts: seq<Trie>, buffer: Text, identPart: nat -> bool)
    requires FilledUnder(root, ts) && root <= buffer
    requires forall i :: 0 <= i < |ts| ==> !(ts[i].fullPrefix <= buffer)
    ensures ExecArms(EmitArms(root, ts), CharContext(buffer, identPart)) == FellThrough
  {
    var arms, ctx := EmitArms(root, ts), CharContext(buffer, identPart);
    forall j | 0 <= j < |ts| ensures !ctx.holds(arms[j].test) {
      TestDecides(root, ts[j], buffer);
    }
    NoArmTaken(arms, ctx);
  }

  /** The code of a node: its own boundary check first, then its children. */
  lemma ExecNode(t: Trie, ctx: Context)
    requires Filled(t)
    ensures Exec(Emit(t), ctx) ==
      if t.value.Some? && !ctx.identPart(|t.fullPrefix|)
      then Returned(t.value.value, |t.fullPrefix|, t.fullPrefix)
      else ExecArms(EmitArms(t.fullPrefix, t.keys), ctx)
  {
    var chain := if t.keys == [] then [] else [Chain(EmitArms(t.fullPrefix, t.keys))];
    assert Exec(chain, ctx) == ExecArms(EmitArms(t.fullPrefix, t.keys), ctx);
    if t.value.Some? {
      assert Emit(t)[1..] == chain;
    } else {
      assert Emit(t) == chain;
    }
  }

  /** The first n characters of the buffer spell an entry below t and are not
      followed by an identifier part. */
  ghost predicate Found(t: Trie, buffer: Text, identPart: nat -> bool, n: nat, token: Token) {
    && |t.fullPrefix| <= n <= |buffer|
    && Lookup(t, buffer[|t.fullPrefix|..n]) == Some(token)
    && !identPart(n)
  }

  lemma FoundInChild(t: Trie, i: nat, buffer: Text, identPart: nat -> bool, n: nat, token: Token)
    requires WellFormed(t) && Filled(t) && i < |t.keys| && t.keys[i].fullPrefix <= buffer
    requires |t.keys[i].fullPrefix| <= n <= |buffer|
    ensures Found(t, buffer, identPart, n, token) <==> Found(t.keys[i], buffer, identPart, n, token)
  {
    var c, s := t.keys[i], buffer[|t.fullPrefix|..n];
    assert c.prefix == c.fullPrefix[|t.fullPrefix|..] == buffer[|t.fullPrefix|..|c.fullPrefix|];
    assert c.prefix == s[..|c.prefix|];
    LookupInChild(t.keys, s, i);
    assert s[|c.prefix|..] == buffer[|c.fullPrefix|..n];
  }

  /** A longer match must go through some child. */
  lemma FoundThrough(t: Trie, buffer: Text, identPart: nat -> bool, n: nat, token: Token) returns (i: nat)
    requires WellFormed(t) && Filled(t) && t.fullPrefix <= buffer
    requires Found(t, buffer, identPart, n, token) && |t.fullPrefix| < n
    ensures i < |t.keys| && t.keys[i].fullPrefix <= buffer && |t.keys[i].fullPrefix| <= n
    ensures Found(t.keys[i], buffer, identPart, n, token)
  {
    var s := buffer[|t.fullPrefix|..n];
    i := LookupInCases(t.keys, s);
    var c := t.keys[i];
    assert c.prefix <= buffer[|t.fullPrefix|..] by {
      assert s == buffer[|t.fullPrefix|..][..|s|];
    }
    PrefixExtends(t.fullPrefix, c.prefix, buffer);
    FoundInChild(t, i, buffer, identPart, n, token);
  }

  /** Whatever is there to be found, the code returns. */
  lemma {:induction false} EmitComplete(t: Trie, buffer: Text, part: nat -> bool, identPart: nat -> bool,
                                       n: nat, token: Token)
    requires WellFormed(t) && Filled(t) && AllUnits(t, part) && Recognises(buffer, part, identPart)
    requires t.fullPrefix <= buffer && Found(t, buffer, identPart, n, token)
    ensures Exec(Emit(t), CharContext(buffer, identPart)) == Returned(token, n, buffer[..n])
    decreases t
  {
    var ctx := CharContext(buffer, identPart);
    ExecNode(t, ctx);
    if |t.fullPrefix| < n {
      var i := FoundThrough(t, buffer, identPart, n, token);
      var c := t.keys[i];
      assert buffer[|t.fullPrefix|] == c.fullPrefix[|t.fullPrefix|] == c.prefix[0];
      assert c.prefix[0] in c.prefix;
      ChainTakes(t.fullPrefix, t.keys, buffer, identPart, i);
      EmitComplete(c, buffer, part, identPart, n, token);
    }
  }

  /** Whatever the code returns was there to be found. */
  lemma {:induction false} EmitSound(t: Trie, buffer: Text, identPart: nat -> bool)
    requires WellFormed(t) && Filled(t) && t.fullPrefix <= buffer
    ensures var flow := Exec(Emit(t), CharContext(buffer, identPart));
      flow.Returned? ==>
        Found(t, buffer, identPart, flow.length, flow.token) && flow.ident == buffer[..flow.length]
    decreases t
  {
    var ctx := CharContext(buffer, identPart);
    var flow := Exec(Emit(t), ctx);
    ExecNode(t, ctx);
    if t.value.Some? && !identPart(|t.fullPrefix|) {
      assert buffer[|t.fullPrefix|..|t.fullPrefix|] == [];
    } else if i :| 0 <= i < |t.keys| && t.keys[i].fullPrefix <= buffer {
      ChainTakes(t.fullPrefix, t.keys, buffer, identPart, i);
      EmitSound(t.keys[i], buffer, identPart);
      if flow.Returned? {
        FoundInChild(t, i, buffer, identPart, flow.length, flow.token);
      }
    } else {
      ChainSkips(t.fullPrefix, t.keys, buffer, identPart);
    }
  }

  // ----- what the code reads, and whether its comparisons exist -----

  ghost predicate AllTests(code: seq<Stmt>, ok: Test -> bool)
    decreases code
  {
    forall i :: 0 <= i < |code| && code[i].Chain? ==>
      forall j :: 0 <= j < |code[i].arms| ==> ok(code[i].arms[j].test) && AllTests(code[i].arms[j].body, ok)
  }

  function Within(n: nat): Test -> bool {
    (test: Test) => test.base + |test.chars| <= n
  }

  function Spells(ok: nat -> bool): Test -> bool {
    (test: Test) => forall c :: c in test.chars ==> ok(c)
  }

  function Alike(c: Context, d: Context): Test -> bool {
    (test: Test) => c.holds(test) == d.holds(test)
  }

  ghost predicate BoundariesUpTo(code: seq<Stmt>, n: nat)
    decreases code
  {
    && (forall i :: 0 <= i < |code| && code[i].Boundary? ==> code[i].length <= n)
    && (forall i :: 0 <= i < |code| && code[i].Chain? ==>
          forall j :: 0 <= j < |code[i].arms| ==> BoundariesUpTo(code[i].arms[j].body, n))
  }

  /** No comparison reads past the longest keyword, and no boundary check looks further than just behind it. */
  lemma {:induction false} EmitReads(t: Trie, n: nat)
    requires Filled(t) && MaxLength(t) <= n
    ensures AllTests(Emit(t), Within(n))
    ensures BoundariesUpTo(Emit(t), n)
    decreases t
  {
    forall i | 0 <= i < |t.keys|
      ensures AllTests(Emit(t.keys[i]), Within(n))
      ensures BoundariesUpTo(Emit(t.keys[i]), n)
      ensures |t.keys[i].fullPrefix| <= n
    {
      EmitReads(t.keys[i], n);
    }
  }

  /** Every coalesced edge is short enough for a COMPARE macro. */
  ghost predicate EdgesFit(t: Trie)
    decreases t
  {
    forall i :: 0 <= i < |t.keys| ==> 1 <= |t.keys[i].prefix| <= 8 && EdgesFit(t.keys[i])
  }

  /** A comparison for which the generator prints something that exists. */
  predicate HasMacro(test: Test) {
    1 <= |test.chars| <= 8
  }

  /** The printed code compiles exactly when every coalesced edge has one to eight characters. */
  lemma {:induction false} EmitCompiles(t: Trie)
    requires Filled(t)
    ensures AllTests(Emit(t), HasMacro) <==> EdgesFit(t)
    decreases t
  {
    forall i | 0 <= i < |t.keys|
      ensures AllTests(Emit(t.keys[i]), HasMacro) <==> EdgesFit(t.keys[i])
    {
      EmitCompiles(t.keys[i]);
    }
    var code := Emit(t);
    if t.keys != [] {
      var arms := EmitArms(t.fullPrefix, t.keys);
      assert code[|code| - 1] == Chain(arms);
      assert forall i :: 0 <= i < |t.keys| ==> (HasMacro(arms[i].test) <==> 1 <= |t.keys[i].prefix| <= 8);
      if AllTests(code, HasMacro) {
        assert forall j :: 0 <= j < |arms| ==>
          HasMacro(code[|code| - 1].arms[j].test) && AllTests(arms[j].body, HasMacro);
      }
    }
  }

  /** Comparisons only look for characters of the trie. */
  lemma {:induction false} EmitUnits(t: Trie, ok: nat -> bool)
    requires Filled(t) && AllUnits(t, ok) && forall c :: c in t.fullPrefix ==> ok(c)
    ensures AllTests(Emit(t), Spells(ok))
    decreases t
  {
    forall i | 0 <= i < |t.keys|
      ensures AllTests(Emit(t.keys[i]), Spells(ok))
      ensures forall c :: c in t.keys[i].fullPrefix ==> ok(c)
    {
      EmitUnits(t.keys[i], ok);
    }
  }

  /** Code behaves the same wherever its own comparisons turn out the same. */
  lemma {:induction false} ExecAgrees(code: seq<Stmt>, c: Context, d: Context)
    requires c.identPart == d.identPart
    requires AllTests(code, Alike(c, d))
    ensures Exec(code, c) == Exec(code, d)
    decreases code
  {
    if code != [] {
      if code[0].Chain? {
        ExecArmsAgrees(code[0].arms, c, d);
      }
      ExecAgrees(code[1..], c, d);
    }
  }

  lemma {:induction false} ExecArmsAgrees(arms: seq<Arm>, c: Context, d: Context)
    requires c.identPart == d.identPart
    requires forall j :: 0 <= j < |arms| ==>
      c.holds(arms[j].test) == d.holds(arms[j].test) && AllTests(arms[j].body, Alike(c, d))
    ensures ExecArms(arms, c) == ExecArms(arms, d)
    decreases arms
  {
    if arms != [] {
      ExecAgrees(arms[0].body, c, d);
      ExecArmsAgrees(arms[1..], c, d);
    }
  }
}
