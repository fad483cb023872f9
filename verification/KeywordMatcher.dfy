/** The keyword matcher generator from end to end: keyword list in, matcher out. */
module KeywordMatcher {
  import opened Wrappers
  import opened KeywordTrie
  import opened KeywordOrder
  import opened KeywordWeights
  import opened KeywordCode
  import opened KeywordCompare

  type Keywords = seq<(Text, Token)>

  /** The driver: insert everything, coalesce below the root, fill out.  The trie
      that coalescing returns is dropped, so the root itself is never merged. */
  function Generate(keywords: Keywords, weights: Weights, order: seq<Trie> -> seq<Trie>): Trie {
    FillOut(CoalesceKeys(InsertAll(keywords)), [], weights, order)
  }

  datatype Outcome = Identifier | Keyword(token: Token, length: nat, ident: Text)

  /** The printed function: run the tree of comparisons, and if nothing returned, IDENT. */
  function ParseKeyword(trie: Trie, ctx: Context): Outcome
    requires Filled(trie)
  {
    match Exec(Emit(trie), ctx)
    case Returned(token, length, ident) => Keyword(token, length, ident)
    case FellThrough => Identifier
  }

  /** k was last listed with this token, starts the buffer, and is not followed by an identifier part. */
  ghost predicate Qualifies(keywords: Keywords, buffer: Text, identPart: nat -> bool, k: Text, token: Token) {
    LastToken(keywords, k) == Some(token) && k <= buffer && !identPart(|k|)
  }

  /** The generated trie is well formed, starts at the empty path, and denotes the keyword list. */
  lemma Generated(keywords: Keywords, weights: Weights, order: seq<Trie> -> seq<Trie>)
    requires Permutes(order)
    ensures WellFormed(Generate(keywords, weights, order)) && Filled(Generate(keywords, weights, order))
    ensures Generate(keywords, weights, order).fullPrefix == []
  {
    InsertAllRaw(keywords);
    RawWellFormed(InsertAll(keywords));
    CoalesceWellFormed(InsertAll(keywords));
    FillOutWellFormed(CoalesceKeys(InsertAll(keywords)), [], weights, order);
  }

  lemma GeneratedDenotes(keywords: Keywords, weights: Weights, order: seq<Trie> -> seq<Trie>, s: Text)
    requires Permutes(order)
    ensures Lookup(Generate(keywords, weights, order), s) == LastToken(keywords, s)
  {
    InsertAllRaw(keywords);
    RawWellFormed(InsertAll(keywords));
    CoalesceWellFormed(InsertAll(keywords));
    FillOutDenotes(CoalesceKeys(InsertAll(keywords)), [], weights, order, s);
    CoalesceDenotes(InsertAll(keywords), s);
    InsertAllDenotes(keywords, s);
  }

  /** Each node of the generated trie weighs as much as the weighted texts that are paths of nodes below it; and
      as the keywords listed below it, where no weighted text is missing from the list. */
  lemma GeneratedWeighs(keywords: Keywords, weights: Weights, order: seq<Trie> -> seq<Trie>)
    requires Permutes(order)
    ensures Weighed(Generate(keywords, weights, order), weights)
    ensures WeighsListed(Generate(keywords, weights, order), weights, keywords)
  {
    var trie := Generate(keywords, weights, order);
    Generated(keywords, weights, order);
    InsertAllRaw(keywords);
    RawWellFormed(InsertAll(keywords));
    CoalesceWellFormed(InsertAll(keywords));
    FillOutWeighs(CoalesceKeys(InsertAll(keywords)), [], weights, order);
    forall s ensures Lookup(trie, s) == LastToken(keywords, trie.fullPrefix + s) {
      assert trie.fullPrefix + s == s;
      GeneratedDenotes(keywords, weights, order, s);
    }
    NodesWeighListed(trie, weights, keywords);
  }

  lemma GeneratedUnits(keywords: Keywords, weights: Weights, order: seq<Trie> -> seq<Trie>, ok: nat -> bool)
    requires Permutes(order) && KeywordUnits(keywords, ok)
    ensures AllUnits(Generate(keywords, weights, order), ok)
  {
    InsertAllUnits(keywords, ok);
    CoalesceUnits(InsertAll(keywords), ok);
    FillOutUnits(CoalesceKeys(InsertAll(keywords)), [], weights, order, ok);
  }

  lemma FoundQualifies(keywords: Keywords, weights: Weights, order: seq<Trie> -> seq<Trie>,
                       buffer: Text, identPart: nat -> bool, n: nat, token: Token)
    requires Permutes(order) && n <= |buffer|
    ensures Found(Generate(keywords, weights, order), buffer, identPart, n, token)
       <==> Qualifies(keywords, buffer, identPart, buffer[..n], token)
  {
    Generated(keywords, weights, order);
    GeneratedDenotes(keywords, weights, order, buffer[..n]);
    assert buffer[0..n] == buffer[..n];
  }

  /** Compared character by character, the generated code returns a keyword exactly when it qualifies. */
  lemma MatchesKeywords(keywords: Keywords, weights: Weights, order: seq<Trie> -> seq<Trie>,
                        buffer: Text, part: nat -> bool, identPart: nat -> bool, k: Text, token: Token)
    requires Permutes(order) && KeywordUnits(keywords, part) && Recognises(buffer, part, identPart)
    ensures Filled(Generate(keywords, weights, order))
    ensures ParseKeyword(Generate(keywords, weights, order), CharContext(buffer, identPart)) == Keyword(token, |k|, k)
       <==> Qualifies(keywords, buffer, identPart, k, token)
  {
    var trie := Generate(keywords, weights, order);
    Generated(keywords, weights, order);
    GeneratedUnits(keywords, weights, order, part);
    EmitSound(trie, buffer, identPart);
    if k <= buffer {
      FoundQualifies(keywords, weights, order, buffer, identPart, |k|, token);
      assert buffer[..|k|] == k;
      if Found(trie, buffer, identPart, |k|, token) {
        EmitComplete(trie, buffer, part, identPart, |k|, token);
      }
    }
  }

  /** It returns an identifier exactly when no keyword qualifies. */
  lemma MatchesIdentifiers(keywords: Keywords, weights: Weights, order: seq<Trie> -> seq<Trie>,
                           buffer: Text, part: nat -> bool, identPart: nat -> bool)
    requires Permutes(order) && KeywordUnits(keywords, part) && Recognises(buffer, part, identPart)
    ensures Filled(Generate(keywords, weights, order))
    ensures ParseKeyword(Generate(keywords, weights, order), CharContext(buffer, identPart)) == Identifier
       <==> forall k, token :: !Qualifies(keywords, buffer, identPart, k, token)
  {
    var trie := Generate(keywords, weights, order);
    Generated(keywords, weights, order);
    EmitSound(trie, buffer, identPart);
    match ParseKeyword(trie, CharContext(buffer, identPart))
    case Keyword(token, n, k) =>
      FoundQualifies(keywords, weights, order, buffer, identPart, n, token);
    case Identifier =>
      forall k, token ensures !Qualifies(keywords, buffer, identPart, k, token) {
        MatchesKeywords(keywords, weights, order, buffer, part, identPart, k, token);
      }
  }

  /** In particular at most one keyword qualifies at a time. */
  lemma AtMostOneQualifies(keywords: Keywords, buffer: Text, part: nat -> bool, identPart: nat -> bool,
                           k: Text, token: Token, k': Text, token': Token)
    requires KeywordUnits(keywords, part) && Recognises(buffer, part, identPart)
    requires Qualifies(keywords, buffer, identPart, k, token) && Qualifies(keywords, buffer, identPart, k', token')
    ensures k == k' && token == token'
  {
    SortByWeightPermutes();
    MatchesKeywords(keywords, map[], SortByWeight, buffer, part, identPart, k, token);
    MatchesKeywords(keywords, map[], SortByWeight, buffer, part, identPart, k', token');
  }

  // ----- on a machine -----

  /** The context in which the printed code runs on a machine. */
  function MachineContext(m: Machine, identPart: nat -> bool): Context {
    Context(test => m.Compare(test), identPart)
  }

  predicate Literal(c: nat) { c < 128 }

  lemma {:induction false} TestsAlike(code: seq<Stmt>, m: Machine, buffer: Text, identPart: nat -> bool)
    requires m.Valid() && Encodes(m, buffer)
    requires AllTests(code, Within(|buffer|)) && AllTests(code, HasMacro) && AllTests(code, Spells(Literal))
    ensures AllTests(code, Alike(MachineContext(m, identPart), CharContext(buffer, identPart)))
    decreases code
  {
    var alike := Alike(MachineContext(m, identPart), CharContext(buffer, identPart));
    forall i, j | 0 <= i < |code| && code[i].Chain? && 0 <= j < |code[i].arms|
      ensures alike(code[i].arms[j].test) && AllTests(code[i].arms[j].body, alike)
    {
      var arm := code[i].arms[j];
      assert Within(|buffer|)(arm.test) && HasMacro(arm.test) && Spells(Literal)(arm.test);
      assert forall p :: 0 <= p < |arm.test.chars| ==> Literal(arm.test.chars[p]);
      CompareMeans(m, buffer, arm.test);
      TestsAlike(arm.body, m, buffer, identPart);
    }
  }

  /** On a machine the printed code does what it would do character by character. */
  lemma RunsAlike(keywords: Keywords, weights: Weights, order: seq<Trie> -> seq<Trie>, m: Machine,
                  buffer: Text, identPart: nat -> bool)
    requires Permutes(order) && KeywordUnits(keywords, Literal)
    requires EdgesFit(Generate(keywords, weights, order))
    requires m.Valid() && Encodes(m, buffer) && MaxLength(Generate(keywords, weights, order)) + 1 <= |buffer|
    ensures Filled(Generate(keywords, weights, order))
    ensures ParseKeyword(Generate(keywords, weights, order), MachineContext(m, identPart))
         == ParseKeyword(Generate(keywords, weights, order), CharContext(buffer, identPart))
  {
    var trie := Generate(keywords, weights, order);
    Generated(keywords, weights, order);
    GeneratedUnits(keywords, weights, order, Literal);
    EmitReads(trie, |buffer|);
    EmitCompiles(trie);
    EmitUnits(trie, Literal);
    TestsAlike(Emit(trie), m, buffer, identPart);
    ExecAgrees(Emit(trie), MachineContext(m, identPart), CharContext(buffer, identPart));
  }

  /** The generated matcher, run on any target at either character width, over
      any buffer as long as it asks for: it returns a keyword exactly when that
      keyword qualifies, whatever the weights and the order of siblings. */
  lemma MatcherCorrect(keywords: Keywords, weights: Weights, order: seq<Trie> -> seq<Trie>, m: Machine,
                       buffer: Text, part: nat -> bool, identPart: nat -> bool, k: Text, token: Token)
    requires Permutes(order) && KeywordUnits(keywords, part) && KeywordUnits(keywords, Literal)
    requires EdgesFit(Generate(keywords, weights, order))
    requires m.Valid() && Encodes(m, buffer) && MaxLength(Generate(keywords, weights, order)) + 1 <= |buffer|
    requires Recognises(buffer, part, identPart)
    ensures Filled(Generate(keywords, weights, order))
    ensures ParseKeyword(Generate(keywords, weights, order), MachineContext(m, identPart)) == Keyword(token, |k|, k)
       <==> Qualifies(keywords, buffer, identPart, k, token)
    ensures ParseKeyword(Generate(keywords, weights, order), MachineContext(m, identPart)) == Identifier
       <==> forall k, token :: !Qualifies(keywords, buffer, identPart, k, token)
  {
    MatchesKeywords(keywords, weights, order, buffer, part, identPart, k, token);
    MatchesIdentifiers(keywords, weights, order, buffer, part, identPart);
    RunsAlike(keywords, weights, order, m, buffer, identPart);
  }

  /** Siblings of the shipped generator come in the order of what the weighted texts below them add up to. */
  lemma ShippedOrder(keywords: Keywords)
    ensures CommonestFirst(Generate(keywords, KEYWORD_WEIGHTS, SortByWeight), KEYWORD_WEIGHTS)
    ensures ListsAll(keywords, KEYWORD_WEIGHTS) ==>
      KeywordsInOrder(Generate(keywords, KEYWORD_WEIGHTS, SortByWeight), KEYWORD_WEIGHTS, keywords)
  {
    var weights := KEYWORD_WEIGHTS;
    SortByWeightPermutes();
    GeneratedWeighs(keywords, weights, SortByWeight);
    FillOutOrders(CoalesceKeys(InsertAll(keywords)), [], weights);
    OrderedByTotals(Generate(keywords, weights, SortByWeight), weights);
    if ListsAll(keywords, weights) {
      ListedInOrder(Generate(keywords, weights, SortByWeight), weights, keywords);
    }
  }

  /** The generator as it is shipped, with its own weights: siblings are in the order of the weights of the texts
      below them, and of the keywords below them if every weighted text is a keyword, as in the shipped list. */
  lemma ShippedMatcherCorrect(keywords: Keywords, m: Machine,
                              buffer: Text, part: nat -> bool, identPart: nat -> bool, k: Text, token: Token)
    requires KeywordUnits(keywords, part) && KeywordUnits(keywords, Literal)
    requires EdgesFit(Generate(keywords, KEYWORD_WEIGHTS, SortByWeight))
    requires m.Valid() && Encodes(m, buffer) && Recognises(buffer, part, identPart)
    requires forall i :: 0 <= i < |keywords| ==> |keywords[i].0| < |buffer|
    requires buffer != []
    ensures Filled(Generate(keywords, KEYWORD_WEIGHTS, SortByWeight))
    ensures CommonestFirst(Generate(keywords, KEYWORD_WEIGHTS, SortByWeight), KEYWORD_WEIGHTS)
    ensures ListsAll(keywords, KEYWORD_WEIGHTS) ==>
      KeywordsInOrder(Generate(keywords, KEYWORD_WEIGHTS, SortByWeight), KEYWORD_WEIGHTS, keywords)
    ensures ParseKeyword(Generate(keywords, KEYWORD_WEIGHTS, SortByWeight), MachineContext(m, identPart))
              == Keyword(token, |k|, k)
       <==> Qualifies(keywords, buffer, identPart, k, token)
    ensures ParseKeyword(Generate(keywords, KEYWORD_WEIGHTS, SortByWeight), MachineContext(m, identPart)) == Identifier
       <==> forall k, token :: !Qualifies(keywords, buffer, identPart, k, token)
  {
    SortByWeightPermutes();
    MaxTokenLength(keywords, KEYWORD_WEIGHTS, SortByWeight, |buffer| - 1);
    ShippedOrder(keywords);
    MatcherCorrect(keywords, KEYWORD_WEIGHTS, SortByWeight, m, buffer, part, identPart, k, token);
  }

  /** Prints a node: its boundary check, then one arm per child in order, three
      characters widened backwards to four. */
  method PrintSubTree(t: Trie) returns (code: seq<Stmt>)
    requires Filled(t)
    ensures code == Emit(t)
    decreases t
  {
    code := [];
    if t.value.Some? {
      code := [Boundary(|t.fullPrefix|, t.fullPrefix, t.value.value)];
    }
    var arms := [];
    for i := 0 to |t.keys|
      invariant |arms| == i
      invariant forall j :: 0 <= j < i ==> arms[j] == Arm(EmitTest(t.fullPrefix, t.keys[j]), Emit(t.keys[j]))
    {
      var baseIndex, k := |t.fullPrefix|, t.keys[i].prefix;
      if baseIndex > 0 && |k| == 3 {
        baseIndex := baseIndex - 1;
        k := [t.keys[i].fullPrefix[baseIndex]] + k;
      }
      var body := PrintSubTree(t.keys[i]);
      arms := arms + [Arm(Test(baseIndex, k), body)];
    }
    if |t.keys| > 0 {
      assert arms == EmitArms(t.fullPrefix, t.keys);
      code := code + [Chain(arms)];
    }
  }

  // ----- how long a buffer the matcher asks for -----

  /** Below t, every node holds a token or has children. */
  ghost predicate Live(t: Trie)
    decreases t
  {
    forall i :: 0 <= i < |t.keys| ==> !Dead(t.keys[i]) && Live(t.keys[i])
  }

  lemma {:induction false} BranchingLive(t: Trie)
    requires Branching(t)
    ensures Live(t)
    decreases t
  {
    forall i | 0 <= i < |t.keys| ensures Live(t.keys[i]) {
      BranchingLive(t.keys[i]);
    }
  }

  lemma {:induction false} FillOutLive(t: Trie, pre: Text, weights: Weights, order: seq<Trie> -> seq<Trie>)
    requires Permutes(order) && Live(t)
    ensures Live(FillOut(t, pre, weights, order))
    ensures Dead(FillOut(t, pre, weights, order)) ==> Dead(t)
    decreases t
  {
    var full := pre + t.prefix;
    var kids := FillOutAll(t.keys, full, weights, order);
    forall i | 0 <= i < |kids| ensures !Dead(kids[i]) && Live(kids[i]) {
      FillOutLive(t.keys[i], full, weights, order);
    }
    SameElements(kids, order(kids));
    forall i | 0 <= i < |order(kids)| ensures !Dead(order(kids)[i]) && Live(order(kids)[i]) {
      assert order(kids)[i] in kids;
    }
  }

  lemma {:induction false} MaxLengthReached(ts: seq<Trie>, max: nat) returns (i: nat)
    ensures i <= |ts|
    ensures i < |ts| ==> MaxLength(ts[i]) == MaxLengthIn(ts, max)
    ensures i == |ts| ==> max == MaxLengthIn(ts, max)
    decreases |ts|
  {
    if ts == [] {
      i := 0;
    } else {
      var l := MaxLength(ts[0]);
      var j := MaxLengthReached(ts[1..], if l > max then l else max);
      i := if j < |ts| - 1 then j + 1 else if l > max then 0 else |ts|;
    }
  }

  /** The longest path of a live trie ends in a token. */
  lemma {:induction false} LongestFound(t: Trie) returns (s: Text)
    requires WellFormed(t) && Filled(t) && Live(t) && !Dead(t)
    ensures Lookup(t, s).Some? && |t.fullPrefix| + |s| == MaxLength(t)
    decreases t
  {
    var i := MaxLengthReached(t.keys, |t.fullPrefix|);
    assert t.keys != [] ==> |t.fullPrefix| < |t.keys[0].fullPrefix| <= MaxLength(t.keys[0]);
    if i < |t.keys| {
      var c := t.keys[i];
      var rest := LongestFound(c);
      s := c.prefix + rest;
      LookupInChild(t.keys, s, i);
      assert s[|c.prefix|..] == rest;
    } else {
      s := [];
    }
  }

  lemma {:induction false} LookupWithin(t: Trie, s: Text)
    requires WellFormed(t) && Filled(t) && Lookup(t, s).Some?
    ensures |t.fullPrefix| + |s| <= MaxLength(t)
    decreases t
  {
    if s != [] {
      var i := LookupInCases(t.keys, s);
      LookupWithin(t.keys[i], s[|t.keys[i].prefix|..]);
    }
  }

  lemma {:induction false} TokenIsListed(keywords: Keywords, s: Text) returns (i: nat)
    requires LastToken(keywords, s).Some?
    ensures i < |keywords| && keywords[i].0 == s
  {
    var last := |keywords| - 1;
    if keywords[last].0 == s {
      i := last;
    } else {
      i := TokenIsListed(keywords[..last], s);
    }
  }

  lemma {:induction false} ListedHasToken(keywords: Keywords, i: nat)
    requires i < |keywords|
    ensures LastToken(keywords, keywords[i].0).Some?
  {
    var last := |keywords| - 1;
    if i != last {
      assert keywords[..last][i] == keywords[i];
      ListedHasToken(keywords[..last], i);
    }
  }

  /** The printed maxTokenLength is one more than the length of the longest keyword. */
  lemma MaxTokenLength(keywords: Keywords, weights: Weights, order: seq<Trie> -> seq<Trie>, n: nat)
    requires Permutes(order)
    ensures MaxLength(Generate(keywords, weights, order)) <= n
       <==> forall i :: 0 <= i < |keywords| ==> |keywords[i].0| <= n
  {
    var trie := Generate(keywords, weights, order);
    Generated(keywords, weights, order);
    GeneratedLive(keywords, weights, order);
    if !Dead(trie) {
      var s := LongestFound(trie);
      GeneratedDenotes(keywords, weights, order, s);
      var i := TokenIsListed(keywords, s);
    }
    forall i | 0 <= i < |keywords| ensures |keywords[i].0| <= MaxLength(trie) {
      ListedHasToken(keywords, i);
      GeneratedDenotes(keywords, weights, order, keywords[i].0);
      LookupWithin(trie, keywords[i].0);
    }
  }

  lemma GeneratedLive(keywords: Keywords, weights: Weights, order: seq<Trie> -> seq<Trie>)
    requires Permutes(order)
    ensures Live(Generate(keywords, weights, order))
  {
    InsertAllRaw(keywords);
    CoalesceBranches(InsertAll(keywords));
    BranchingLive(CoalesceKeys(InsertAll(keywords)));
    FillOutLive(CoalesceKeys(InsertAll(keywords)), [], weights, order);
  }

  lemma {:induction false} ShortEdges(t: Trie)
    requires WellFormed(t) && Filled(t) && MaxLength(t) <= 8
    ensures EdgesFit(t)
    decreases t
  {
    forall i | 0 <= i < |t.keys| ensures |t.keys[i].prefix| <= 8 && EdgesFit(t.keys[i]) {
      assert |t.keys[i].fullPrefix| <= MaxLength(t.keys[i]) <= MaxLength(t);
      ShortEdges(t.keys[i]);
    }
  }

  /** Keywords of at most eight characters always give code whose comparisons exist. */
  lemma ShortKeywordsCompile(keywords: Keywords, weights: Weights, order: seq<Trie> -> seq<Trie>)
    requires Permutes(order) && forall i :: 0 <= i < |keywords| ==> |keywords[i].0| <= 8
    ensures EdgesFit(Generate(keywords, weights, order))
  {
    Generated(keywords, weights, order);
    MaxTokenLength(keywords, weights, order, 8);
    ShortEdges(Generate(keywords, weights, order));
  }
}
