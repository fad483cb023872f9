/** Full prefixes, weights and the order of siblings in the keyword trie. */
module KeywordOrder {
  import opened KeywordTrie

  function Units(s: string): Text {
    seq(|s|, i requires 0 <= i < |s| => s[i] as nat)
  }

  type Weights = map<Text, nat>

  /** Observed keyword frequencies, in hundredths. */
  const KEYWORD_WEIGHTS: Weights := map[
    Units("catch") := 1, Units("try") := 1, Units("while") := 1, Units("case") := 1,
    Units("break") := 1, Units("new") := 1, Units("in") := 1,
    Units("typeof") := 2, Units("true") := 2, Units("false") := 2,
    Units("for") := 3, Units("null") := 3, Units("else") := 3,
    Units("return") := 13, Units("var") := 13, Units("if") := 16,
    Units("function") := 18, Units("this") := 18]

  function SelfWeight(weights: Weights, full: Text): nat {
    if full in weights then weights[full] else 0
  }

  // ----- a stable sort, heaviest first -----

  /** Puts x in front of everything it is not lighter than. */
  function Place(x: Trie, ts: seq<Trie>): (us: seq<Trie>)
    ensures multiset(us) == multiset{x} + multiset(ts)
  {
    if ts == [] || ts[0].weight <= x.weight then [x] + ts
    else
      assert ts == [ts[0]] + ts[1..];
      [ts[0]] + Place(x, ts[1..])
  }

  function SortByWeight(ts: seq<Trie>): (us: seq<Trie>)
    ensures multiset(us) == multiset(ts)
  {
    if ts == [] then [] else
      assert ts == [ts[0]] + ts[1..];
      Place(ts[0], SortByWeight(ts[1..]))
  }

  ghost predicate HeaviestFirst(ts: seq<Trie>) {
    ts != [] ==> (forall t :: t in ts[1..] ==> t.weight <= ts[0].weight) && HeaviestFirst(ts[1..])
  }

  function OfWeight(ts: seq<Trie>, w: nat): seq<Trie> {
    if ts == [] then [] else (if ts[0].weight == w then [ts[0]] else []) + OfWeight(ts[1..], w)
  }

  lemma {:induction false} PlaceOrders(x: Trie, ts: seq<Trie>)
    requires HeaviestFirst(ts)
    ensures HeaviestFirst(Place(x, ts))
  {
    if ts == [] || ts[0].weight <= x.weight {
      assert ([x] + ts)[1..] == ts;
    } else {
      PlaceOrders(x, ts[1..]);
      var us := Place(x, ts[1..]);
      forall t | t in us ensures t.weight <= ts[0].weight {
        assert t in multiset(us);
      }
      assert ([ts[0]] + us)[1..] == us;
    }
  }

  lemma {:induction false} SortOrders(ts: seq<Trie>)
    ensures HeaviestFirst(SortByWeight(ts))
  {
    if ts != [] {
      SortOrders(ts[1..]);
      PlaceOrders(ts[0], SortByWeight(ts[1..]));
    }
  }

  lemma {:induction false} PlaceStable(x: Trie, ts: seq<Trie>, w: nat)
    ensures OfWeight(Place(x, ts), w) == (if x.weight == w then [x] else []) + OfWeight(ts, w)
  {
    if ts == [] || ts[0].weight <= x.weight {
      assert ([x] + ts)[1..] == ts;
    } else {
      PlaceStable(x, ts[1..], w);
      var us := Place(x, ts[1..]);
      assert ([ts[0]] + us)[1..] == us;
    }
  }

  lemma {:induction false} SortStable(ts: seq<Trie>, w: nat)
    ensures OfWeight(SortByWeight(ts), w) == OfWeight(ts, w)
  {
    if ts != [] {
      SortStable(ts[1..], w);
      PlaceStable(ts[0], SortByWeight(ts[1..]), w);
    }
  }

  /** The sort puts heavier siblings first and keeps the order of equally heavy ones. */
  lemma SortCorrect(ts: seq<Trie>, w: nat)
    ensures multiset(SortByWeight(ts)) == multiset(ts)
    ensures HeaviestFirst(SortByWeight(ts))
    ensures OfWeight(SortByWeight(ts), w) == OfWeight(ts, w)
  {
    SortOrders(ts);
    SortStable(ts, w);
  }

  // ----- any order of siblings -----

  /** A way of ordering siblings: it returns what it is given, in some order. */
  ghost predicate Permutes(order: seq<Trie> -> seq<Trie>) {
    forall ts :: multiset(order(ts)) == multiset(ts)
  }

  lemma SortByWeightPermutes()
    ensures Permutes(SortByWeight)
  {
  }

  lemma AtMostOnce(ts: seq<Trie>, i: nat)
    requires Siblings(ts) && i < |ts|
    ensures multiset(ts)[ts[i]] == 1
  {
    assert ts == ts[..i] + [ts[i]] + ts[i + 1..];
    assert ts[i] !in ts[..i] && ts[i] !in ts[i + 1..];
  }

  lemma TwiceAt(ts: seq<Trie>, i: nat, j: nat)
    requires i < j < |ts| && ts[i] == ts[j]
    ensures 2 <= multiset(ts)[ts[i]]
  {
    assert ts == ts[..j] + ts[j..];
    assert ts[i] == ts[..j][i] && ts[j] == ts[j..][0];
    assert ts[i] in ts[..j] && ts[j] in ts[j..];
  }

  lemma SameElements(ts: seq<Trie>, us: seq<Trie>)
    requires multiset(us) == multiset(ts)
    ensures |us| == |ts| && forall t :: t in us <==> t in ts
  {
    assert |multiset(us)| == |us| && |multiset(ts)| == |ts|;
    forall t ensures t in us <==> t in ts {
      assert t in multiset(us) <==> t in multiset(ts);
    }
  }

  /** Reordered siblings are still siblings. */
  lemma PermutedSiblings(ts: seq<Trie>, us: seq<Trie>)
    requires Siblings(ts) && multiset(us) == multiset(ts)
    ensures Siblings(us)
  {
    SameElements(ts, us);
    forall i | 0 <= i < |us| ensures us[i].prefix != [] {
      assert us[i] in ts;
    }
    forall i, j | 0 <= i < j < |us| ensures us[i].prefix[0] != us[j].prefix[0] {
      assert us[i] in ts && us[j] in ts;
      var a :| 0 <= a < |ts| && ts[a] == us[i];
      var b :| 0 <= b < |ts| && ts[b] == us[j];
      if a == b {
        TwiceAt(us, i, j);
        AtMostOnce(ts, a);
      }
    }
  }

  /** Reordered siblings denote the same. */
  lemma PermutedDenotes(ts: seq<Trie>, us: seq<Trie>, s: Text)
    requires Siblings(ts) && multiset(us) == multiset(ts)
    ensures LookupIn(us, s) == LookupIn(ts, s)
  {
    PermutedSiblings(ts, us);
    SameElements(ts, us);
    var i := LookupInCases(ts, s);
    if i < |ts| {
      assert ts[i] in us;
      var j :| 0 <= j < |us| && us[j] == ts[i];
      LookupInChild(us, s, j);
    } else {
      forall j | 0 <= j < |us| ensures !(us[j].prefix <= s) {
        assert us[j] in ts;
      }
      LookupInNone(us, s);
    }
  }

  // ----- filling out -----

  function SumWeights(ts: seq<Trie>): nat {
    if ts == [] then 0 else ts[0].weight + SumWeights(ts[1..])
  }

  /** Spells out full prefixes, adds up weights from the leaves, and orders siblings. */
  function FillOut(t: Trie, pre: Text, weights: Weights, order: seq<Trie> -> seq<Trie>): Trie
    decreases t, 1
  {
    var full := pre + t.prefix;
    var kids := FillOutAll(t.keys, full, weights, order);
    t.(fullPrefix := full,
       selfWeight := SelfWeight(weights, full),
       weight := SelfWeight(weights, full) + SumWeights(kids),
       keys := order(kids))
  }

  function FillOutAll(ts: seq<Trie>, pre: Text, weights: Weights, order: seq<Trie> -> seq<Trie>): (us: seq<Trie>)
    ensures |us| == |ts|
    ensures forall i :: 0 <= i < |ts| ==> us[i] == FillOut(ts[i], pre, weights, order)
    decreases ts, 0
  {
    if ts == [] then [] else [FillOut(ts[0], pre, weights, order)] + FillOutAll(ts[1..], pre, weights, order)
  }

  /** Siblings are heaviest first, everywhere in the trie. */
  ghost predicate Ordered(t: Trie)
    decreases t
  {
    HeaviestFirst(t.keys) && forall i :: 0 <= i < |t.keys| ==> Ordered(t.keys[i])
  }

  lemma {:induction false} FillOutOrders(t: Trie, pre: Text, weights: Weights)
    ensures Ordered(FillOut(t, pre, weights, SortByWeight))
    decreases t
  {
    var full := pre + t.prefix;
    var kids := FillOutAll(t.keys, full, weights, SortByWeight);
    var sorted := SortByWeight(kids);
    SortOrders(kids);
    forall i | 0 <= i < |kids| ensures Ordered(kids[i]) {
      FillOutOrders(t.keys[i], full, weights);
    }
    forall i | 0 <= i < |sorted| ensures Ordered(sorted[i]) {
      assert sorted[i] in multiset(sorted);
      assert sorted[i] in kids;
    }
  }

  /** Full prefixes spell the path from the root. */
  ghost predicate Filled(t: Trie)
    decreases t
  {
    forall i :: 0 <= i < |t.keys| ==>
      t.keys[i].fullPrefix == t.fullPrefix + t.keys[i].prefix && Filled(t.keys[i])
  }

  lemma {:induction false} FillOutWellFormed(t: Trie, pre: Text, weights: Weights, order: seq<Trie> -> seq<Trie>)
    requires WellFormed(t) && Permutes(order)
    ensures WellFormed(FillOut(t, pre, weights, order)) && Filled(FillOut(t, pre, weights, order))
    decreases t
  {
    var full := pre + t.prefix;
    var kids := FillOutAll(t.keys, full, weights, order);
    forall i | 0 <= i < |kids| ensures WellFormed(kids[i]) && Filled(kids[i]) {
      FillOutWellFormed(t.keys[i], full, weights, order);
    }
    PermutedSiblings(kids, order(kids));
    SameElements(kids, order(kids));
    forall i | 0 <= i < |order(kids)|
      ensures var k := order(kids)[i]; WellFormed(k) && Filled(k) && k.fullPrefix == full + k.prefix
    {
      assert order(kids)[i] in kids;
    }
  }

  /** Whatever the order of siblings, filling out keeps the denoted map. */
  lemma {:induction false} FillOutDenotes(t: Trie, pre: Text, weights: Weights, order: seq<Trie> -> seq<Trie>, s: Text)
    requires WellFormed(t) && Permutes(order)
    ensures Lookup(FillOut(t, pre, weights, order), s) == Lookup(t, s)
    decreases t
  {
    if s != [] {
      var full := pre + t.prefix;
      var kids := FillOutAll(t.keys, full, weights, order);
      PermutedDenotes(kids, order(kids), s);
      forall i | 0 <= i < |kids| && t.keys[i].prefix <= s
        ensures LookupFrom(t.keys[i], s) == LookupFrom(kids[i], s)
      {
        FillOutDenotes(t.keys[i], full, weights, order, s[|t.keys[i].prefix|..]);
      }
      LookupInSame(t.keys, kids, s);
    }
  }

  lemma {:induction false} FillOutUnits(t: Trie, pre: Text, weights: Weights, order: seq<Trie> -> seq<Trie>,
                                        ok: nat -> bool)
    requires Permutes(order) && AllUnits(t, ok)
    ensures AllUnits(FillOut(t, pre, weights, order), ok)
    decreases t
  {
    var full := pre + t.prefix;
    var kids := FillOutAll(t.keys, full, weights, order);
    forall i | 0 <= i < |kids| ensures AllUnits(kids[i], ok) {
      FillOutUnits(t.keys[i], full, weights, order, ok);
    }
    SameElements(kids, order(kids));
    forall i | 0 <= i < |order(kids)|
      ensures AllUnits(order(kids)[i], ok) && forall c :: c in order(kids)[i].prefix ==> ok(c)
    {
      assert order(kids)[i] in kids;
    }
  }

  /** The length of the longest path. */
  function MaxLength(t: Trie): (n: nat)
    ensures |t.fullPrefix| <= n
    decreases t, 1
  {
    MaxLengthIn(t.keys, |t.fullPrefix|)
  }

  function MaxLengthIn(ts: seq<Trie>, max: nat): (n: nat)
    ensures max <= n
    ensures forall i :: 0 <= i < |ts| ==> MaxLength(ts[i]) <= n
    decreases ts, 0
  {
    if ts == [] then max else
      var l := MaxLength(ts[0]);
      MaxLengthIn(ts[1..], if l > max then l else max)
  }
}
