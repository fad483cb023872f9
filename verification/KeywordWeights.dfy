/** What the weights of the keyword trie add up to, told from the keywords alone. */
module KeywordWeights {
  import opened Wrappers
  import opened KeywordTrie
  import opened KeywordOrder

  // ----- sums over sets of texts -----

  /** The sum of the weights of some texts; a text without one weighs nothing. */
  ghost function Total(weights: Weights, texts: set<Text>): nat
    decreases |texts|
  {
    if texts == {} then 0 else
      var w :| w in texts;
      Counted(weights, w) + Total(weights, texts - {w})
  }

  ghost function Counted(weights: Weights, w: Text): nat { if w in weights then weights[w] else 0 }

  lemma {:induction false} TotalWithout(weights: Weights, texts: set<Text>, w: Text)
    requires w in texts
    ensures Total(weights, texts) == Counted(weights, w) + Total(weights, texts - {w})
    decreases |texts|
  {
    var v :| v in texts && Total(weights, texts) == Counted(weights, v) + Total(weights, texts - {v});
    if v != w {
      TotalWithout(weights, texts - {v}, w);
      TotalWithout(weights, texts - {w}, v);
      assert texts - {v} - {w} == texts - {w} - {v};
    }
  }

  lemma {:induction false} TotalOfBoth(weights: Weights, a: set<Text>, b: set<Text>)
    requires a !! b
    ensures Total(weights, a + b) == Total(weights, a) + Total(weights, b)
    decreases |a|
  {
    if a == {} {
      assert a + b == b;
    } else {
      var w :| w in a;
      TotalWithout(weights, a + b, w);
      TotalWithout(weights, a, w);
      assert a + b - {w} == (a - {w}) + b;
      TotalOfBoth(weights, a - {w}, b);
    }
  }

  lemma TotalOfOne(weights: Weights, w: Text)
    ensures Total(weights, {w}) == Counted(weights, w)
  {
    TotalWithout(weights, {w}, w);
    assert {w} - {w} == {};
  }

  lemma {:induction false} TotalOfNone(weights: Weights, texts: set<Text>)
    requires forall w :: w in texts ==> w !in weights
    ensures Total(weights, texts) == 0
    decreases |texts|
  {
    if texts != {} {
      var w :| w in texts;
      TotalWithout(weights, texts, w);
      TotalOfNone(weights, texts - {w});
    }
  }

  // ----- the weighted texts below a node -----

  /** Does path s lead from t to a node? */
  ghost predicate HasPath(t: Trie, s: Text)
    decreases t
  {
    s == [] ||
    exists i :: 0 <= i < |t.keys| && t.keys[i].prefix <= s && HasPath(t.keys[i], s[|t.keys[i].prefix|..])
  }

  /** The weighted texts that start with t's full prefix and are themselves paths of nodes. */
  ghost function Weighted(t: Trie, full: Text, weights: Weights): set<Text> {
    set w | w in weights.Keys && full <= w && HasPath(t, w[|full|..])
  }

  /** Those that some of the siblings lead to. */
  ghost function WeightedIn(ts: seq<Trie>, full: Text, weights: Weights): set<Text> {
    set w | w in weights.Keys && exists i :: 0 <= i < |ts| && w in Weighted(ts[i], full + ts[i].prefix, weights)
  }

  /** Each node weighs as much as the weighted texts below it. */
  ghost predicate Weighed(t: Trie, weights: Weights)
    decreases t
  {
    && t.weight == Total(weights, Weighted(t, t.fullPrefix, weights))
    && t.selfWeight == Counted(weights, t.fullPrefix)
    && forall i :: 0 <= i < |t.keys| ==> Weighed(t.keys[i], weights)
  }

  /** Siblings lead to different texts. */
  lemma SiblingsApart(ts: seq<Trie>, full: Text, weights: Weights)
    requires Siblings(ts) && ts != []
    ensures Weighted(ts[0], full + ts[0].prefix, weights) !! WeightedIn(ts[1..], full, weights)
    ensures WeightedIn(ts, full, weights) ==
      Weighted(ts[0], full + ts[0].prefix, weights) + WeightedIn(ts[1..], full, weights)
  {
    var first, rest := Weighted(ts[0], full + ts[0].prefix, weights), WeightedIn(ts[1..], full, weights);
    forall w | w in first ensures w !in rest {
      forall i | 0 <= i < |ts[1..]| ensures w !in Weighted(ts[1..][i], full + ts[1..][i].prefix, weights) {
        assert ts[1..][i] == ts[i + 1];
        assert (full + ts[0].prefix)[|full|] != (full + ts[i + 1].prefix)[|full|];
      }
    }
    forall w | w in WeightedIn(ts, full, weights) ensures w in first + rest {
      var i :| 0 <= i < |ts| && w in Weighted(ts[i], full + ts[i].prefix, weights);
      assert i > 0 ==> ts[1..][i - 1] == ts[i];
    }
    forall w | w in rest ensures w in WeightedIn(ts, full, weights) {
      var i :| 0 <= i < |ts[1..]| && w in Weighted(ts[1..][i], full + ts[1..][i].prefix, weights);
      assert ts[1..][i] == ts[i + 1];
    }
  }

  /** A node's weighted texts are its own and those its children lead to. */
  lemma OwnAndBelow(t: Trie, full: Text, weights: Weights)
    requires Siblings(t.keys)
    ensures full !in WeightedIn(t.keys, full, weights)
    ensures Weighted(t, full, weights) ==
      (if full in weights then {full} else {}) + WeightedIn(t.keys, full, weights)
  {
    var below := WeightedIn(t.keys, full, weights);
    forall w | w in weights.Keys && w != full ensures w in Weighted(t, full, weights) <==> w in below {
      if w in Weighted(t, full, weights) {
        var s := w[|full|..];
        assert w == full + s;
        var i :| 0 <= i < |t.keys| && t.keys[i].prefix <= s && HasPath(t.keys[i], s[|t.keys[i].prefix|..]);
        PathContinues(t.keys[i], full, w);
      }
      if w in below {
        var i :| 0 <= i < |t.keys| && w in Weighted(t.keys[i], full + t.keys[i].prefix, weights);
        PathContinues(t.keys[i], full, w);
      }
    }
    assert full[|full|..] == [];
  }

  lemma PathContinues(child: Trie, full: Text, w: Text)
    ensures full + child.prefix <= w <==> full <= w && child.prefix <= w[|full|..]
    ensures full + child.prefix <= w ==> w[|full|..][|child.prefix|..] == w[|full + child.prefix|..]
  {
    if full <= w && child.prefix <= w[|full|..] {
      assert w == full + w[|full|..];
      assert w[..|full + child.prefix|] == full + child.prefix;
    }
    if full + child.prefix <= w {
      assert w[|full|..][..|child.prefix|] == child.prefix;
      assert w[..|full|] == full;
    }
  }

  // ----- filling out weighs -----

  /** The order of siblings does not matter to the paths below. */
  lemma SamePaths(t: Trie, u: Trie, s: Text)
    requires forall k :: k in t.keys <==> k in u.keys
    ensures HasPath(t, s) <==> HasPath(u, s)
  {
    if s != [] {
      if HasPath(t, s) {
        var i :| 0 <= i < |t.keys| && t.keys[i].prefix <= s && HasPath(t.keys[i], s[|t.keys[i].prefix|..]);
        assert t.keys[i] in u.keys;
      }
      if HasPath(u, s) {
        var i :| 0 <= i < |u.keys| && u.keys[i].prefix <= s && HasPath(u.keys[i], s[|u.keys[i].prefix|..]);
        assert u.keys[i] in t.keys;
      }
    }
  }

  /** The children's weights add up to what they lead to. */
  lemma {:induction false} SumIsTotal(ts: seq<Trie>, full: Text, weights: Weights)
    requires Siblings(ts)
    requires forall i :: 0 <= i < |ts| ==>
      ts[i].weight == Total(weights, Weighted(ts[i], full + ts[i].prefix, weights))
    ensures SumWeights(ts) == Total(weights, WeightedIn(ts, full, weights))
    decreases |ts|
  {
    if ts == [] {
      assert WeightedIn(ts, full, weights) == {};
    } else {
      SiblingsTail(ts);
      forall i | 0 <= i < |ts[1..]|
        ensures ts[1..][i].weight == Total(weights, Weighted(ts[1..][i], full + ts[1..][i].prefix, weights))
      {
        assert ts[1..][i] == ts[i + 1];
      }
      SumIsTotal(ts[1..], full, weights);
      SiblingsApart(ts, full, weights);
      TotalOfBoth(weights, Weighted(ts[0], full + ts[0].prefix, weights), WeightedIn(ts[1..], full, weights));
    }
  }

  lemma WeightIsTotal(t: Trie, full: Text, weights: Weights)
    requires Siblings(t.keys) && t.weight == Counted(weights, full) + SumWeights(t.keys)
    requires forall i :: 0 <= i < |t.keys| ==>
      t.keys[i].weight == Total(weights, Weighted(t.keys[i], full + t.keys[i].prefix, weights))
    ensures t.weight == Total(weights, Weighted(t, full, weights))
  {
    SumIsTotal(t.keys, full, weights);
    OwnAndBelow(t, full, weights);
    var below := WeightedIn(t.keys, full, weights);
    if full in weights {
      TotalOfOne(weights, full);
      TotalOfBoth(weights, {full}, below);
    } else {
      assert {} + below == below;
    }
  }

  lemma SamePathsWeigh(t: Trie, u: Trie, full: Text, weights: Weights)
    requires forall k :: k in t.keys <==> k in u.keys
    ensures Weighted(t, full, weights) == Weighted(u, full, weights)
  {
    forall s: Text ensures HasPath(t, s) <==> HasPath(u, s) {
      SamePaths(t, u, s);
    }
  }

  /** The children were weighed, and then put in some order. */
  lemma NodeWeighs(u: Trie, kids: seq<Trie>, weights: Weights)
    requires Siblings(kids) && multiset(u.keys) == multiset(kids)
    requires u.weight == Counted(weights, u.fullPrefix) + SumWeights(kids)
    requires u.selfWeight == Counted(weights, u.fullPrefix)
    requires forall i :: 0 <= i < |kids| ==>
      Weighed(kids[i], weights) && kids[i].fullPrefix == u.fullPrefix + kids[i].prefix
    ensures Weighed(u, weights)
  {
    var inside := u.(keys := kids);
    WeightIsTotal(inside, u.fullPrefix, weights);
    SameElements(kids, u.keys);
    SamePathsWeigh(inside, u, u.fullPrefix, weights);
    forall i | 0 <= i < |u.keys| ensures Weighed(u.keys[i], weights) {
      assert u.keys[i] in kids;
    }
  }

  lemma FilledOutSiblings(ts: seq<Trie>, kids: seq<Trie>)
    requires Siblings(ts) && |kids| == |ts| && forall i :: 0 <= i < |ts| ==> kids[i].prefix == ts[i].prefix
    ensures Siblings(kids)
  {
  }

  /** After filling out, with siblings in any order, each node weighs as much as the weighted texts below it. */
  lemma {:induction false} FillOutWeighs(t: Trie, pre: Text, weights: Weights, order: seq<Trie> -> seq<Trie>)
    requires WellFormed(t) && Permutes(order)
    ensures Weighed(FillOut(t, pre, weights, order), weights)
    decreases t
  {
    var full := pre + t.prefix;
    var kids := FillOutAll(t.keys, full, weights, order);
    forall i | 0 <= i < |kids|
      ensures Weighed(kids[i], weights) && kids[i].fullPrefix == full + kids[i].prefix
      ensures kids[i].prefix == t.keys[i].prefix
    {
      FillOutWeighs(t.keys[i], full, weights, order);
    }
    FilledOutSiblings(t.keys, kids);
    var u := FillOut(t, pre, weights, order);
    assert u.fullPrefix == full && u.keys == order(kids);
    NodeWeighs(u, kids, weights);
  }

  // ----- heaviest first, in those sums -----

  /** Of two siblings, the one that weighs more in keywords comes first, everywhere in the trie. */
  ghost predicate CommonestFirst(t: Trie, weights: Weights)
    decreases t
  {
    && (forall i, j :: 0 <= i < j < |t.keys| ==>
         Total(weights, Weighted(t.keys[j], t.keys[j].fullPrefix, weights)) <=
         Total(weights, Weighted(t.keys[i], t.keys[i].fullPrefix, weights)))
    && (forall i :: 0 <= i < |t.keys| ==> CommonestFirst(t.keys[i], weights))
  }

  lemma {:induction false} HeavierBefore(ts: seq<Trie>, i: nat, j: nat)
    requires HeaviestFirst(ts) && i < j < |ts|
    ensures ts[j].weight <= ts[i].weight
    decreases i
  {
    if i == 0 {
      assert ts[j] == ts[1..][j - 1];
    } else {
      assert ts[1..][i - 1] == ts[i] && ts[1..][j - 1] == ts[j];
      HeavierBefore(ts[1..], i - 1, j - 1);
    }
  }

  lemma {:induction false} OrderedByTotals(t: Trie, weights: Weights)
    requires Ordered(t) && Weighed(t, weights)
    ensures CommonestFirst(t, weights)
    decreases t
  {
    forall i, j | 0 <= i < j < |t.keys|
      ensures Total(weights, Weighted(t.keys[j], t.keys[j].fullPrefix, weights)) <=
        Total(weights, Weighted(t.keys[i], t.keys[i].fullPrefix, weights))
    {
      HeavierBefore(t.keys, i, j);
    }
    forall i | 0 <= i < |t.keys| ensures CommonestFirst(t.keys[i], weights) {
      OrderedByTotals(t.keys[i], weights);
    }
  }

  // ----- told from the list of keywords -----

  /** The keywords listed that start with some text. */
  ghost function ListedBelow(keywords: seq<(Text, Token)>, full: Text): set<Text> {
    set i | 0 <= i < |keywords| && full <= keywords[i].0 :: keywords[i].0
  }

  lemma {:induction false} TokenHasPath(t: Trie, s: Text)
    requires Lookup(t, s).Some?
    ensures HasPath(t, s)
    decreases t, 1
  {
    if s != [] {
      TokenHasPathIn(t.keys, s);
    }
  }

  lemma {:induction false} TokenHasPathIn(ts: seq<Trie>, s: Text)
    requires LookupIn(ts, s).Some?
    ensures exists i :: 0 <= i < |ts| && ts[i].prefix <= s && HasPath(ts[i], s[|ts[i].prefix|..])
    decreases ts, 0
  {
    if ts[0].prefix <= s {
      TokenHasPath(ts[0], s[|ts[0].prefix|..]);
    } else {
      TokenHasPathIn(ts[1..], s);
      var i :| 0 <= i < |ts[1..]| && ts[1..][i].prefix <= s && HasPath(ts[1..][i], s[|ts[1..][i].prefix|..]);
      assert ts[i + 1] == ts[1..][i];
    }
  }

  /** The part of the trie below t holds the tokens of the keywords that start with its full prefix. */
  ghost predicate Holds(t: Trie, keywords: seq<(Text, Token)>) {
    forall s :: Lookup(t, s) == LastToken(keywords, t.fullPrefix + s)
  }

  lemma ChildLooksUp(t: Trie, i: nat, s: Text)
    requires Siblings(t.keys) && i < |t.keys|
    ensures Lookup(t.keys[i], s) == Lookup(t, t.keys[i].prefix + s)
  {
    LookupInChild(t.keys, t.keys[i].prefix + s, i);
    assert (t.keys[i].prefix + s)[|t.keys[i].prefix|..] == s;
  }

  lemma ChildHolds(t: Trie, keywords: seq<(Text, Token)>, i: nat)
    requires Siblings(t.keys) && Holds(t, keywords) && i < |t.keys|
    requires t.keys[i].fullPrefix == t.fullPrefix + t.keys[i].prefix
    ensures Holds(t.keys[i], keywords)
  {
    var child := t.keys[i];
    forall s ensures Lookup(child, s) == LastToken(keywords, child.fullPrefix + s) {
      ChildLooksUp(t, i, s);
      assert t.fullPrefix + (child.prefix + s) == child.fullPrefix + s;
    }
  }

  /** The weighted texts that start with a node's path are all listed. */
  ghost predicate AllListed(weights: Weights, keywords: seq<(Text, Token)>, full: Text) {
    forall w :: w in weights && full <= w ==> w in ListedBelow(keywords, full)
  }

  lemma {:induction false} ListedIsLast(keywords: seq<(Text, Token)>, w: Text)
    ensures LastToken(keywords, w).Some? <==> exists i :: 0 <= i < |keywords| && keywords[i].0 == w
  {
    if keywords != [] {
      var last := |keywords| - 1;
      ListedIsLast(keywords[..last], w);
      if i :| 0 <= i < last && keywords[i].0 == w {
        assert keywords[..last][i].0 == w;
      }
    }
  }

  /** A node below which no weighted text is missing from the list weighs as much as the keywords listed there. */
  ghost predicate WeighsListed(t: Trie, weights: Weights, keywords: seq<(Text, Token)>)
    decreases t
  {
    && (AllListed(weights, keywords, t.fullPrefix) ==>
        t.weight == Total(weights, ListedBelow(keywords, t.fullPrefix)))
    && forall i :: 0 <= i < |t.keys| ==> WeighsListed(t.keys[i], weights, keywords)
  }

  lemma NodeWeighsListed(t: Trie, weights: Weights, keywords: seq<(Text, Token)>)
    requires Weighed(t, weights) && Holds(t, keywords) && AllListed(weights, keywords, t.fullPrefix)
    ensures t.weight == Total(weights, ListedBelow(keywords, t.fullPrefix))
  {
    var full := t.fullPrefix;
    var heavy, listed := Weighted(t, full, weights), ListedBelow(keywords, full);
    forall w | w in weights && full <= w ensures w in heavy {
      assert w in listed;
      ListedIsLast(keywords, w);
      assert w == full + w[|full|..];
      TokenHasPath(t, w[|full|..]);
    }
    assert heavy <= listed;
    assert listed == heavy + (listed - heavy);
    TotalOfNone(weights, listed - heavy);
    TotalOfBoth(weights, heavy, listed - heavy);
  }

  lemma {:induction false} NodesWeighListed(t: Trie, weights: Weights, keywords: seq<(Text, Token)>)
    requires WellFormed(t) && Filled(t) && Weighed(t, weights) && Holds(t, keywords)
    ensures WeighsListed(t, weights, keywords)
    decreases t
  {
    if AllListed(weights, keywords, t.fullPrefix) {
      NodeWeighsListed(t, weights, keywords);
    }
    forall i | 0 <= i < |t.keys| ensures WeighsListed(t.keys[i], weights, keywords) {
      ChildHolds(t, keywords, i);
      NodesWeighListed(t.keys[i], weights, keywords);
    }
  }

  /** Of two siblings, the one whose keywords weigh more comes first, everywhere in the trie. */
  ghost predicate KeywordsInOrder(t: Trie, weights: Weights, keywords: seq<(Text, Token)>)
    decreases t
  {
    && (forall i, j :: 0 <= i < j < |t.keys| ==>
         Total(weights, ListedBelow(keywords, t.keys[j].fullPrefix)) <=
         Total(weights, ListedBelow(keywords, t.keys[i].fullPrefix)))
    && (forall i :: 0 <= i < |t.keys| ==> KeywordsInOrder(t.keys[i], weights, keywords))
  }

  /** Every weighted text is a keyword. */
  ghost predicate ListsAll(keywords: seq<(Text, Token)>, weights: Weights) {
    forall w :: w in weights ==> exists i :: 0 <= i < |keywords| && keywords[i].0 == w
  }

  lemma {:induction false} ListedInOrder(t: Trie, weights: Weights, keywords: seq<(Text, Token)>)
    requires WeighsListed(t, weights, keywords) && Ordered(t) && ListsAll(keywords, weights)
    ensures KeywordsInOrder(t, weights, keywords)
    decreases t
  {
    forall i | 0 <= i < |t.keys| ensures KeywordsInOrder(t.keys[i], weights, keywords) {
      ListedInOrder(t.keys[i], weights, keywords);
    }
    forall i, j | 0 <= i < j < |t.keys|
      ensures Total(weights, ListedBelow(keywords, t.keys[j].fullPrefix)) <=
        Total(weights, ListedBelow(keywords, t.keys[i].fullPrefix))
    {
      HeavierBefore(t.keys, i, j);
      assert AllListed(weights, keywords, t.keys[i].fullPrefix) && AllListed(weights, keywords, t.keys[j].fullPrefix);
    }
  }
}
