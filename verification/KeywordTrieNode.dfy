/** Trie objects as the generator holds them: mutable nodes, each owning the
    nodes below it.  Every operation is tied to its counterpart on values. */
module KeywordTrieNode {
  import opened Wrappers
  import opened KeywordTrie
  import opened KeywordMatcher

  /** Valid nodes with nothing in common. */
  ghost predicate Forest(nodes: seq<TrieNode>)
    reads nodes, set i, o | 0 <= i < |nodes| && o in nodes[i].repr :: o
  {
    && (forall i :: 0 <= i < |nodes| ==> nodes[i].Valid())
    && (forall i, j :: 0 <= i < j < |nodes| ==> nodes[i].repr !! nodes[j].repr)
  }

  /** The nodes stand for the given values and stay within a set of objects. */
  ghost predicate Holds(nodes: seq<TrieNode>, models: seq<Trie>, owned: set<TrieNode>)
    reads nodes
  {
    |models| == |nodes| && forall i :: 0 <= i < |nodes| ==> nodes[i].model == models[i] && nodes[i].repr <= owned
  }

  class TrieNode {
    var prefix: Text
    var value: Option<Token>
    var keys: seq<TrieNode>  // the values of the dictionary, in insertion order
    var fullPrefix: Text
    var selfWeight: nat
    var weight: nat
    ghost var repr: set<TrieNode>
    ghost var model: Trie

    /** The model mirrors the fields; the children are valid, and nothing below one is below another. */
    ghost predicate Valid()
      reads this, repr
      decreases repr
    {
      && this in repr && Mirrored()
      && |model.keys| == |keys|
      && (forall i :: 0 <= i < |keys| ==>
            && keys[i] in repr && keys[i].repr < repr && this !in keys[i].repr
            && keys[i].model == model.keys[i] && keys[i].Valid())
      && (forall i, j :: 0 <= i < j < |keys| ==> keys[i].repr !! keys[j].repr)
    }

    ghost predicate Mirrored()
      reads this
    {
      model == Trie(prefix, value, model.keys, fullPrefix, selfWeight, weight)
    }

    constructor (prefix: Text)
      ensures Valid() && repr == {this} && model == Leaf(prefix)
    {
      this.prefix, value, keys := prefix, None, [];
      fullPrefix, selfWeight, weight := [], 0, 0;
      repr, model := {this}, Leaf(prefix);
    }

    // ----- insertion -----

    method FindChild(c: nat) returns (i: nat)
      requires Valid()
      ensures i == Find(model.keys, c)
    {
      i := 0;
      while i < |keys| && keys[i].prefix != [c]
        invariant i <= |keys|
        invariant forall j :: 0 <= j < i ==> model.keys[j].prefix != [c]
      {
        i := i + 1;
      }
    }

    /** Files a new node that has nothing in common with this one. */
    method Adopt(child: TrieNode)
      requires Valid() && child.Valid() && child.repr !! repr
      modifies this
      ensures Valid() && repr == old(repr) + child.repr
      ensures model == old(model).(keys := old(model).keys + [child.model])
    {
      keys := keys + [child];
      repr := repr + child.repr;
      model := model.(keys := model.keys + [child.model]);
    }

    /** Takes note of a change below child i that left the other children alone. */
    ghost method Refresh(i: nat)
      requires i < |keys| && this !in keys[i].repr && keys[i].Valid() && this in repr
      requires Mirrored() && |model.keys| == |keys|
      requires forall j :: 0 <= j < |keys| && j != i ==>
            && keys[j] in repr && keys[j].repr < repr && this !in keys[j].repr && keys[j].repr !! keys[i].repr
            && keys[j].model == model.keys[j] && keys[j].Valid()
      requires forall j, k :: 0 <= j < k < |keys| && j != i && k != i ==> keys[j].repr !! keys[k].repr
      modifies this
      ensures Valid() && repr == old(repr) + keys[i].repr
      ensures model == old(model).(keys := old(model).keys[i := keys[i].model])
    {
      repr := repr + keys[i].repr;
      model := model.(keys := model.keys[i := keys[i].model]);
    }

    method InsertNew(key: Text, v: Token)
      requires Valid() && key != [] && Find(model.keys, key[0]) == |keys|
      modifies this
      ensures Valid() && fresh(repr - old(repr))
      ensures model == KeywordTrie.Insert(old(model), key, v)
      decreases |key|, 1
    {
      var child := Sprout(key, v);
      Adopt(child);
    }

    /** A new node filed under the first character that holds the rest of the key. */
    static method Sprout(key: Text, v: Token) returns (child: TrieNode)
      requires key != []
      ensures child.Valid() && fresh(child.repr)
      ensures child.model == KeywordTrie.Insert(Leaf([key[0]]), key[1..], v)
      decreases |key|, 0
    {
      child := new TrieNode([key[0]]);
      child.Insert(key[1..], v);
    }

    method InsertBelow(i: nat, key: Text, v: Token)
      requires Valid() && key != [] && Find(model.keys, key[0]) == i < |keys|
      modifies repr
      ensures Valid() && fresh(repr - old(repr))
      ensures model == KeywordTrie.Insert(old(model), key, v)
      decreases |key|, 0
    {
      keys[i].Insert(key[1..], v);
      Refresh(i);
    }

    method Insert(key: Text, v: Token)
      requires Valid()
      modifies repr
      ensures Valid() && fresh(repr - old(repr))
      ensures model == KeywordTrie.Insert(old(model), key, v)
      decreases |key|, 2
    {
      if key == [] {
        value := Some(v);
        model := model.(value := Some(v));
        return;
      }
      var i := FindChild(key[0]);
      if i == |keys| {
        InsertNew(key, v);
      } else {
        InsertBelow(i, key, v);
      }
    }

    // ----- coalescing -----

    static method CoalesceAt(nodes: seq<TrieNode>, j: nat) returns (r: TrieNode)
      requires Forest(nodes) && j < |nodes|
      modifies nodes[j].repr
      ensures Forest(nodes[j := r]) && fresh(r.repr - old(nodes[j].repr))
      ensures r.model == KeywordTrie.Coalesce(old(nodes[j].model))
      ensures forall i :: 0 <= i < |nodes| && i != j ==>
        nodes[i].model == old(nodes[i].model) && nodes[i].repr == old(nodes[i].repr)
      decreases nodes[j].model, 2
    {
      r := nodes[j].Coalesce();
    }

    method CoalesceChildren() returns (nodes: seq<TrieNode>, ghost owned: set<TrieNode>)
      requires Valid()
      modifies repr - {this}
      ensures Forest(nodes) && Holds(nodes, CoalesceAll(model.keys), owned)
      ensures this !in owned && fresh(owned - old(repr))
      decreases model, 0
    {
      nodes, owned := keys, repr - {this};
      for j := 0 to |keys|
        invariant Forest(nodes) && |nodes| == |keys|
        invariant forall i :: 0 <= i < |nodes| ==>
          nodes[i].model == if i < j then KeywordTrie.Coalesce(model.keys[i]) else model.keys[i]
        invariant forall i :: 0 <= i < |nodes| ==> nodes[i].repr <= owned
        invariant this !in owned && fresh(owned - old(repr))
      {
        var r := CoalesceAt(nodes, j);
        nodes := nodes[j := r];
        owned := owned + r.repr;
      }
    }

    /** Makes the given nodes the children of this one. */
    method Install(nodes: seq<TrieNode>, ghost models: seq<Trie>, ghost owned: set<TrieNode>)
      requires Forest(nodes) && Holds(nodes, models, owned) && this !in owned && Mirrored()
      modifies this
      ensures Valid() && repr == {this} + owned
      ensures keys == nodes && model == old(model).(keys := models)
      ensures prefix == old(prefix) && value == old(value)
    {
      keys := nodes;
      repr := {this} + owned;
      model := model.(keys := models);
    }

    /** A new node that takes over the only child's token and children. */
    method Merge() returns (r: TrieNode)
      requires Valid() && |keys| == 1
      ensures r.Valid() && fresh(r) && r.repr == {r} + keys[0].repr
      ensures r.model == Leaf(prefix + keys[0].prefix).(value := keys[0].value, keys := keys[0].model.keys)
    {
      r := new TrieNode(prefix + keys[0].prefix);
      r.value := keys[0].value;
      r.keys := keys[0].keys;
      r.repr := {r} + keys[0].repr;
      r.model := Leaf(r.prefix).(value := r.value, keys := keys[0].model.keys);
    }

    /** Coalesces in place and returns this node or a merged one in its stead. */
    method Coalesce() returns (r: TrieNode)
      requires Valid()
      modifies repr
      ensures Valid() && model == CoalesceKeys(old(model)) && fresh(repr - old(repr))
      ensures r.Valid() && r.model == KeywordTrie.Coalesce(old(model)) && fresh(r.repr - old(repr))
      decreases model, 1
    {
      var nodes, owned := CoalesceChildren();
      Install(nodes, CoalesceAll(model.keys), owned);
      if value.Some? || |keys| != 1 {
        r := this;
      } else {
        r := Merge();
      }
    }
  }

  /** The driver's first part: every keyword inserted, then coalesced below the
      root; the node that coalescing returns for the root is dropped. */
  method BuildTrie(keywords: Keywords) returns (root: TrieNode)
    ensures root.Valid() && fresh(root.repr)
    ensures root.model == CoalesceKeys(InsertAll(keywords))
  {
    root := new TrieNode([]);
    for i := 0 to |keywords|
      invariant root.Valid() && fresh(root.repr)
      invariant root.model == InsertAll(keywords[..i])
    {
      assert keywords[..i + 1] == keywords[..i] + [keywords[i]];
      root.Insert(keywords[i].0, keywords[i].1);
    }
    assert keywords[..|keywords|] == keywords;
    var _ := root.Coalesce();
  }
}
