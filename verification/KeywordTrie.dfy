/** The trie of the keyword matcher generator: what it denotes, how keywords go
    in, and how chains of single children are coalesced. */
module KeywordTrie {
  import opened Wrappers

  /** Source text and keywords are sequences of code units. */
  type Text = seq<nat>
  type Token = string

  /** keys holds the children in dictionary order; fullPrefix and the weights
      are empty until FillOut computes them. */
  datatype Trie = Trie(
    prefix: Text,
    value: Option<Token>,
    keys: seq<Trie>,
    fullPrefix: Text,
    selfWeight: nat,
    weight: nat)

  function Leaf(prefix: Text): Trie {
    Trie(prefix, None, [], [], 0, 0)
  }

  // ----- what a trie denotes -----

  /** The token stored below t at the end of path s. */
  function Lookup(t: Trie, s: Text): Option<Token>
    decreases t, 1
  {
    if s == [] then t.value else LookupIn(t.keys, s)
  }

  function LookupIn(ts: seq<Trie>, s: Text): Option<Token>
    decreases ts, 0
  {
    if ts == [] then None
    else if ts[0].prefix <= s then Lookup(ts[0], s[|ts[0].prefix|..])
    else LookupIn(ts[1..], s)
  }

  /** Siblings can be told apart by the first character of their prefixes. */
  ghost predicate Siblings(ts: seq<Trie>) {
    && (forall i :: 0 <= i < |ts| ==> ts[i].prefix != [])
    && (forall i, j :: 0 <= i < j < |ts| ==> ts[i].prefix[0] != ts[j].prefix[0])
  }

  ghost predicate WellFormed(t: Trie)
    decreases t
  {
    Siblings(t.keys) && forall i :: 0 <= i < |t.keys| ==> WellFormed(t.keys[i])
  }

  lemma SiblingsTail(ts: seq<Trie>)
    requires Siblings(ts) && ts != []
    ensures Siblings(ts[1..])
  {
    forall i | 0 <= i < |ts[1..]| ensures ts[1..][i].prefix != [] {
      assert ts[1..][i] == ts[i + 1];
    }
    forall i, j | 0 <= i < j < |ts[1..]| ensures ts[1..][i].prefix[0] != ts[1..][j].prefix[0] {
      assert ts[1..][i] == ts[i + 1] && ts[1..][j] == ts[j + 1];
    }
  }

  /** Among siblings, whichever child's prefix starts the path decides. */
  lemma {:induction false} LookupInChild(ts: seq<Trie>, s: Text, i: nat)
    requires Siblings(ts) && i < |ts| && ts[i].prefix <= s
    ensures LookupIn(ts, s) == Lookup(ts[i], s[|ts[i].prefix|..])
    decreases |ts|
  {
    if i != 0 {
      assert ts[0].prefix[0] != ts[i].prefix[0] == s[0];
      SiblingsTail(ts);
      assert ts[1..][i - 1] == ts[i];
      LookupInChild(ts[1..], s, i - 1);
    }
  }

  lemma {:induction false} LookupInNone(ts: seq<Trie>, s: Text)
    requires forall i :: 0 <= i < |ts| ==> !(ts[i].prefix <= s)
    ensures LookupIn(ts, s) == None
    decreases |ts|
  {
    if ts != [] {
      forall i | 0 <= i < |ts[1..]| ensures !(ts[1..][i].prefix <= s) {
        assert ts[1..][i] == ts[i + 1];
      }
      LookupInNone(ts[1..], s);
    }
  }

  /** The child that decides where path s leads, if any. */
  lemma LookupInCases(ts: seq<Trie>, s: Text) returns (i: nat)
    requires Siblings(ts)
    ensures i <= |ts|
    ensures i < |ts| ==> ts[i].prefix <= s && LookupIn(ts, s) == Lookup(ts[i], s[|ts[i].prefix|..])
    ensures i == |ts| ==> LookupIn(ts, s) == None && forall j :: 0 <= j < |ts| ==> !(ts[j].prefix <= s)
  {
    if j :| 0 <= j < |ts| && ts[j].prefix <= s {
      i := j;
      LookupInChild(ts, s, i);
    } else {
      i := |ts|;
      LookupInNone(ts, s);
    }
  }

  /** Where path s leads when it must first spell t's own prefix. */
  function LookupFrom(t: Trie, s: Text): Option<Token> {
    if t.prefix <= s then Lookup(t, s[|t.prefix|..]) else None
  }

  /** Only the child that starts with the path's first character matters. */
  lemma LookupInFrom(ts: seq<Trie>, s: Text, i: nat)
    requires Siblings(ts) && s != [] && i < |ts| && ts[i].prefix[0] == s[0]
    ensures LookupIn(ts, s) == LookupFrom(ts[i], s)
  {
    if ts[i].prefix <= s {
      LookupInChild(ts, s, i);
    } else {
      forall j | 0 <= j < |ts| ensures !(ts[j].prefix <= s) {
        assert j != i ==> ts[j].prefix[0] != s[0];
      }
      LookupInNone(ts, s);
    }
  }

  /** Lists of siblings that match path by path denote the same. */
  lemma LookupInSame(ts: seq<Trie>, us: seq<Trie>, s: Text)
    requires Siblings(ts) && Siblings(us) && |ts| == |us| && s != []
    requires forall i :: 0 <= i < |ts| ==> ts[i].prefix[0] == us[i].prefix[0]
    requires forall i :: 0 <= i < |ts| && ts[i].prefix[0] == s[0] ==> LookupFrom(ts[i], s) == LookupFrom(us[i], s)
    ensures LookupIn(ts, s) == LookupIn(us, s)
  {
    if i :| 0 <= i < |ts| && ts[i].prefix[0] == s[0] {
      LookupInFrom(ts, s, i);
      LookupInFrom(us, s, i);
    } else {
      LookupInNone(ts, s);
      LookupInNone(us, s);
    }
  }

  // ----- insertion -----

  /** The position of the child filed under c, or the number of children. */
  function Find(ts: seq<Trie>, c: nat): (i: nat)
    ensures i <= |ts|
    ensures i < |ts| ==> ts[i].prefix == [c]
    ensures forall j :: 0 <= j < i ==> ts[j].prefix != [c]
  {
    if ts == [] then 0 else if ts[0].prefix == [c] then 0 else
      var i := Find(ts[1..], c);
      assert forall j :: 0 < j < |ts| ==> ts[j] == ts[1..][j - 1];
      i + 1
  }

  function Insert(t: Trie, key: Text, value: Token): Trie
    decreases |key|
  {
    if key == [] then t.(value := Some(value)) else
      var i := Find(t.keys, key[0]);
      if i < |t.keys| then
        t.(keys := t.keys[i := Insert(t.keys[i], key[1..], value)])
      else
        t.(keys := t.keys + [Insert(Leaf([key[0]]), key[1..], value)])
  }

  /** The shape insertion produces: one character per edge, and no dead ends. */
  ghost predicate Raw(t: Trie)
    decreases t
  {
    && Siblings(t.keys)
    && forall i :: 0 <= i < |t.keys| ==>
         |t.keys[i].prefix| == 1 && !Dead(t.keys[i]) && Raw(t.keys[i])
  }

  predicate Dead(t: Trie) {
    t.value == None && t.keys == []
  }

  lemma InsertKeepsPrefix(t: Trie, key: Text, value: Token)
    ensures Insert(t, key, value).prefix == t.prefix
    ensures !Dead(Insert(t, key, value))
  {
  }

  lemma {:induction false} InsertRaw(t: Trie, key: Text, value: Token)
    requires Raw(t)
    ensures Raw(Insert(t, key, value))
    decreases |key|
  {
    if key != [] {
      var i := Find(t.keys, key[0]);
      var child := if i < |t.keys| then t.keys[i] else Leaf([key[0]]);
      InsertRaw(child, key[1..], value);
      InsertKeepsPrefix(child, key[1..], value);
    }
  }

  lemma {:induction false} LookupInAppend(ts: seq<Trie>, x: Trie, s: Text)
    ensures LookupIn(ts + [x], s) == LookupIn(ts, s)
         || (x.prefix <= s && forall i :: 0 <= i < |ts| ==> !(ts[i].prefix <= s))
    decreases |ts|
  {
    if ts == [] {
      assert ts + [x] == [x];
    } else {
      assert (ts + [x])[1..] == ts[1..] + [x];
      LookupInAppend(ts[1..], x, s);
    }
  }

  /** Replacing the child filed under c, or adding one, leaves other paths alone. */
  lemma SameElsewhere(ts: seq<Trie>, x: Trie, c: nat, s: Text)
    requires Siblings(ts) && x.prefix == [c] && s != [] && s[0] != c
    ensures Find(ts, c) < |ts| ==> LookupIn(ts[Find(ts, c) := x], s) == LookupIn(ts, s)
    ensures LookupIn(ts + [x], s) == LookupIn(ts, s)
  {
    LookupInAppend(ts, x, s);
    var i := Find(ts, c);
    if i < |ts| {
      LookupInSame(ts, ts[i := x], s);
    }
  }

  lemma NoChild(ts: seq<Trie>, s: Text)
    requires forall j :: 0 <= j < |ts| ==> |ts[j].prefix| == 1
    requires s != [] && Find(ts, s[0]) == |ts|
    ensures LookupIn(ts, s) == None
  {
    forall j | 0 <= j < |ts| ensures !(ts[j].prefix <= s) {
      assert ts[j].prefix != [s[0]];
    }
    LookupInNone(ts, s);
  }

  /** Insertion changes the denoted map at the key and nowhere else. */
  lemma {:induction false} InsertDenotes(t: Trie, key: Text, value: Token, s: Text)
    requires Raw(t)
    ensures Lookup(Insert(t, key, value), s) == if s == key then Some(value) else Lookup(t, s)
    decreases |key|
  {
    if key != [] && s != [] {
      var i := Find(t.keys, key[0]);
      var child := if i < |t.keys| then t.keys[i] else Leaf([key[0]]);
      InsertKeepsPrefix(child, key[1..], value);
      if s[0] != key[0] {
        SameElsewhere(t.keys, Insert(child, key[1..], value), key[0], s);
      } else {
        InsertRaw(t, key, value);
        LookupInChild(Insert(t, key, value).keys, s, i);
        InsertDenotes(child, key[1..], value, s[1..]);
        assert s == [s[0]] + s[1..] && key == [key[0]] + key[1..];
        if i < |t.keys| {
          LookupInChild(t.keys, s, i);
        } else {
          NoChild(t.keys, s);
        }
      }
    }
  }

  function InsertAll(keywords: seq<(Text, Token)>): Trie {
    if keywords == [] then Leaf([]) else
      var (k, v) := keywords[|keywords| - 1];
      Insert(InsertAll(keywords[..|keywords| - 1]), k, v)
  }

  /** The token a keyword was listed with last. */
  function LastToken(keywords: seq<(Text, Token)>, s: Text): Option<Token> {
    if keywords == [] then None else
      var (k, v) := keywords[|keywords| - 1];
      if k == s then Some(v) else LastToken(keywords[..|keywords| - 1], s)
  }

  lemma {:induction false} InsertAllRaw(keywords: seq<(Text, Token)>)
    ensures Raw(InsertAll(keywords))
    ensures InsertAll(keywords).prefix == []
  {
    if keywords != [] {
      var (k, v) := keywords[|keywords| - 1];
      var rest := InsertAll(keywords[..|keywords| - 1]);
      InsertAllRaw(keywords[..|keywords| - 1]);
      InsertRaw(rest, k, v);
      InsertKeepsPrefix(rest, k, v);
    }
  }

  /** The trie built from a keyword list denotes the last token listed for each keyword. */
  lemma {:induction false} InsertAllDenotes(keywords: seq<(Text, Token)>, s: Text)
    ensures Lookup(InsertAll(keywords), s) == LastToken(keywords, s)
  {
    if keywords != [] {
      var (k, v) := keywords[|keywords| - 1];
      InsertAllRaw(keywords[..|keywords| - 1]);
      InsertAllDenotes(keywords[..|keywords| - 1], s);
      InsertDenotes(InsertAll(keywords[..|keywords| - 1]), k, v, s);
    }
  }

  // ----- coalescing -----

  /** What coalescing leaves in t itself: its children coalesced. */
  function CoalesceKeys(t: Trie): Trie
    decreases t, 0
  {
    t.(keys := CoalesceAll(t.keys))
  }

  /** What coalescing returns: t, or t merged with its only child. */
  function Coalesce(t: Trie): Trie
    decreases t, 1
  {
    var u := CoalesceKeys(t);
    if u.value.Some? || |u.keys| != 1 then u
    else Leaf(u.prefix + u.keys[0].prefix).(value := u.keys[0].value, keys := u.keys[0].keys)
  }

  function CoalesceAll(ts: seq<Trie>): (us: seq<Trie>)
    ensures |us| == |ts|
    ensures forall i :: 0 <= i < |ts| ==> us[i] == Coalesce(ts[i])
    decreases ts, 0
  {
    if ts == [] then [] else [Coalesce(ts[0])] + CoalesceAll(ts[1..])
  }

  lemma {:induction false} CoalesceWellFormed(t: Trie)
    requires WellFormed(t)
    ensures WellFormed(Coalesce(t)) && WellFormed(CoalesceKeys(t))
    ensures t.prefix <= Coalesce(t).prefix
    decreases t
  {
    var us := CoalesceAll(t.keys);
    forall i | 0 <= i < |us|
      ensures WellFormed(us[i]) && t.keys[i].prefix <= us[i].prefix
    {
      CoalesceWellFormed(t.keys[i]);
    }
    assert forall i :: 0 <= i < |us| ==> us[i].prefix[0] == t.keys[i].prefix[0];
  }

  /** Coalescing keeps the denoted map, in the node itself and in what is returned. */
  lemma {:induction false} CoalesceDenotes(t: Trie, s: Text)
    requires WellFormed(t)
    ensures Lookup(CoalesceKeys(t), s) == Lookup(t, s)
    ensures LookupFrom(Coalesce(t), t.prefix + s) == Lookup(t, s)
    decreases t, 0
  {
    var u := CoalesceKeys(t);
    CoalesceWellFormed(t);
    if s != [] {
      forall i | 0 <= i < |t.keys| && t.keys[i].prefix[0] == s[0]
        ensures LookupFrom(t.keys[i], s) == LookupFrom(u.keys[i], s)
      {
        CoalesceFrom(t.keys[i], s);
      }
      forall i | 0 <= i < |t.keys| ensures t.keys[i].prefix[0] == u.keys[i].prefix[0] {
        CoalesceWellFormed(t.keys[i]);
      }
      LookupInSame(t.keys, u.keys, s);
    }
    assert (t.prefix + s)[|t.prefix|..] == s;
    if u.value == None && |u.keys| == 1 {
      MergeDenotes(u, s);
    }
  }

  lemma {:induction false} CoalesceFrom(t: Trie, s: Text)
    requires WellFormed(t)
    ensures LookupFrom(Coalesce(t), s) == LookupFrom(t, s)
    decreases t, 1
  {
    CoalesceWellFormed(t);
    if t.prefix <= s {
      var rest := s[|t.prefix|..];
      CoalesceDenotes(t, rest);
      assert t.prefix + rest == s;
    }
  }

  lemma PrefixCancel(p: Text, a: Text, b: Text)
    ensures p + a <= p + b <==> a <= b
  {
    if p + a <= p + b {
      assert a == (p + a)[|p|..] == (p + b)[|p|..|p + a|] == b[..|a|];
    }
  }

  lemma MergeDenotes(u: Trie, s: Text)
    requires Siblings(u.keys) && u.value == None && |u.keys| == 1
    ensures LookupFrom(
        Leaf(u.prefix + u.keys[0].prefix).(value := u.keys[0].value, keys := u.keys[0].keys), u.prefix + s)
         == Lookup(u, s)
  {
    var c := u.keys[0];
    var path := u.prefix + s;
    if c.prefix <= s {
      assert path[|u.prefix + c.prefix|..] == s[|c.prefix|..];
      LookupInChild(u.keys, s, 0);
    } else {
      PrefixCancel(u.prefix, c.prefix, s);
      if s != [] {
        LookupInNone(u.keys, s);
      }
    }
  }

  /** Below the root, every node without a token branches. */
  ghost predicate Branching(t: Trie)
    decreases t
  {
    forall i :: 0 <= i < |t.keys| ==>
      Branching(t.keys[i]) && (t.keys[i].value.Some? || 2 <= |t.keys[i].keys|)
  }

  lemma {:induction false} CoalesceBranches(t: Trie)
    requires Raw(t)
    ensures Branching(Coalesce(t)) && Branching(CoalesceKeys(t))
    ensures Dead(t) || Coalesce(t).value.Some? || 2 <= |Coalesce(t).keys|
    decreases t
  {
    var us := CoalesceAll(t.keys);
    forall i | 0 <= i < |us|
      ensures Branching(us[i]) && (us[i].value.Some? || 2 <= |us[i].keys|)
    {
      CoalesceBranches(t.keys[i]);
    }
  }

  lemma {:induction false} RawWellFormed(t: Trie)
    requires Raw(t)
    ensures WellFormed(t)
    decreases t
  {
    forall i | 0 <= i < |t.keys| ensures WellFormed(t.keys[i]) {
      RawWellFormed(t.keys[i]);
    }
  }

  // ----- which characters occur -----

  /** Every character on an edge below t is fine. */
  ghost predicate AllUnits(t: Trie, ok: nat -> bool)
    decreases t
  {
    forall i :: 0 <= i < |t.keys| ==>
      (forall c :: c in t.keys[i].prefix ==> ok(c)) && AllUnits(t.keys[i], ok)
  }

  lemma {:induction false} InsertUnits(t: Trie, key: Text, value: Token, ok: nat -> bool)
    requires AllUnits(t, ok) && forall c :: c in key ==> ok(c)
    ensures AllUnits(Insert(t, key, value), ok)
    decreases |key|
  {
    if key != [] {
      var i := Find(t.keys, key[0]);
      var child := if i < |t.keys| then t.keys[i] else Leaf([key[0]]);
      InsertUnits(child, key[1..], value, ok);
      InsertKeepsPrefix(child, key[1..], value);
    }
  }

  ghost predicate KeywordUnits(keywords: seq<(Text, Token)>, ok: nat -> bool) {
    forall i :: 0 <= i < |keywords| ==> forall c :: c in keywords[i].0 ==> ok(c)
  }

  lemma {:induction false} InsertAllUnits(keywords: seq<(Text, Token)>, ok: nat -> bool)
    requires KeywordUnits(keywords, ok)
    ensures AllUnits(InsertAll(keywords), ok)
  {
    if keywords != [] {
      var (k, v) := keywords[|keywords| - 1];
      InsertAllUnits(keywords[..|keywords| - 1], ok);
      InsertUnits(InsertAll(keywords[..|keywords| - 1]), k, v, ok);
    }
  }

  lemma {:induction false} CoalesceUnits(t: Trie, ok: nat -> bool)
    requires AllUnits(t, ok)
    ensures AllUnits(CoalesceKeys(t), ok) && AllUnits(Coalesce(t), ok)
    ensures (forall c :: c in t.prefix ==> ok(c)) ==> (forall c :: c in Coalesce(t).prefix ==> ok(c))
    decreases t
  {
    var us := CoalesceAll(t.keys);
    forall i | 0 <= i < |us|
      ensures AllUnits(us[i], ok) && forall c :: c in us[i].prefix ==> ok(c)
    {
      CoalesceUnits(t.keys[i], ok);
    }
  }
}
