/** Actions of several input sources, dealt out into ticks. */
module ActionTicks {

  /** One tick: the i-th action of every source that has one, in the order of the sources. */
  function Tick<A>(sources: seq<seq<A>>, i: nat): seq<A> {
    if sources == [] then []
    else
      var last := |sources| - 1;
      Tick(sources[..last], i) + (if i < |sources[last]| then [sources[last][i]] else [])
  }

  function Longest<A>(sources: seq<seq<A>>): nat {
    if sources == [] then 0
    else
      var last := |sources| - 1;
      var n := Longest(sources[..last]);
      if n < |sources[last]| then |sources[last]| else n
  }

  /** The ragged transpose of the sources. */
  ghost predicate IsTransposeOf<A>(ticks: seq<seq<A>>, sources: seq<seq<A>>) {
    |ticks| == Longest(sources) && forall i :: 0 <= i < |ticks| ==> ticks[i] == Tick(sources, i)
  }

  lemma {:induction false} TickBeyond<A>(sources: seq<seq<A>>, i: nat)
    requires Longest(sources) <= i
    ensures Tick(sources, i) == []
  {
    if sources != [] {
      TickBeyond(sources[..|sources| - 1], i);
    }
  }

  /** One source dealt out into the ticks there are, with new ticks where it is longer. */
  method DealOut<A>(ticks: seq<seq<A>>, source: seq<A>) returns (r: seq<seq<A>>)
    ensures |r| == if |ticks| < |source| then |source| else |ticks|
    ensures forall i :: 0 <= i < |r| ==>
      r[i] == (if i < |ticks| then ticks[i] else []) + (if i < |source| then [source[i]] else [])
  {
    r := ticks;
    for i := 0 to |source|
      invariant |r| == if |ticks| < i then i else |ticks|
      invariant forall j :: 0 <= j < |r| ==>
        r[j] == (if j < |ticks| then ticks[j] else []) + (if j < i then [source[j]] else [])
    {
      if |r| < i + 1 {
        r := r + [[]];
      }
      r := r[i := r[i] + [source[i]]];
    }
  }

  method ActionsByTick<A>(sources: seq<seq<A>>) returns (ticks: seq<seq<A>>)
    ensures IsTransposeOf(ticks, sources)
  {
    ticks := [];
    for k := 0 to |sources|
      invariant IsTransposeOf(ticks, sources[..k])
    {
      assert sources[..k + 1][..k] == sources[..k];
      forall i | |ticks| <= i ensures Tick(sources[..k], i) == [] {
        TickBeyond(sources[..k], i);
      }
      ticks := DealOut(ticks, sources[k]);
    }
    assert sources[..|sources|] == sources;
  }

  // ----- nothing is lost -----

  function Flat<A>(ticks: seq<seq<A>>): seq<A> {
    if ticks == [] then [] else Flat(ticks[..|ticks| - 1]) + ticks[|ticks| - 1]
  }

  function Only<A>(actions: seq<A>, keep: A -> bool): seq<A> {
    if actions == [] then []
    else
      var last := |actions| - 1;
      Only(actions[..last], keep) + (if keep(actions[last]) then [actions[last]] else [])
  }

  lemma {:induction false} OnlyAppend<A>(a: seq<A>, b: seq<A>, keep: A -> bool)
    ensures Only(a + b, keep) == Only(a, keep) + Only(b, keep)
    decreases |b|
  {
    if b == [] {
      assert a + b == a;
    } else {
      var last := |b| - 1;
      assert (a + b)[..|a + b| - 1] == a + b[..last];
      OnlyAppend(a, b[..last], keep);
    }
  }

  /** The actions of one source and no others pass the filter. */
  ghost predicate Picks<A>(sources: seq<seq<A>>, k: nat, keep: A -> bool) {
    k < |sources| &&
    forall j, i :: 0 <= j < |sources| && 0 <= i < |sources[j]| ==> (keep(sources[j][i]) <==> j == k)
  }

  lemma {:induction false} TickDropped<A>(sources: seq<seq<A>>, i: nat, keep: A -> bool)
    requires forall j :: 0 <= j < |sources| && i < |sources[j]| ==> !keep(sources[j][i])
    ensures Only(Tick(sources, i), keep) == []
  {
    if sources != [] {
      var last := |sources| - 1;
      TickDropped(sources[..last], i, keep);
      var more := if i < |sources[last]| then [sources[last][i]] else [];
      OnlyAppend(Tick(sources[..last], i), more, keep);
    }
  }

  lemma {:induction false} TickPicked<A>(sources: seq<seq<A>>, k: nat, i: nat, keep: A -> bool)
    requires Picks(sources, k, keep)
    ensures Only(Tick(sources, i), keep) == if i < |sources[k]| then [sources[k][i]] else []
  {
    var last := |sources| - 1;
    var before := sources[..last];
    var more := if i < |sources[last]| then [sources[last][i]] else [];
    OnlyAppend(Tick(before, i), more, keep);
    if k == last {
      TickDropped(before, i, keep);
    } else {
      TickPicked(before, k, i, keep);
    }
  }

  lemma {:induction false} LongestBounds<A>(sources: seq<seq<A>>, k: nat)
    requires k < |sources|
    ensures |sources[k]| <= Longest(sources)
  {
    if k < |sources| - 1 {
      LongestBounds(sources[..|sources| - 1], k);
    }
  }

  function UpTo<A>(s: seq<A>, n: nat): seq<A> { if n < |s| then s[..n] else s }

  function AtMost<A>(s: seq<A>, i: nat): seq<A> { if i < |s| then [s[i]] else [] }

  lemma UpToMore<A>(s: seq<A>, n: nat)
    ensures UpTo(s, n + 1) == UpTo(s, n) + AtMost(s, n)
  {
  }

  /** The first ticks of some sources. */
  ghost predicate AreTicksOf<A>(ticks: seq<seq<A>>, sources: seq<seq<A>>) {
    forall i :: 0 <= i < |ticks| ==> ticks[i] == Tick(sources, i)
  }

  lemma {:induction false} FlatPicked<A>(ticks: seq<seq<A>>, sources: seq<seq<A>>, k: nat, keep: A -> bool)
    requires Picks(sources, k, keep) && AreTicksOf(ticks, sources)
    ensures Only(Flat(ticks), keep) == UpTo(sources[k], |ticks|)
    decreases |ticks|
  {
    if ticks != [] {
      var last := |ticks| - 1;
      FlatPicked(ticks[..last], sources, k, keep);
      OnlyAppend(Flat(ticks[..last]), ticks[last], keep);
      TickPicked(sources, k, last, keep);
      UpToMore(sources[k], last);
    }
  }

  /** Dealing out keeps each source whole and in order: picked out of all the ticks, its actions are what they
      were. */
  lemma SourceIsKept<A>(ticks: seq<seq<A>>, sources: seq<seq<A>>, k: nat, keep: A -> bool)
    requires IsTransposeOf(ticks, sources) && Picks(sources, k, keep)
    ensures Only(Flat(ticks), keep) == sources[k]
  {
    FlatPicked(ticks, sources, k, keep);
    LongestBounds(sources, k);
  }

  /** All the actions of all the sources, each as often as it occurs. */
  ghost function All<A>(sources: seq<seq<A>>): multiset<A> {
    if sources == [] then multiset{} else All(sources[..|sources| - 1]) + multiset(sources[|sources| - 1])
  }

  /** Those among the first ones of each source. */
  ghost function Gathered<A>(sources: seq<seq<A>>, n: nat): multiset<A> {
    if sources == [] then multiset{}
    else Gathered(sources[..|sources| - 1], n) + multiset(UpTo(sources[|sources| - 1], n))
  }

  lemma {:induction false} GatheredMore<A>(sources: seq<seq<A>>, n: nat)
    ensures Gathered(sources, n + 1) == Gathered(sources, n) + multiset(Tick(sources, n))
  {
    if sources != [] {
      GatheredMore(sources[..|sources| - 1], n);
      UpToMore(sources[|sources| - 1], n);
    }
  }

  lemma {:induction false} GatheredNone<A>(sources: seq<seq<A>>)
    ensures Gathered(sources, 0) == multiset{}
  {
    if sources != [] {
      GatheredNone(sources[..|sources| - 1]);
      assert UpTo(sources[|sources| - 1], 0) == [];
    }
  }

  lemma {:induction false} GatheredAll<A>(sources: seq<seq<A>>, n: nat)
    requires Longest(sources) <= n
    ensures Gathered(sources, n) == All(sources)
  {
    if sources != [] {
      GatheredAll(sources[..|sources| - 1], n);
    }
  }

  lemma {:induction false} FlatGathered<A>(ticks: seq<seq<A>>, sources: seq<seq<A>>)
    requires AreTicksOf(ticks, sources)
    ensures multiset(Flat(ticks)) == Gathered(sources, |ticks|)
    decreases |ticks|
  {
    if ticks == [] {
      GatheredNone(sources);
    } else {
      FlatGathered(ticks[..|ticks| - 1], sources);
      GatheredMore(sources, |ticks| - 1);
    }
  }

  /** No action is lost and none is doubled, even when sources share their names. */
  lemma NothingLost<A>(ticks: seq<seq<A>>, sources: seq<seq<A>>)
    requires IsTransposeOf(ticks, sources)
    ensures multiset(Flat(ticks)) == All(sources)
  {
    FlatGathered(ticks, sources);
    GatheredAll(sources, |ticks|);
  }

  lemma {:induction false} InFlat<A>(ticks: seq<seq<A>>, a: A)
    ensures a in Flat(ticks) <==> exists i :: 0 <= i < |ticks| && a in ticks[i]
  {
    if ticks != [] {
      var last := |ticks| - 1;
      InFlat(ticks[..last], a);
      assert forall i :: 0 <= i < last ==> ticks[..last][i] == ticks[i];
    }
  }

  lemma {:induction false} InAll<A>(sources: seq<seq<A>>, a: A)
    ensures a in All(sources) <==> exists k :: 0 <= k < |sources| && a in sources[k]
  {
    if sources != [] {
      var last := |sources| - 1;
      InAll(sources[..last], a);
      assert forall k :: 0 <= k < last ==> sources[..last][k] == sources[k];
      assert a in multiset(sources[last]) <==> a in sources[last];
    }
  }

  /** What is in some tick is in some source, and the other way round. */
  lemma SameActions<A>(ticks: seq<seq<A>>, sources: seq<seq<A>>, a: A)
    requires IsTransposeOf(ticks, sources)
    ensures (exists i :: 0 <= i < |ticks| && a in ticks[i]) <==> (exists k :: 0 <= k < |sources| && a in sources[k])
  {
    NothingLost(ticks, sources);
    InFlat(ticks, a);
    InAll(sources, a);
    assert a in multiset(Flat(ticks)) <==> a in Flat(ticks);
  }
}
