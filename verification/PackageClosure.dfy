/** Which packages the Cygwin downloader fetches: those wanted, and all they need. */
module PackageClosure {

  /** For each known package, the names it requires; some may not be known. */
  type Graph = map<string, seq<string>>

  predicate Requires(g: Graph, a: string, b: string) { a in g && b in g && b in g[a] }

  /** A chain of known packages, each requiring the next. */
  ghost predicate IsPath(g: Graph, p: seq<string>) {
    p != [] && p[0] in g && (|p| > 1 ==> Requires(g, p[0], p[1]) && IsPath(g, p[1..]))
  }

  ghost predicate Reaches(g: Graph, a: string, b: string) {
    exists p :: IsPath(g, p) && p[0] == a && p[|p| - 1] == b
  }

  /** The known packages that some wanted package reaches. */
  ghost predicate Needed(g: Graph, wanted: set<string>, b: string) {
    exists a :: a in wanted && Reaches(g, a, b)
  }

  lemma ReachesItself(g: Graph, a: string)
    requires a in g
    ensures Reaches(g, a, a)
  {
    assert IsPath(g, [a]);
  }

  lemma ReachesOn(g: Graph, a: string, b: string, c: string)
    requires Requires(g, a, b) && Reaches(g, b, c)
    ensures Reaches(g, a, c)
  {
    var p :| IsPath(g, p) && p[0] == b && p[|p| - 1] == c;
    assert ([a] + p)[1..] == p;
    assert IsPath(g, [a] + p);
  }

  ghost predicate Closed(g: Graph, within: set<string>, names: set<string>) {
    forall a, b :: a in within && Requires(g, a, b) ==> b in names
  }

  lemma {:induction false} ClosedHoldsPaths(g: Graph, names: set<string>, p: seq<string>)
    requires Closed(g, names, names) && IsPath(g, p) && p[0] in names
    ensures p[|p| - 1] in names
    decreases |p|
  {
    if |p| > 1 {
      ClosedHoldsPaths(g, names, p[1..]);
    }
  }

  ghost predicate AllNeeded(g: Graph, wanted: set<string>, names: set<string>) {
    forall b :: b in names ==> Needed(g, wanted, b)
  }

  lemma ClosedTogether(g: Graph, before: set<string>, names: set<string>)
    requires before <= names && Closed(g, before, before) && Closed(g, names - before, names)
    ensures Closed(g, names, names)
  {
  }

  /** What is reached from a wanted package is needed. */
  lemma NeededThrough(g: Graph, wanted: set<string>, before: set<string>, name: string, names: set<string>)
    requires AllNeeded(g, wanted, before) && (name in wanted || names == before)
    requires forall b :: b in names && b !in before ==> Reaches(g, name, b)
    ensures AllNeeded(g, wanted, names)
  {
    forall b | b in names ensures Needed(g, wanted, b) {
      if b in before {
        assert Needed(g, wanted, b);
      }
    }
  }

  /** A closed set of reachable packages that holds the wanted ones is the set of needed ones. */
  lemma ClosureIsNeeded(g: Graph, wanted: set<string>, names: set<string>)
    requires Closed(g, names, names) && wanted <= names && AllNeeded(g, wanted, names)
    ensures forall b :: b in names <==> Needed(g, wanted, b)
  {
    forall a, p | a in wanted && IsPath(g, p) && p[0] == a ensures p[|p| - 1] in names {
      ClosedHoldsPaths(g, names, p);
    }
  }

  /** A listing of some names: each once. */
  ghost predicate IsListing(order: seq<string>, names: set<string>) {
    && (forall i, j :: 0 <= i < j < |order| ==> order[i] != order[j])
    && (forall n :: n in order <==> n in names)
  }

  lemma AllListed(order: seq<string>, all: set<string>, wanted: set<string>, names: set<string>)
    requires IsListing(order, all) && wanted <= all
    requires forall j :: 0 <= j < |order| && order[j] in wanted ==> order[j] in names
    ensures wanted <= names
  {
    forall n | n in wanted ensures n in names {
      assert n in order;
    }
  }

  function Chosen(order: seq<string>, names: set<string>): seq<string> {
    if order == [] then []
    else
      var last := |order| - 1;
      Chosen(order[..last], names) + (if order[last] in names then [order[last]] else [])
  }

  lemma ListingMore(order: seq<string>, all: set<string>, x: string)
    requires x in all && IsListing(order, all - {x}) && |order| == |all - {x}|
    ensures IsListing(order + [x], all) && |order + [x]| == |all|
  {
  }

  lemma {:induction false} ChosenIsListing(order: seq<string>, all: set<string>, names: set<string>)
    requires IsListing(order, all) && names <= all
    ensures IsListing(Chosen(order, names), names) && |Chosen(order, names)| == |names|
    decreases |order|
  {
    if order == [] {
      assert names == {} by {
        assert forall n :: n in names ==> n in order;
      }
    } else {
      var last := |order| - 1;
      var front, x := order[..last], order[last];
      assert IsListing(front, all - {x}) by {
        forall n ensures n in front <==> n in all - {x} {
          assert order == front + [x];
        }
      }
      ChosenWithout(front, names, x);
      ChosenIsListing(front, all - {x}, names - {x});
      assert names - {x} == names || x in names;
      if x in names {
        ListingMore(Chosen(front, names), names, x);
      }
    }
  }

  lemma {:induction false} ChosenWithout(order: seq<string>, names: set<string>, x: string)
    requires x !in order
    ensures Chosen(order, names) == Chosen(order, names - {x})
    decreases |order|
  {
    if order != [] {
      ChosenWithout(order[..|order| - 1], names, x);
    }
  }

  /** The script's globals: what each package requires, the packages marked for download, and the names
      collected. */
  class Downloader {
    const packages: Graph
    var needsDownload: set<string>
    var namesToDownload: set<string>

    constructor (packages: Graph, base: set<string>)
      ensures this.packages == packages && needsDownload == base && namesToDownload == {}
    {
      this.packages := packages;
      needsDownload, namesToDownload := base, {};
    }

    /** Collects a package and what it needs; terminates on any graph, for each call that goes on collects
        one more known package. */
    method AddPackageAndDependencies(name: string)
      requires namesToDownload <= packages.Keys
      modifies this
      ensures old(namesToDownload) <= namesToDownload <= packages.Keys
      ensures needsDownload == old(needsDownload) + (namesToDownload - old(namesToDownload))
      ensures name in packages ==> name in namesToDownload
      ensures name in old(namesToDownload) ==> namesToDownload == old(namesToDownload)
      ensures Closed(packages, namesToDownload - old(namesToDownload), namesToDownload)
      ensures forall b :: b in namesToDownload && b !in old(namesToDownload) ==> Reaches(packages, name, b)
      decreases packages.Keys - namesToDownload
    {
      if name in namesToDownload {
        return;
      }
      if name !in packages {
        return;
      }
      needsDownload := needsDownload + {name};
      namesToDownload := namesToDownload + {name};
      ReachesItself(packages, name);
      var requires_ := packages[name];
      for i := 0 to |requires_|
        invariant old(namesToDownload) + {name} <= namesToDownload <= packages.Keys
        invariant needsDownload == old(needsDownload) + (namesToDownload - old(namesToDownload))
        invariant forall j :: 0 <= j < i && requires_[j] in packages ==> requires_[j] in namesToDownload
        invariant Closed(packages, namesToDownload - old(namesToDownload) - {name}, namesToDownload)
        invariant forall b :: b in namesToDownload && b !in old(namesToDownload) ==> Reaches(packages, name, b)
      {
        ghost var before := namesToDownload;
        AddPackageAndDependencies(requires_[i]);
        forall b | b in namesToDownload && b !in before ensures Reaches(packages, name, b) {
          ReachesOn(packages, name, requires_[i], b);
        }
      }
    }

    /** The first loop: what is collected is what is marked, and both are the packages needed by those marked
        at the start. */
    method CollectAll(packageNames: seq<string>)
      requires IsListing(packageNames, packages.Keys)
      requires needsDownload <= packages.Keys && namesToDownload == {}
      modifies this
      ensures needsDownload == namesToDownload <= packages.Keys
      ensures forall b :: b in namesToDownload <==> Needed(packages, old(needsDownload), b)
    {
      ghost var wanted := needsDownload;
      for i := 0 to |packageNames|
        invariant namesToDownload <= packages.Keys
        invariant needsDownload == wanted + namesToDownload
        invariant forall j :: 0 <= j < i && packageNames[j] in wanted ==> packageNames[j] in namesToDownload
        invariant Closed(packages, namesToDownload, namesToDownload)
        invariant AllNeeded(packages, wanted, namesToDownload)
      {
        var name := packageNames[i];
        if name in needsDownload {
          ghost var before := namesToDownload;
          AddPackageAndDependencies(name);
          ClosedTogether(packages, before, namesToDownload);
          NeededThrough(packages, wanted, before, name, namesToDownload);
        }
      }
      AllListed(packageNames, packages.Keys, wanted, namesToDownload);
      ClosureIsNeeded(packages, wanted, namesToDownload);
    }

    /** The second loop: each needed package is fetched once, in the order of the listing, and the announced
        total is the number fetched. */
    method DownloadAll(packageNames: seq<string>) returns (downloads: seq<string>, total: nat)
      requires IsListing(packageNames, packages.Keys) && needsDownload == namesToDownload <= packages.Keys
      ensures downloads == Chosen(packageNames, needsDownload)
      ensures IsListing(downloads, namesToDownload) && |downloads| == |namesToDownload| == total
    {
      downloads := [];
      for i := 0 to |packageNames|
        invariant downloads == Chosen(packageNames[..i], needsDownload)
      {
        assert packageNames[..i + 1][..i] == packageNames[..i];
        if packageNames[i] in needsDownload {
          downloads := downloads + [packageNames[i]];
        }
      }
      assert packageNames[..|packageNames|] == packageNames;
      ChosenIsListing(packageNames, packages.Keys, needsDownload);
      total := |namesToDownload|;
    }
  }
}
