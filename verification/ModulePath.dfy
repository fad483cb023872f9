/** How the jsc shell turns module names into absolute paths. */
module ModulePath {
  import opened Wrappers
  import opened Splitting

  const SEPARATOR: char := '/'

  /** For "/home/WebKit/a.js" the root is "/" and the query is "home/WebKit". */
  datatype DirectoryName = DirectoryName(rootName: string, queryName: string)

  /** The last position of a character, or the length if there is none. */
  function LastIndex(s: string, c: char): (i: nat)
    ensures i <= |s| && (i < |s| ==> s[i] == c && forall j :: i < j < |s| ==> s[j] != c)
    ensures i == |s| ==> c !in s
  {
    if s == "" then 0 else
      var i := LastIndex(s[1..], c);
      if i < |s| - 1 then i + 1 else if s[0] == c then 0 else |s|
  }

  function ExtractDirectoryName(path: string): Option<DirectoryName> {
    var first, last := FirstIndex(path, SEPARATOR), LastIndex(path, SEPARATOR);
    if first == |path| then None
    else
      var queryName := if first == last then "" else path[first + 1..last];
      Some(DirectoryName(path[..first + 1], queryName))
  }

  /** One query of a module name against the directories so far. */
  function Enter(pieces: seq<string>, query: string): seq<string> {
    if query == ".." then (if pieces == [] then [] else pieces[..|pieces| - 1])
    else if query == "" || query == "." then pieces
    else pieces + [query]
  }

  function Walk(pieces: seq<string>, queries: seq<string>): seq<string>
    decreases queries
  {
    if queries == [] then pieces else Walk(Enter(pieces, queries[0]), queries[1..])
  }

  /** Only a leading separator makes a module name start from the root; so does the empty name. */
  predicate StartsWithRoot(queries: seq<string>) {
    queries != [] && queries[0] == ""
  }

  function Queries(moduleName: string): seq<string> { SplitAll(moduleName, '/') }

  /** The directories that resolving goes through to. */
  function ResolvedPieces(d: DirectoryName, moduleName: string): seq<string> {
    var queries := Queries(moduleName);
    Walk(if StartsWithRoot(queries) then [] else Split(d.queryName, SEPARATOR), queries)
  }

  function Resolve(d: DirectoryName, moduleName: string): string {
    d.rootName + Join(ResolvedPieces(d, moduleName), SEPARATOR)
  }

  lemma {:induction false} WalkAppend(pieces: seq<string>, a: seq<string>, b: seq<string>)
    ensures Walk(pieces, a + b) == Walk(Walk(pieces, a), b)
    decreases a
  {
    if a == [] {
      assert a + b == b;
    } else {
      assert (a + b)[1..] == a[1..] + b;
      WalkAppend(Enter(pieces, a[0]), a[1..], b);
    }
  }

  /** Resolving with the vector and the builder that the shell uses. */
  method ResolvePath(d: DirectoryName, moduleName: string) returns (path: string)
    ensures path == Resolve(d, moduleName)
  {
    var queries := Queries(moduleName);
    var pieces := Split(d.queryName, SEPARATOR);
    if StartsWithRoot(queries) {
      pieces := [];
    }
    pieces := EnterAll(pieces, queries);
    path := BuildPath(d.rootName, pieces);
  }

  method EnterAll(directory: seq<string>, queries: seq<string>) returns (pieces: seq<string>)
    ensures pieces == Walk(directory, queries)
  {
    pieces := directory;
    for i := 0 to |queries|
      invariant Walk(pieces, queries[i..]) == Walk(directory, queries)
    {
      ghost var before := pieces;
      if queries[i] == ".." {
        if pieces != [] {
          pieces := pieces[..|pieces| - 1];
        }
      } else if queries[i] != "" && queries[i] != "." {
        pieces := pieces + [queries[i]];
      }
      assert pieces == Enter(before, queries[i]);
      assert queries[i..][1..] == queries[i + 1..];
    }
  }

  method BuildPath(root: string, pieces: seq<string>) returns (path: string)
    ensures path == root + Join(pieces, SEPARATOR)
  {
    path := root;
    for i := 0 to |pieces|
      invariant path == root + Join(pieces[..i], SEPARATOR) + (if 0 < i < |pieces| then [SEPARATOR] else "")
    {
      path := path + pieces[i];
      assert pieces[..i + 1] == pieces[..i] + [pieces[i]];
      if i > 0 {
        JoinSnoc(pieces[..i], pieces[i], SEPARATOR);
      }
      assert path == root + Join(pieces[..i + 1], SEPARATOR);
      if i + 1 != |pieces| {
        path := path + [SEPARATOR];
      }
    }
    assert pieces[..|pieces|] == pieces;
  }

  // ----- what resolved paths look like -----

  /** A name that stands for itself. */
  predicate Plain(p: string) { p != "" && p != "." && p != ".." && '/' !in p }

  ghost predicate AllPlain(ps: seq<string>) { forall i :: 0 <= i < |ps| ==> Plain(ps[i]) }

  lemma {:induction false} WalkPlain(pieces: seq<string>, queries: seq<string>)
    requires AllPlain(pieces) && Free(queries, '/')
    ensures AllPlain(Walk(pieces, queries))
    decreases queries
  {
    if queries != [] {
      WalkPlain(Enter(pieces, queries[0]), queries[1..]);
    }
  }

  /** From a directory of plain names, whatever the module name, the result is the root followed by nothing
      or by plain names: no empty, "." or ".." piece is left, and ".." never climbs above the root. */
  lemma ResolvedIsPlain(d: DirectoryName, moduleName: string)
    requires AllPlain(Split(d.queryName, SEPARATOR))
    ensures d.rootName <= Resolve(d, moduleName)
    ensures var rest := Resolve(d, moduleName)[|d.rootName|..]; rest == "" || AllPlain(SplitAll(rest, SEPARATOR))
  {
    var start := if StartsWithRoot(Queries(moduleName)) then [] else Split(d.queryName, SEPARATOR);
    SplitAllFree(moduleName, '/');
    WalkPlain(start, Queries(moduleName));
    var ps := Walk(start, Queries(moduleName));
    assert Resolve(d, moduleName)[|d.rootName|..] == Join(ps, SEPARATOR);
    if ps != [] {
      SplitAllJoin(ps, SEPARATOR);
    }
  }

  lemma {:induction false} WalkPieces(pieces: seq<string>, queries: seq<string>)
    requires Filled(pieces) && Free(pieces, '/') && Free(queries, '/')
    ensures Filled(Walk(pieces, queries)) && Free(Walk(pieces, queries), '/')
    decreases queries
  {
    if queries != [] {
      WalkPieces(Enter(pieces, queries[0]), queries[1..]);
    }
  }

  lemma {:induction false} WalkOwnPieces(pieces: seq<string>, queries: seq<string>)
    requires AllPlain(queries)
    ensures Walk(pieces, queries) == pieces + queries
    decreases queries
  {
    if queries == [] {
      assert pieces + queries == pieces;
    } else {
      WalkOwnPieces(pieces + [queries[0]], queries[1..]);
      assert pieces + [queries[0]] + queries[1..] == pieces + queries;
    }
  }

  /** An absolute path of plain names resolves to itself from anywhere below the same root. */
  lemma AbsoluteIsFixed(d: DirectoryName, ps: seq<string>)
    requires d.rootName == [SEPARATOR] && AllPlain(ps)
    ensures Resolve(d, [SEPARATOR] + Join(ps, SEPARATOR)) == [SEPARATOR] + Join(ps, SEPARATOR)
  {
    var name := Join(ps, SEPARATOR);
    SplitAllAround("", '/', name);
    assert "" + ['/'] + name == [SEPARATOR] + name;
    if ps == [] {
      assert Queries([SEPARATOR] + name) == ["", ""];
      assert ["", ""][1..] == [""];
    } else {
      SplitAllJoin(ps, '/');
      assert Queries([SEPARATOR] + name) == [""] + ps;
      assert ([""] + ps)[1..] == ps;
      WalkOwnPieces([], ps);
      assert [] + ps == ps;
    }
  }

  // ----- relative to a resolved file -----

  /** A root: one separator, at the end. */
  predicate IsRoot(root: string) {
    root != "" && root[|root| - 1] == SEPARATOR && SEPARATOR !in root[..|root| - 1]
  }

  lemma {:induction false} LastIndexAt(s: string, c: char, i: nat)
    requires i < |s| && s[i] == c && c !in s[i + 1..]
    ensures LastIndex(s, c) == i
  {
    if i > 0 {
      assert s[1..][i..] == s[i + 1..];
      LastIndexAt(s[1..], c, i - 1);
    }
  }

  /** The directory of a file whose path is a root and some pieces. */
  lemma ExtractJoined(root: string, ps: seq<string>, f: string)
    requires IsRoot(root) && SEPARATOR !in f
    ensures ExtractDirectoryName(root + Join(ps + [f], SEPARATOR)) == Some(DirectoryName(root, Join(ps, SEPARATOR)))
  {
    var path := root + Join(ps + [f], SEPARATOR);
    var first := |root| - 1;
    assert path[..first] == root[..first];
    FirstIndexAt(path, SEPARATOR, first);
    assert path[..first + 1] == root;
    if ps == [] {
      assert ps + [f] == [f] && path == root + f;
      assert path[first + 1..] == f;
      LastIndexAt(path, SEPARATOR, first);
    } else {
      var query := Join(ps, SEPARATOR);
      JoinSnoc(ps, f, SEPARATOR);
      assert path == root + query + [SEPARATOR] + f;
      var last := |root| + |query|;
      assert path[last + 1..] == f;
      LastIndexAt(path, SEPARATOR, last);
      assert path[first + 1..last] == query;
    }
  }

  /** The two-hop law: a name resolved from the directory of an already resolved
      file is the name put in the file's place. */
  lemma TwoHops(d: DirectoryName, a: string, f: string, b: string)
    requires IsRoot(d.rootName) && Plain(f) && b != "" && b[0] != '/'
    ensures var file := Resolve(d, a + "/" + f);
      ExtractDirectoryName(file).Some? &&
      Resolve(ExtractDirectoryName(file).value, b) == Resolve(d, a + "/" + b)
  {
    var start := if StartsWithRoot(Queries(a)) then [] else Split(d.queryName, SEPARATOR);
    var mid := Walk(start, Queries(a));
    SplitAllAround(a, '/', f);
    SplitAllAround(a, '/', b);
    SplitAllPiece(f, '/');
    WalkAppend(start, Queries(a), [f]);
    WalkAppend(start, Queries(a), Queries(b));
    assert ResolvedPieces(d, a + "/" + f) == mid + [f];
    ExtractJoined(d.rootName, mid, f);
    SplitPieces(d.queryName, SEPARATOR);
    SplitAllFree(a, '/');
    WalkPieces(start, Queries(a));
    SplitJoin(mid, SEPARATOR);
    assert !StartsWithRoot(Queries(b));
  }

  /** Going into a directory and back out, staying put, and doubled separators change nothing. */
  lemma DetoursCancel(d: DirectoryName, a: string, x: string, b: string)
    requires Plain(x)
    ensures Resolve(d, a + "/" + (x + "/" + (".." + "/" + b))) == Resolve(d, a + "/" + b)
    ensures Resolve(d, a + "/" + ("." + "/" + b)) == Resolve(d, a + "/" + b)
    ensures Resolve(d, a + "/" + ("" + "/" + b)) == Resolve(d, a + "/" + b)
  {
    var start := if StartsWithRoot(Queries(a)) then [] else Split(d.queryName, SEPARATOR);
    SplitAllAround(a, '/', b);
    SplitAllAround(a, '/', "." + "/" + b);
    SplitAllAround(a, '/', "" + "/" + b);
    SplitAllAround(a, '/', x + "/" + (".." + "/" + b));
    SplitAllAround(x, '/', ".." + "/" + b);
    SplitAllPiece(x, '/');
    forall p | p == "." || p == ".." || p == "" ensures Queries(p + "/" + b) == [p] + Queries(b) {
      SplitAllPiece(p, '/');
      SplitAllAround(p, '/', b);
    }
    WalkAppend(start, Queries(a), Queries(b));
    WalkAppend(start, Queries(a), ["."] + Queries(b));
    WalkAppend(start, Queries(a), [""] + Queries(b));
    WalkAppend(start, Queries(a), [x] + ([".."] + Queries(b)));
    WalkAppend(Walk(start, Queries(a)), ["."], Queries(b));
    WalkAppend(Walk(start, Queries(a)), [""], Queries(b));
    WalkAppend(Walk(start, Queries(a)), [x], [".."] + Queries(b));
    WalkAppend(Walk(start, Queries(a)) + [x], [".."], Queries(b));
  }
}
