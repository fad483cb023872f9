/** Strings cut at a separator, and put back together. */
module Splitting {

  /** The pieces between separators, empty ones included. */
  function SplitAll(s: string, c: char): (ps: seq<string>)
    ensures ps != []
  {
    if s == "" then [""]
    else
      var ps := SplitAll(s[1..], c);
      if s[0] == c then [""] + ps else Prefixed(s[0], ps)
  }

  /** A character put before the first piece. */
  function Prefixed(a: char, ps: seq<string>): (qs: seq<string>)
    requires ps != []
    ensures qs != []
  {
    [[a] + ps[0]] + ps[1..]
  }

  function NonEmpty(ps: seq<string>): seq<string> {
    if ps == [] then [] else (if ps[0] == "" then [] else [ps[0]]) + NonEmpty(ps[1..])
  }

  /** The pieces between separators, empty ones left out. */
  function Split(s: string, c: char): seq<string> { NonEmpty(SplitAll(s, c)) }

  function Join(ps: seq<string>, c: char): string {
    if ps == [] then "" else if |ps| == 1 then ps[0] else ps[0] + [c] + Join(ps[1..], c)
  }

  ghost predicate Free(ps: seq<string>, c: char) {
    forall i :: 0 <= i < |ps| ==> c !in ps[i]
  }

  ghost predicate Filled(ps: seq<string>) {
    forall i :: 0 <= i < |ps| ==> ps[i] != ""
  }

  lemma {:induction false} SplitAllFree(s: string, c: char)
    ensures Free(SplitAll(s, c), c)
  {
    if s != "" {
      SplitAllFree(s[1..], c);
    }
  }

  lemma {:induction false} SplitAllPiece(p: string, c: char)
    requires c !in p
    ensures SplitAll(p, c) == [p]
  {
    if p != "" {
      SplitAllPiece(p[1..], c);
      assert p == [p[0]] + p[1..];
    }
  }

  lemma SplitAllStep(a: char, s: string, c: char)
    ensures SplitAll([a] + s, c) == if a == c then [""] + SplitAll(s, c) else Prefixed(a, SplitAll(s, c))
  {
    assert ([a] + s)[1..] == s;
  }

  lemma StepAppend(a: char, ps: seq<string>, qs: seq<string>)
    requires ps != []
    ensures [""] + (ps + qs) == [""] + ps + qs
    ensures Prefixed(a, ps + qs) == Prefixed(a, ps) + qs
  {
    assert (ps + qs)[1..] == ps[1..] + qs;
  }

  /** Splitting works on the two sides of a separator independently. */
  lemma {:induction false} SplitAllAround(a: string, c: char, b: string)
    ensures SplitAll(a + [c] + b, c) == SplitAll(a, c) + SplitAll(b, c)
  {
    if a == "" {
      assert a + [c] + b == [c] + b;
      SplitAllStep(c, b, c);
    } else {
      var ps, qs := SplitAll(a[1..], c), SplitAll(b, c);
      assert SplitAll(a[1..] + [c] + b, c) == ps + qs by {
        SplitAllAround(a[1..], c, b);
      }
      assert a + [c] + b == [a[0]] + (a[1..] + [c] + b);
      SplitAllStep(a[0], a[1..] + [c] + b, c);
      StepAppend(a[0], ps, qs);
    }
  }

  /** Splitting undoes joining. */
  lemma {:induction false} SplitAllJoin(ps: seq<string>, c: char)
    requires ps != [] && Free(ps, c)
    ensures SplitAll(Join(ps, c), c) == ps
  {
    SplitAllPiece(ps[0], c);
    if |ps| > 1 {
      SplitAllJoin(ps[1..], c);
      SplitAllAround(ps[0], c, Join(ps[1..], c));
      assert ps == [ps[0]] + ps[1..];
    }
  }

  lemma {:induction false} NonEmptySame(ps: seq<string>)
    requires Filled(ps)
    ensures NonEmpty(ps) == ps
  {
    if ps != [] {
      NonEmptySame(ps[1..]);
    }
  }

  lemma {:induction false} NonEmptyPieces(ps: seq<string>, c: char)
    ensures Filled(NonEmpty(ps)) && (Free(ps, c) ==> Free(NonEmpty(ps), c))
  {
    if ps != [] {
      NonEmptyPieces(ps[1..], c);
      assert Free(ps, c) ==> Free(ps[1..], c);
    }
  }

  lemma SplitPieces(s: string, c: char)
    ensures Filled(Split(s, c)) && Free(Split(s, c), c)
  {
    SplitAllFree(s, c);
    NonEmptyPieces(SplitAll(s, c), c);
  }

  lemma SplitJoin(ps: seq<string>, c: char)
    requires Filled(ps) && Free(ps, c)
    ensures Split(Join(ps, c), c) == ps
  {
    if ps == [] {
      assert NonEmpty([""]) == NonEmpty([]);
    } else {
      SplitAllJoin(ps, c);
      NonEmptySame(ps);
    }
  }

  lemma {:induction false} JoinSnoc(ps: seq<string>, p: string, c: char)
    requires ps != []
    ensures Join(ps + [p], c) == Join(ps, c) + [c] + p
  {
    if |ps| == 1 {
      assert (ps + [p])[1..] == [p];
    } else {
      assert (ps + [p])[1..] == ps[1..] + [p];
      JoinSnoc(ps[1..], p, c);
      assert ps[0] + [c] + (Join(ps[1..], c) + [c] + p) == ps[0] + [c] + Join(ps[1..], c) + [c] + p;
    }
  }

  /** The first position of a character, or the length if there is none. */
  function FirstIndex(s: string, c: char): (i: nat)
    ensures i <= |s| && (i < |s| ==> s[i] == c) && forall j :: 0 <= j < i ==> s[j] != c
  {
    if s == "" || s[0] == c then 0 else FirstIndex(s[1..], c) + 1
  }

  lemma {:induction false} FirstIndexAt(s: string, c: char, i: nat)
    requires i < |s| && s[i] == c && c !in s[..i]
    ensures FirstIndex(s, c) == i
  {
    if i > 0 {
      assert s[..i][0] == s[0] && s[..i][1..] == s[1..][..i - 1];
      FirstIndexAt(s[1..], c, i - 1);
    }
  }

  /** Splitting starts by cutting at the first separator. */
  lemma SplitAtFirst(s: string, c: char)
    ensures var i := FirstIndex(s, c);
      SplitAll(s, c) == if i == |s| then [s] else [s[..i]] + SplitAll(s[i + 1..], c)
  {
    var i := FirstIndex(s, c);
    SplitAllPiece(s[..i], c);
    if i == |s| {
      assert s[..i] == s;
    } else {
      assert s == s[..i] + [c] + s[i + 1..];
      SplitAllAround(s[..i], c, s[i + 1..]);
    }
  }
}
