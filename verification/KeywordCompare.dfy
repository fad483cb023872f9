/** The COMPARE macros printed ahead of the keyword matcher, over bytes in memory:
    packed loads, split loads and overlapping loads against plain comparison. */
module KeywordCompare {
  import opened KeywordTrie
  import opened KeywordCode

  type Byte = n: nat | n < 256

  /** The build configuration, as far as the macros look at it. */
  datatype Target = Target(needsAlignedAccess: bool, bigEndian: bool, x86_64: bool) {
    predicate Valid() { x86_64 ==> !bigEndian }
  }

  /** The n-byte integer stored at address a. */
  function Load(mem: seq<Byte>, a: nat, n: nat, big: bool): nat
    requires a + n <= |mem|
    decreases n
  {
    if n == 0 then 0
    else if big then Load(mem, a, n - 1, big) * 256 + mem[a + n - 1]
    else mem[a] + 256 * Load(mem, a + 1, n - 1, big)
  }

  /** How many values a code unit of w bytes can take. */
  function Values(w: nat): nat { if w == 1 then 256 else 65536 }

  /** A view of memory as code units of one or two bytes, starting at code. */
  datatype Machine = Machine(target: Target, w: nat, mem: seq<Byte>) {
    predicate Valid() { target.Valid() && (w == 1 || w == 2) }

    /** The byte address of code + i. */
    function Address(i: nat): nat { if w == 1 then i else 2 * i }

    /** Is code + i, for k units, inside memory? */
    predicate Holds(i: nat, k: nat) { Address(i + k) <= |mem| && (w == 1 || w == 2) }

    function At(i: nat): nat
      requires Holds(i, 1)
    {
      Load(mem, Address(i), w, target.bigEndian)
    }

    /** CHARPAIR_TOUINT16 and UCHARPAIR_TOUINT32. */
    function Pair(a: nat, b: nat): nat {
      if target.bigEndian then a * Values(w) + b else b * Values(w) + a
    }

    /** CHARQUAD_TOUINT32 and UCHARQUAD_TOUINT64, which are only used little-endian. */
    function Quad(a: nat, b: nat, c: nat, d: nat): nat {
      Pair(c, d) * (Values(w) * Values(w)) + Pair(a, b)
    }

    predicate Compare2(i: nat, a: nat, b: nat)
      requires Holds(i, 2)
    {
      if target.needsAlignedAccess then At(i) == a && At(i + 1) == b
      else Load(mem, Address(i), 2 * w, target.bigEndian) == Pair(a, b)
    }

    predicate Compare4(i: nat, a: nat, b: nat, c: nat, d: nat)
      requires Holds(i, 4)
    {
      if target.needsAlignedAccess || !target.x86_64 then Compare2(i, a, b) && Compare2(i + 2, c, d)
      else Load(mem, Address(i), 4 * w, target.bigEndian) == Quad(a, b, c, d)
    }

    function Expansion(): Primitives {
      Primitives(
        (i: nat, a: nat) => Holds(i, 1) && At(i) == a,
        (i: nat, a: nat, b: nat) => Holds(i, 2) && Compare2(i, a, b),
        (i: nat, a: nat, b: nat, c: nat, d: nat) => Holds(i, 4) && Compare4(i, a, b, c, d))
    }

    /** The comparison the generator prints for a test. */
    predicate Compare(test: Test) { Expansion().Compare(test) }
  }

  /** Comparisons of one, two and four characters at a position. */
  datatype Primitives = Primitives(
    one: (nat, nat) -> bool,
    two: (nat, nat, nat) -> bool,
    four: (nat, nat, nat, nat, nat) -> bool)
  {
    predicate Part(i: nat, s: Text) {
      match |s|
      case 0 => true
      case 1 => one(i, s[0])
      case 2 => two(i, s[0], s[1])
      case 4 => four(i, s[0], s[1], s[2], s[3])
      case _ => false
    }

    /** COMPARE_k compares the leading characters and then the remaining ones;
        for seven characters the two overlap in one.  There is no macro for more than eight. */
    predicate Compare(test: Test) {
      var i, s, k := test.base, test.chars, |test.chars|;
      && 1 <= k <= 8
      && Part(i, s[..Leading(k)])
      && Part(i + k - Trailing(k), s[k - Trailing(k)..])
    }
  }

  function Leading(k: nat): (n: nat)
    requires 1 <= k <= 8
    ensures n <= k
  {
    if k == 1 then 1 else if k <= 3 then 2 else 4
  }

  function Trailing(k: nat): (n: nat)
    requires 1 <= k <= 8
    ensures n <= k <= Leading(k) + n
  {
    match k
    case 3 => 1
    case 5 => 1
    case 6 => 2
    case 7 => 4
    case 8 => 4
    case _ => 0
  }

  /** The code units that memory holds from code on. */
  ghost predicate Encodes(m: Machine, buffer: Text) {
    m.Address(|buffer|) <= |m.mem| && forall i :: 0 <= i < |buffer| ==> m.Holds(i, 1) && m.At(i) == buffer[i]
  }

  lemma {:induction false} LoadBound1(mem: seq<Byte>, a: nat, big: bool)
    requires a + 1 <= |mem|
    ensures Load(mem, a, 1, big) == mem[a]
  {
    assert Load(mem, a, 0, big) == 0 && Load(mem, a + 1, 0, big) == 0;
  }

  lemma LoadTwo(mem: seq<Byte>, a: nat, big: bool)
    requires a + 2 <= |mem|
    ensures Load(mem, a, 2, big) ==
      (if big then (mem[a] as int) * 256 + mem[a + 1] else mem[a] + 256 * (mem[a + 1] as int))
  {
    LoadBound1(mem, a, big);
    LoadBound1(mem, a + 1, big);
  }

  /** A load splits at any byte; the parts weigh according to byte order. */
  lemma LoadFour(mem: seq<Byte>, a: nat, big: bool)
    requires a + 4 <= |mem|
    ensures Load(mem, a, 4, big) ==
      if big then Load(mem, a, 2, big) * 65536 + Load(mem, a + 2, 2, big)
      else Load(mem, a, 2, big) + 65536 * Load(mem, a + 2, 2, big)
  {
    LoadTwo(mem, a, big);
    LoadTwo(mem, a + 2, big);
    LoadTwo(mem, a + 1, big);
    if big {
      assert Load(mem, a, 3, big) == Load(mem, a, 2, big) * 256 + mem[a + 2];
    } else {
      assert Load(mem, a + 1, 3, big) == mem[a + 1] + 256 * Load(mem, a + 2, 2, big);
    }
  }

  lemma LoadEight(mem: seq<Byte>, a: nat)
    requires a + 8 <= |mem|
    ensures Load(mem, a, 8, false) == Load(mem, a, 4, false) + 4294967296 * Load(mem, a + 4, 4, false)
  {
    var r := Load(mem, a + 4, 4, false);
    assert Load(mem, a + 3, 5, false) == mem[a + 3] + 256 * r;
    assert Load(mem, a + 2, 6, false) == mem[a + 2] + 256 * Load(mem, a + 3, 5, false);
    assert Load(mem, a + 1, 7, false) == mem[a + 1] + 256 * Load(mem, a + 2, 6, false);
    LoadFour(mem, a, false);
    LoadTwo(mem, a, false);
    LoadTwo(mem, a + 2, false);
  }

  lemma AtBound(m: Machine, i: nat)
    requires m.Valid() && m.Holds(i, 1)
    ensures m.At(i) < Values(m.w)
  {
    if m.w == 1 {
      LoadBound1(m.mem, m.Address(i), m.target.bigEndian);
    } else {
      LoadTwo(m.mem, m.Address(i), m.target.bigEndian);
    }
  }

  lemma PairLoad(m: Machine, i: nat)
    requires m.Valid() && m.Holds(i, 2)
    ensures Load(m.mem, m.Address(i), 2 * m.w, m.target.bigEndian) == m.Pair(m.At(i), m.At(i + 1))
  {
    if m.w == 1 {
      LoadTwo(m.mem, i, m.target.bigEndian);
      LoadBound1(m.mem, i, m.target.bigEndian);
      LoadBound1(m.mem, i + 1, m.target.bigEndian);
    } else {
      LoadFour(m.mem, 2 * i, m.target.bigEndian);
    }
  }

  lemma QuadLoad(m: Machine, i: nat)
    requires m.Valid() && !m.target.bigEndian && m.Holds(i, 4)
    ensures Load(m.mem, m.Address(i), 4 * m.w, false) == m.Quad(m.At(i), m.At(i + 1), m.At(i + 2), m.At(i + 3))
  {
    PairLoad(m, i);
    PairLoad(m, i + 2);
    if m.w == 1 {
      LoadFour(m.mem, i, false);
    } else {
      LoadEight(m.mem, 2 * i);
    }
  }

  lemma DigitsUnique(base: nat, a: nat, b: nat, c: nat, d: nat)
    requires base == 256 || base == 65536 || base == 4294967296
    requires a < base && c < base
    ensures b * base + a == d * base + c <==> a == c && b == d
  {
    if base == 256 {
      assert b * 256 + a == d * 256 + c <==> a == c && b == d;
    } else if base == 65536 {
      assert b * 65536 + a == d * 65536 + c <==> a == c && b == d;
    } else {
      assert b * 4294967296 + a == d * 4294967296 + c <==> a == c && b == d;
    }
  }

  lemma PairBound(m: Machine, a: nat, b: nat)
    requires m.Valid() && a < Values(m.w) && b < Values(m.w)
    ensures m.Pair(a, b) < Values(m.w) * Values(m.w)
  {
  }

  lemma Compare2Means(m: Machine, i: nat, a: nat, b: nat)
    requires m.Valid() && m.Holds(i, 2) && a < Values(m.w) && b < Values(m.w)
    ensures m.Compare2(i, a, b) <==> m.At(i) == a && m.At(i + 1) == b
  {
    PairLoad(m, i);
    AtBound(m, i);
    AtBound(m, i + 1);
    DigitsUnique(Values(m.w), m.At(i), m.At(i + 1), a, b);
    DigitsUnique(Values(m.w), m.At(i + 1), m.At(i), b, a);
  }

  lemma Compare4Means(m: Machine, i: nat, a: nat, b: nat, c: nat, d: nat)
    requires m.Valid() && m.Holds(i, 4)
    requires a < Values(m.w) && b < Values(m.w) && c < Values(m.w) && d < Values(m.w)
    ensures m.Compare4(i, a, b, c, d) <==>
      m.At(i) == a && m.At(i + 1) == b && m.At(i + 2) == c && m.At(i + 3) == d
  {
    Compare2Means(m, i, a, b);
    Compare2Means(m, i + 2, c, d);
    if m.target.x86_64 {
      QuadLoad(m, i);
      QuadMeans(m, m.At(i), m.At(i + 1), m.At(i + 2), m.At(i + 3), a, b, c, d) by {
        AtBound(m, i);
        AtBound(m, i + 1);
        AtBound(m, i + 2);
        AtBound(m, i + 3);
      }
    }
  }

  lemma QuadMeans(m: Machine, p: nat, q: nat, r: nat, s: nat, a: nat, b: nat, c: nat, d: nat)
    requires m.Valid() && !m.target.bigEndian
    requires p < Values(m.w) && q < Values(m.w) && r < Values(m.w) && s < Values(m.w)
    requires a < Values(m.w) && b < Values(m.w) && c < Values(m.w) && d < Values(m.w)
    ensures m.Quad(p, q, r, s) == m.Quad(a, b, c, d) <==> p == a && q == b && r == c && s == d
  {
    PairBound(m, p, q);
    PairBound(m, a, b);
    DigitsUnique(Values(m.w) * Values(m.w), m.Pair(p, q), m.Pair(r, s), m.Pair(a, b), m.Pair(c, d));
    DigitsUnique(Values(m.w), p, q, a, b);
    DigitsUnique(Values(m.w), r, s, c, d);
  }

  /** A C character literal stands for the same value at both widths only below 128. */
  ghost predicate Literals(s: Text) {
    forall i :: 0 <= i < |s| ==> s[i] < 128
  }

  lemma MatchesEach(buffer: Text, i: nat, s: Text)
    requires i + |s| <= |buffer|
    ensures Matches(buffer, Test(i, s)) <==> forall j :: 0 <= j < |s| ==> buffer[i + j] == s[j]
  {
    var seen := buffer[i..i + |s|];
    assert forall j :: 0 <= j < |s| ==> seen[j] == buffer[i + j];
  }

  /** The primitives compare what is in the buffer. */
  ghost predicate Faithful(p: Primitives, buffer: Text) {
    && (forall i: nat, a: nat :: i + 1 <= |buffer| && a < 128 ==> (p.one(i, a) <==> buffer[i] == a))
    && (forall i: nat, a: nat, b: nat :: i + 2 <= |buffer| && a < 128 && b < 128 ==>
          (p.two(i, a, b) <==> buffer[i] == a && buffer[i + 1] == b))
    && (forall i: nat, a: nat, b: nat, c: nat, d: nat ::
          i + 4 <= |buffer| && a < 128 && b < 128 && c < 128 && d < 128 ==>
          (p.four(i, a, b, c, d) <==> buffer[i] == a && buffer[i + 1] == b && buffer[i + 2] == c && buffer[i + 3] == d))
  }

  lemma PartMeans(p: Primitives, buffer: Text, i: nat, s: Text)
    requires Faithful(p, buffer) && Literals(s) && i + |s| <= |buffer|
    requires |s| == 0 || |s| == 1 || |s| == 2 || |s| == 4
    ensures p.Part(i, s) <==> Matches(buffer, Test(i, s))
  {
    MatchesEach(buffer, i, s);
    if |s| == 2 {
      var a, b := s[0], s[1];
      assert p.two(i, a, b) <==> buffer[i] == a && buffer[i + 1] == b;
    } else if |s| == 4 {
      var a, b, c, d := s[0], s[1], s[2], s[3];
      assert p.four(i, a, b, c, d) <==>
        buffer[i] == a && buffer[i + 1] == b && buffer[i + 2] == c && buffer[i + 3] == d;
    }
  }

  lemma MatchesInParts(buffer: Text, i: nat, s: Text, n: nat, p: nat)
    requires i + |s| <= |buffer| && p <= n <= |s|
    ensures Matches(buffer, Test(i, s)) <==>
      Matches(buffer, Test(i, s[..n])) && Matches(buffer, Test(i + p, s[p..]))
  {
    MatchesEach(buffer, i, s);
    MatchesEach(buffer, i, s[..n]);
    MatchesEach(buffer, i + p, s[p..]);
    assert forall j :: 0 <= j < |s| && p <= j ==> s[j] == s[p..][j - p] && buffer[i + j] == buffer[i + p + (j - p)];
  }

  lemma FaithfulCompare(p: Primitives, buffer: Text, test: Test)
    requires Faithful(p, buffer) && Literals(test.chars)
    requires 1 <= |test.chars| <= 8 && test.base + |test.chars| <= |buffer|
    ensures p.Compare(test) <==> Matches(buffer, test)
  {
    var i, s, k := test.base, test.chars, |test.chars|;
    PartMeans(p, buffer, i, s[..Leading(k)]);
    PartMeans(p, buffer, i + k - Trailing(k), s[k - Trailing(k)..]);
    MatchesInParts(buffer, i, s, Leading(k), k - Trailing(k));
  }

  lemma MachineFaithful(m: Machine, buffer: Text)
    requires m.Valid() && Encodes(m, buffer)
    ensures Faithful(m.Expansion(), buffer)
  {
    forall i: nat, a: nat, b: nat | i + 2 <= |buffer| && a < 128 && b < 128
      ensures m.Expansion().two(i, a, b) <==> buffer[i] == a && buffer[i + 1] == b
    {
      Compare2Means(m, i, a, b);
    }
    forall i: nat, a: nat, b: nat, c: nat, d: nat
      | i + 4 <= |buffer| && a < 128 && b < 128 && c < 128 && d < 128
      ensures m.Expansion().four(i, a, b, c, d) <==>
        buffer[i] == a && buffer[i + 1] == b && buffer[i + 2] == c && buffer[i + 3] == d
    {
      Compare4Means(m, i, a, b, c, d);
    }
  }

  /** Every COMPARE macro, packed, split or overlapping, is comparison character by character. */
  lemma CompareMeans(m: Machine, buffer: Text, test: Test)
    requires m.Valid() && Encodes(m, buffer) && Literals(test.chars)
    requires 1 <= |test.chars| <= 8 && test.base + |test.chars| <= |buffer|
    ensures m.Compare(test) <==> Matches(buffer, test)
  {
    MachineFaithful(m, buffer);
    FaithfulCompare(m.Expansion(), buffer, test);
  }
}
