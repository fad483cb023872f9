/** The algebra behind a checksum register: a linear, invertible shift into
    which bits are fed one at a time.  Nothing here knows how wide a register
    is or how its bits are laid out. */
module ShiftRegister {

  datatype Ops<!T(!new)> = Ops(
    zero: T,
    xor: (T, T) -> T,
    shift: T -> T,           // one step with nothing fed in
    unshift: T -> T,
    bit: bool -> T,          // the register holding a single fed bit
    double: T -> T,          // a word moved up by one bit
    push: (T, bool) -> T,    // the same, with a new lowest bit
    low: T -> bool,          // the lowest bit of a word, and the bits above it
    high: T -> T,
    width: nat,
    fits: (T, nat) -> bool)  // does a word use only its n lowest bits?
  {
    ghost predicate Neutral() { forall x :: xor(x, zero) == x }

    ghost predicate CancelsRight() { forall x, w :: xor(xor(x, w), w) == x }

    ghost predicate CancelsLeft() { forall x, w :: xor(x, xor(x, w)) == w }

    ghost predicate Linear() { forall x, y :: shift(xor(x, y)) == xor(shift(x), shift(y)) }

    ghost predicate Reversible() { forall x :: unshift(shift(x)) == x }

    ghost predicate WordsGrow() {
      fits(zero, 0) &&
      forall w, n: nat, b | fits(w, n) && n < width :: fits(push(w, b), n + 1)
    }

    ghost predicate WordsSplit() {
      forall w, n: nat, b | fits(w, n) && n < width :: low(push(w, b)) == b && high(push(w, b)) == w
    }

    ghost predicate WordsHalve() {
      && (forall w :: push(high(w), low(w)) == w)
      && (forall w :: fits(w, 0) ==> w == zero)
      && (forall w, n: nat | fits(w, n) && 0 < n :: fits(high(w), n - 1))
    }

    ghost predicate PushIsXor() {
      forall c, w, b :: xor(c, push(w, b)) == xor(xor(c, bit(b)), double(w))
    }

    ghost predicate ShiftUndoesDouble() {
      forall w, n: nat | fits(w, n) && n < width :: shift(double(w)) == w
    }

    ghost predicate Laws() {
      && Neutral() && CancelsRight() && CancelsLeft() && Linear() && Reversible()
      && WordsGrow() && WordsSplit() && WordsHalve() && PushIsXor() && ShiftUndoesDouble()
    }

    /** Feeds a stream of bits, first bit first. */
    function Feed(c: T, bits: seq<bool>): T
      decreases bits
    {
      if bits == [] then c else Feed(shift(xor(c, bit(bits[0]))), bits[1..])
    }

    function Shifts(c: T, n: nat): T
      decreases n
    {
      if n == 0 then c else Shifts(shift(c), n - 1)
    }

    /** The word whose bit i is bits[i]. */
    function Word(bits: seq<bool>): T {
      if bits == [] then zero else push(Word(bits[1..]), bits[0])
    }

    /** The n lowest bits of a word, lowest first. */
    function LowBits(w: T, n: nat): (bits: seq<bool>)
      ensures |bits| == n
      decreases n
    {
      if n == 0 then [] else [low(w)] + LowBits(high(w), n - 1)
    }
  }

  lemma {:induction false} FeedAppend<T(!new)>(r: Ops<T>, c: T, u: seq<bool>, v: seq<bool>)
    ensures r.Feed(c, u + v) == r.Feed(r.Feed(c, u), v)
    decreases u
  {
    if u == [] {
      assert u + v == v;
    } else {
      assert (u + v)[1..] == u[1..] + v;
      FeedAppend(r, r.shift(r.xor(c, r.bit(u[0]))), u[1..], v);
    }
  }

  /** Whatever is fed, different registers stay different. */
  lemma {:induction false} FeedInjectiveInRegister<T(!new)>(r: Ops<T>, c: T, d: T, bits: seq<bool>)
    requires r.CancelsRight() && r.Reversible()
    requires r.Feed(c, bits) == r.Feed(d, bits)
    ensures c == d
    decreases bits
  {
    if bits != [] {
      var w := r.bit(bits[0]);
      FeedInjectiveInRegister(r, r.shift(r.xor(c, w)), r.shift(r.xor(d, w)), bits[1..]);
      assert r.unshift(r.shift(r.xor(c, w))) == r.unshift(r.shift(r.xor(d, w)));
      assert r.xor(r.xor(c, w), w) == r.xor(r.xor(d, w), w);
    }
  }

  lemma {:induction false} ShiftsLinear<T(!new)>(r: Ops<T>, x: T, y: T, n: nat)
    requires r.Linear()
    ensures r.Shifts(r.xor(x, y), n) == r.xor(r.Shifts(x, n), r.Shifts(y, n))
    decreases n
  {
    if n != 0 {
      ShiftsLinear(r, r.shift(x), r.shift(y), n - 1);
    }
  }

  lemma {:induction false} ShiftsInjective<T(!new)>(r: Ops<T>, x: T, y: T, n: nat)
    requires r.Reversible()
    requires r.Shifts(x, n) == r.Shifts(y, n)
    ensures x == y
    decreases n
  {
    if n != 0 {
      ShiftsInjective(r, r.shift(x), r.shift(y), n - 1);
      assert r.unshift(r.shift(x)) == r.unshift(r.shift(y));
    }
  }

  lemma {:induction false} WordFits<T(!new)>(r: Ops<T>, bits: seq<bool>)
    requires r.WordsGrow() && |bits| <= r.width
    ensures r.fits(r.Word(bits), |bits|)
  {
    if bits != [] {
      WordFits(r, bits[1..]);
      var rest, n, b: bool := r.Word(bits[1..]), |bits| - 1, bits[0];
      assert r.fits(rest, n) && r.fits(r.push(rest, b), n + 1);
    }
  }

  /** Feeding at most a register's width of bits is one exclusive-or followed by plain shifts. */
  lemma {:induction false} FeedIsXorThenShifts<T(!new)>(r: Ops<T>, c: T, bits: seq<bool>)
    requires r.Neutral() && r.WordsGrow() && r.Linear() && r.PushIsXor() && r.ShiftUndoesDouble()
    requires |bits| <= r.width
    ensures r.Feed(c, bits) == r.Shifts(r.xor(c, r.Word(bits)), |bits|)
    decreases bits
  {
    if bits != [] {
      var rest, n, b: bool := r.Word(bits[1..]), |bits| - 1, bits[0];
      FeedIsXorThenShifts(r, r.shift(r.xor(c, r.bit(b))), bits[1..]);
      WordFits(r, bits[1..]);
      assert r.fits(rest, n);
      assert r.xor(c, r.push(rest, b)) == r.xor(r.xor(c, r.bit(b)), r.double(rest));
    }
  }

  lemma {:induction false} WordInjective<T(!new)>(r: Ops<T>, u: seq<bool>, v: seq<bool>)
    requires r.WordsGrow() && r.WordsSplit() && |u| == |v| <= r.width
    requires r.Word(u) == r.Word(v)
    ensures u == v
  {
    if u != [] {
      WordFits(r, u[1..]);
      WordFits(r, v[1..]);
      var n, a, b := |u| - 1, u[0], v[0];
      assert r.fits(r.Word(u[1..]), n) && r.fits(r.Word(v[1..]), n);
      assert r.Word(u) == r.push(r.Word(u[1..]), a) && r.Word(v) == r.push(r.Word(v[1..]), b);
      WordInjective(r, u[1..], v[1..]);
      assert u == [u[0]] + u[1..] && v == [v[0]] + v[1..];
    }
  }

  lemma {:induction false} WordOfLowBits<T(!new)>(r: Ops<T>, w: T, n: nat)
    requires r.WordsHalve() && r.fits(w, n)
    ensures r.Word(r.LowBits(w, n)) == w
    decreases n
  {
    if n != 0 {
      WordOfLowBits(r, r.high(w), n - 1);
      assert r.LowBits(w, n)[1..] == r.LowBits(r.high(w), n - 1);
    }
  }

  /** A word that splits into two parts passes through the register part by part. */
  lemma FeedInParts<T(!new)>(r: Ops<T>, c: T, bits: seq<bool>, part: T, rest: T)
    requires r.Laws() && |bits| <= r.width
    requires r.xor(c, r.Word(bits)) == r.xor(part, rest)
    ensures r.Feed(c, bits) == r.xor(r.Shifts(part, |bits|), r.Shifts(rest, |bits|))
  {
    FeedIsXorThenShifts(r, c, bits);
    ShiftsLinear(r, part, rest, |bits|);
  }

  /** A register fed its own contents is left as if it had been empty. */
  lemma FeedOwnContents<T(!new)>(r: Ops<T>, c: T)
    requires r.Laws() && r.fits(c, r.width)
    ensures r.Feed(c, r.LowBits(c, r.width)) == r.Shifts(r.zero, r.width)
  {
    FeedIsXorThenShifts(r, c, r.LowBits(c, r.width));
    WordOfLowBits(r, c, r.width);
    assert r.xor(c, r.xor(c, r.zero)) == r.zero;
  }

  /** At most a register's width of bits can be recovered from where they led. */
  lemma FeedInjectiveInBits<T(!new)>(r: Ops<T>, c: T, u: seq<bool>, v: seq<bool>)
    requires r.Laws() && |u| == |v| <= r.width
    requires r.Feed(c, u) == r.Feed(c, v)
    ensures u == v
  {
    FeedIsXorThenShifts(r, c, u);
    FeedIsXorThenShifts(r, c, v);
    ShiftsInjective(r, r.xor(c, r.Word(u)), r.xor(c, r.Word(v)), |u|);
    assert r.xor(c, r.xor(c, r.Word(u))) == r.xor(c, r.xor(c, r.Word(v)));
    WordInjective(r, u, v);
  }

  /** x and y agree everywhere except possibly on positions lo .. hi - 1. */
  ghost predicate AgreeOutside<T>(x: seq<T>, y: seq<T>, lo: nat, hi: nat) {
    |x| == |y| && forall i :: 0 <= i < |x| && !(lo <= i < hi) ==> x[i] == y[i]
  }

  lemma BurstPartsShow<T(!new)>(r: Ops<T>, c: T, p: seq<bool>, u: seq<bool>, v: seq<bool>, q: seq<bool>)
    requires r.Laws() && |u| == |v| <= r.width
    requires r.Feed(c, p + u + q) == r.Feed(c, p + v + q)
    ensures u == v
  {
    FeedAppend(r, c, p + u, q);
    FeedAppend(r, c, p + v, q);
    FeedAppend(r, c, p, u);
    FeedAppend(r, c, p, v);
    FeedInjectiveInRegister(r, r.Feed(c, p + u), r.Feed(c, p + v), q);
    FeedInjectiveInBits(r, r.Feed(c, p), u, v);
  }

  lemma SplitAround<T>(x: seq<T>, y: seq<T>, lo: nat, width: nat)
      returns (p: seq<T>, u: seq<T>, v: seq<T>, q: seq<T>)
    requires AgreeOutside(x, y, lo, lo + width)
    ensures x == p + u + q && y == p + v + q && |u| == |v| <= width
  {
    var a := if lo <= |x| then lo else |x|;
    var z := if lo + width <= |x| then lo + width else |x|;
    p, u, v, q := x[..a], x[a..z], y[a..z], x[z..];
    assert p == y[..a] && q == y[z..];
  }

  /** Every difference confined to a register's width of consecutive bits shows. */
  lemma BurstsShow<T(!new)>(r: Ops<T>, c: T, x: seq<bool>, y: seq<bool>, lo: nat)
    requires r.Laws() && AgreeOutside(x, y, lo, lo + r.width)
    requires r.Feed(c, x) == r.Feed(c, y)
    ensures x == y
  {
    var p, u, v, q := SplitAround(x, y, lo, r.width);
    BurstPartsShow(r, c, p, u, v, q);
  }
}
