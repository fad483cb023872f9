/** The CRC-32 that identifies pixel dumps: a 256-entry table, filled once and
    then folded over the buffer, against the bit-at-a-time definition of the
    reflected CRC-32 (section 8 of RFC 1952). */
module Crc {
  import opened ShiftRegister

  /** The reflected generator polynomial; as a signed 32-bit number it is -306674912. */
  const POLY: bv32 := 0xEDB88320
  const ALL_ONES: bv32 := 0xFFFF_FFFF

  // ----- the bit-serial definition -----

  function Xor(x: bv32, y: bv32): bv32 { x ^ y }

  function Shift(c: bv32): bv32 { if c & 1 == 1 then (c >> 1) ^ POLY else c >> 1 }

  function Unshift(c: bv32): bv32 {
    if c & 0x8000_0000 == 0x8000_0000 then ((c ^ POLY) << 1) | 1 else c << 1
  }

  function Bit(b: bool): bv32 { if b then 1 else 0 }

  function Double(w: bv32): bv32 { w << 1 }

  function Push(w: bv32, b: bool): bv32 { (w << 1) | (if b then 1 else 0) }

  predicate Low(w: bv32) { w & 1 == 1 }

  function High(w: bv32): bv32 { w >> 1 }

  function Halved(w: bv32, n: nat): bv32
    decreases n
  {
    if n == 0 then w else Halved(High(w), n - 1)
  }

  predicate Fits(w: bv32, n: nat) { Halved(w, n) == 0 }

  const REGISTER: Ops<bv32> := Ops(0, Xor, Shift, Unshift, Bit, Double, Push, Low, High, 32, Fits)

  function BitsOfByte(b: bv8): seq<bool> { REGISTER.LowBits(b as bv32, 8) }

  function BitsOf(buffer: seq<bv8>): (bits: seq<bool>)
    ensures |bits| == 8 * |buffer|
  {
    if buffer == [] then [] else BitsOfByte(buffer[0]) + BitsOf(buffer[1..])
  }

  /** The CRC-32 of a bit stream: the register starts complemented and ends complemented. */
  function BitSerialCrc(bits: seq<bool>): bv32 {
    Xor(REGISTER.Feed(ALL_ONES, bits), ALL_ONES)
  }

  // ----- the 32-bit register obeys the laws -----

  lemma XorHalves(x: bv32, y: bv32)
    ensures (x ^ y) >> 1 == (x >> 1) ^ (y >> 1)
    ensures ((x ^ y) & 1 == 1) == ((x & 1 == 1) != (y & 1 == 1))
  {
  }

  lemma XorRegroup(a: bv32, b: bv32, p: bv32)
    ensures (a ^ p) ^ b == (a ^ b) ^ p
    ensures a ^ (b ^ p) == (a ^ b) ^ p
    ensures (a ^ p) ^ (b ^ p) == a ^ b
  {
  }

  lemma ShiftLinear(x: bv32, y: bv32)
    ensures Shift(x ^ y) == Shift(x) ^ Shift(y)
  {
    XorHalves(x, y);
    XorRegroup(x >> 1, y >> 1, POLY);
  }

  lemma XorLaws()
    ensures REGISTER.Neutral() && REGISTER.CancelsRight() && REGISTER.CancelsLeft()
  {
  }

  lemma Linear()
    ensures REGISTER.Linear()
  {
    forall x, y ensures Shift(Xor(x, y)) == Xor(Shift(x), Shift(y)) {
      ShiftLinear(x, y);
    }
  }

  /** The generator's top coefficient makes every shift reversible. */
  lemma Reversible()
    ensures REGISTER.Reversible()
  {
  }

  lemma {:induction false} HalvedInTwo(x: bv32, m: nat, n: nat)
    ensures Halved(x, m + n) == Halved(Halved(x, m), n)
    decreases m
  {
    if m != 0 {
      HalvedInTwo(High(x), m - 1, n);
    }
  }

  lemma ShiftedTwo(x: bv32)
    ensures (x >> 1) >> 1 == x >> 2
  {
  }

  lemma ShiftedFour(x: bv32)
    ensures (x >> 2) >> 2 == x >> 4
  {
  }

  lemma ShiftedEight(x: bv32)
    ensures (x >> 4) >> 4 == x >> 8
  {
  }

  lemma RightShiftsFar(x: bv32)
    ensures (x >> 8) >> 8 == x >> 16
    ensures (x >> 16) >> 16 == 0
  {
  }

  /** Halving in two goes, of a number of times not looked into. */
  lemma HalvedTwice(x: bv32, n: nat, y: bv32, z: bv32)
    requires Halved(x, n) == y && Halved(y, n) == z
    ensures Halved(x, n + n) == z
  {
    HalvedInTwo(x, n, n);
  }

  lemma HalvedTwo(x: bv32)
    ensures Halved(x, 2) == x >> 2
  {
    ShiftedTwo(x);
  }

  lemma HalvedFour(x: bv32)
    ensures Halved(x, 4) == x >> 4
  {
    var y := x >> 2;
    HalvedTwo(x);
    HalvedTwo(y);
    ShiftedFour(x);
    HalvedTwice(x, 2, y, x >> 4);
  }

  lemma HalvedEight(x: bv32)
    ensures Halved(x, 8) == x >> 8
  {
    var y := x >> 4;
    HalvedFour(x);
    HalvedFour(y);
    ShiftedEight(x);
    HalvedTwice(x, 4, y, x >> 8);
  }

  lemma HalvedSixteen(x: bv32)
    ensures Halved(x, 16) == x >> 16
  {
    var y := x >> 8;
    HalvedEight(x);
    HalvedEight(y);
    RightShiftsFar(x);
    HalvedTwice(x, 8, y, x >> 16);
  }

  lemma FitsAll(x: bv32)
    ensures Fits(x, 32)
  {
    var y := x >> 16;
    HalvedInTwo(x, 16, 16);
    HalvedSixteen(x);
    HalvedSixteen(y);
    RightShiftsFar(x);
  }

  lemma ProbeStep(w: bv32, probe: bv32)
    requires w & probe == probe
    ensures High(w) & High(probe) == High(probe)
  {
  }

  /** A set bit that stays within the word keeps the word from becoming zero. */
  lemma {:induction false} ProbeSurvives(w: bv32, probe: bv32, n: nat)
    requires w & probe == probe && Halved(probe, n) != 0
    ensures Halved(w, n) != 0
    decreases n
  {
    if n == 0 {
      assert w == 0 ==> w & probe == 0;
    } else {
      ProbeStep(w, probe);
      ProbeSurvives(High(w), High(probe), n - 1);
    }
  }

  lemma {:induction false} HalvedZero(n: nat)
    ensures Halved(0, n) == 0
  {
    if n != 0 {
      assert High(0) == 0;
      HalvedZero(n - 1);
    }
  }

  const TOP: bv32 := 0x8000_0000

  lemma TopHalved()
    ensures Halved(TOP, 31) == 1
  {
    var a: bv32, b: bv32, c: bv32, d: bv32 := 0x8000, 0x80, 8, 2;
    HalvedInTwo(TOP, 16, 15);
    HalvedSixteen(TOP);
    assert TOP >> 16 == a;
    HalvedInTwo(a, 8, 7);
    HalvedEight(a);
    assert a >> 8 == b;
    HalvedInTwo(b, 4, 3);
    HalvedFour(b);
    assert b >> 4 == c;
    HalvedInTwo(c, 2, 1);
    HalvedTwo(c);
    assert c >> 2 == d;
    assert Halved(d, 1) == High(d) == 1;
  }

  lemma TopSurvives(n: nat)
    requires n < 32
    ensures Halved(TOP, n) != 0
  {
    TopHalved();
    HalvedInTwo(TOP, n, 31 - n);
    HalvedZero(31 - n);
  }

  lemma FitsTopClear(w: bv32, n: nat)
    requires Fits(w, n) && n < 32
    ensures w & 0x8000_0000 == 0
  {
    TopSurvives(n);
    if w & TOP == TOP {
      ProbeSurvives(w, TOP, n);
    }
    assert w & TOP == TOP || w & TOP == 0;
  }

  lemma PushSplits(w: bv32, b: bool)
    requires w & 0x8000_0000 == 0
    ensures Low(Push(w, b)) == b && High(Push(w, b)) == w
  {
  }

  lemma FitsGrows(w: bv32, n: nat, b: bool)
    requires Fits(w, n) && n < 32
    ensures Fits(Push(w, b), n + 1)
  {
    FitsTopClear(w, n);
    PushSplits(w, b);
  }

  lemma WordsGrow()
    ensures REGISTER.WordsGrow()
  {
    forall w, n: nat, b | REGISTER.fits(w, n) && n < 32 ensures REGISTER.fits(REGISTER.push(w, b), n + 1) {
      FitsGrows(w, n, b);
    }
  }

  lemma WordsSplit()
    ensures REGISTER.WordsSplit()
  {
    forall w, n: nat, b | REGISTER.fits(w, n) && n < 32
      ensures REGISTER.low(REGISTER.push(w, b)) == b && REGISTER.high(REGISTER.push(w, b)) == w
    {
      FitsTopClear(w, n);
      PushSplits(w, b);
    }
  }

  lemma PushOfHalves(w: bv32)
    ensures Push(High(w), Low(w)) == w
  {
  }

  lemma WordsHalve()
    ensures REGISTER.WordsHalve()
  {
    forall w ensures REGISTER.push(REGISTER.high(w), REGISTER.low(w)) == w {
      PushOfHalves(w);
    }
  }

  lemma PushIsXor()
    ensures REGISTER.PushIsXor()
  {
  }

  lemma ShiftOfDouble(w: bv32)
    requires w & 0x8000_0000 == 0
    ensures Shift(Double(w)) == w
  {
  }

  lemma ShiftUndoesDouble()
    ensures REGISTER.ShiftUndoesDouble()
  {
    forall w, n: nat | REGISTER.fits(w, n) && n < 32 ensures REGISTER.shift(REGISTER.double(w)) == w {
      FitsTopClear(w, n);
      ShiftOfDouble(w);
    }
  }

  lemma RegisterLaws()
    ensures REGISTER.Laws()
  {
    XorLaws();
    Linear();
    Reversible();
    WordsGrow();
    WordsSplit();
    WordsHalve();
    PushIsXor();
    ShiftUndoesDouble();
  }

  // ----- the table refines the bit-serial form -----

  /** What entry b of the table holds. */
  function TableEntry(b: bv8): bv32 { REGISTER.Shifts(b as bv32, 8) }

  lemma WordOfByte(b: bv8)
    ensures REGISTER.Word(BitsOfByte(b)) == b as bv32
  {
    RegisterLaws();
    HalvedEight(b as bv32);
    assert (b as bv32) >> 8 == 0;
    WordOfLowBits(REGISTER, b as bv32, 8);
  }

  lemma EvenShift(x: bv32)
    requires !Low(x)
    ensures Shift(x) == High(x)
  {
  }

  lemma ShiftsFrom(r: Ops<bv32>, x: bv32, y: bv32, n: nat)
    requires n != 0 && r.shift(x) == y
    ensures r.Shifts(x, n) == r.Shifts(y, n - 1)
  {
  }

  /** Shifting out bits that are all clear only moves the register down. */
  lemma {:induction false} ShiftsOfCleared(x: bv32, n: nat)
    requires forall k :: 0 <= k < n ==> !Low(Halved(x, k))
    ensures REGISTER.Shifts(x, n) == Halved(x, n)
    decreases n
  {
    if n != 0 {
      assert !Low(Halved(x, 0));
      EvenShift(x);
      ShiftsFrom(REGISTER, x, High(x), n);
      forall k | 0 <= k < n - 1 ensures !Low(Halved(High(x), k)) {
        assert Halved(x, k + 1) == Halved(High(x), k);
      }
      ShiftsOfCleared(High(x), n - 1);
    }
  }

  lemma SplitLowByte(c: bv32, b: bv32)
    requires b & 0xFF == b
    ensures c ^ b == ((c ^ b) & 0xFF) ^ (c & 0xFFFF_FF00)
  {
  }

  lemma HighBytes(c: bv32)
    ensures (c & 0xFFFF_FF00) & 0xFF == 0
    ensures (c & 0xFFFF_FF00) >> 8 == (c >> 8) & 0x00FF_FFFF
  {
  }

  lemma LowByteClear(x: bv32)
    requires x & 0xFF == 0
    ensures forall k :: 0 <= k < 8 ==> !Low(Halved(x, k))
  {
    forall k | 0 <= k < 8 ensures !Low(Halved(x, k)) {
      LowByteSet(k);
      ClearUpTo(x, 0xFF, k);
    }
  }

  lemma LowByteSet(k: nat)
    requires k < 8
    ensures Low(Halved(0xFF, k))
  {
    assert Halved(0xFF, 1) == 0x7F && Halved(0xFF, 2) == 0x3F && Halved(0xFF, 3) == 0x1F;
    assert Halved(0xFF, 4) == 0x0F && Halved(0xFF, 5) == 0x07 && Halved(0xFF, 6) == 0x03;
    assert Halved(0xFF, 7) == 0x01;
  }

  lemma ClearStep(x: bv32, m: bv32)
    requires x & m == 0
    ensures High(x) & High(m) == 0
  {
  }

  lemma {:induction false} ClearUpTo(x: bv32, m: bv32, k: nat)
    requires x & m == 0 && Low(Halved(m, k))
    ensures !Low(Halved(x, k))
    decreases k
  {
    if k == 0 {
      assert x & m == 0 && m & 1 == 1 ==> x & 1 != 1;
    } else {
      ClearStep(x, m);
      ClearUpTo(High(x), High(m), k - 1);
    }
  }

  lemma ShiftsOfHighBytes(c: bv32)
    ensures REGISTER.Shifts(c & 0xFFFF_FF00, 8) == (c >> 8) & 0x00FF_FFFF
  {
    HighBytes(c);
    LowByteClear(c & 0xFFFF_FF00);
    ShiftsOfCleared(c & 0xFFFF_FF00, 8);
    HalvedEight(c & 0xFFFF_FF00);
  }

  /** Which entry the loop of computeCrc looks up. */
  function Index(c: bv32, b: bv8): bv8 { ((c ^ (b as bv32)) & 0xFF) as bv8 }

  lemma ByteParts(c: bv32, b: bv8)
    ensures REGISTER.xor(c, REGISTER.Word(BitsOfByte(b)))
         == REGISTER.xor(Index(c, b) as bv32, c & 0xFFFF_FF00)
  {
    WordOfByte(b);
    SplitLowByte(c, b as bv32);
  }

  /** One step of the table loop is eight steps of the bit-serial register. */
  lemma ByteStep(c: bv32, b: bv8)
    ensures Xor(TableEntry(Index(c, b)), (c >> 8) & 0x00FF_FFFF) == REGISTER.Feed(c, BitsOfByte(b))
  {
    ByteParts(c, b);
    RegisterLaws();
    FeedInParts(REGISTER, c, BitsOfByte(b), Index(c, b) as bv32, c & 0xFFFF_FF00);
    ShiftsOfHighBytes(c);
  }

  ghost predicate IsCrcTable(table: seq<bv32>) {
    |table| == 256 && forall b: bv8 :: table[b as int] == TableEntry(b)
  }

  /** One round of the inner loop that fills the table, masks included, is one shift. */
  lemma TableRound(c: bv32)
    ensures Shift(c) == if c & 1 == 1 then POLY ^ ((c >> 1) & 0x7FFF_FFFF) else c >> 1
  {
  }

  /** The function-local statics of computeCrc: the table and whether it is filled. */
  class CrcState {
    const crcTable: array<bv32>
    var crcTableComputed: bool

    ghost predicate Valid()
      reads this, crcTable
    {
      crcTable.Length == 256 && (crcTableComputed ==> IsCrcTable(crcTable[..]))
    }

    constructor ()
      ensures Valid() && fresh(crcTable)
    {
      crcTable := new bv32[256];
      crcTableComputed := false;
    }

    method MakeEntry(i: bv8) returns (c: bv32)
      ensures c == TableEntry(i)
    {
      c := i as bv32;
      for k := 0 to 8
        invariant REGISTER.Shifts(c, 8 - k) == TableEntry(i)
      {
        TableRound(c);
        ShiftsFrom(REGISTER, c, Shift(c), 8 - k);
        if c & 1 == 1 {
          c := POLY ^ ((c >> 1) & 0x7FFF_FFFF);
        } else {
          c := c >> 1;
        }
      }
    }

    method MakeCrcTable()
      requires crcTable.Length == 256
      modifies crcTable
      ensures IsCrcTable(crcTable[..])
    {
      for i := 0 to 256
        invariant forall b: bv8 :: b as int < i ==> crcTable[b as int] == TableEntry(b)
      {
        crcTable[i] := MakeEntry(i as bv8);
      }
    }

    /** Fills the table on first use only, and always returns the bit-serial checksum. */
    method ComputeCrc(buffer: seq<bv8>) returns (r: bv32)
      requires Valid()
      modifies this, crcTable
      ensures Valid() && crcTableComputed
      ensures old(crcTableComputed) ==> crcTable[..] == old(crcTable[..])
      ensures r == BitSerialCrc(BitsOf(buffer))
    {
      if !crcTableComputed {
        MakeCrcTable();
        crcTableComputed := true;
      }
      var crc := Fold(buffer);
      r := Xor(crc, ALL_ONES);
    }

    method Fold(buffer: seq<bv8>) returns (crc: bv32)
      requires crcTable.Length == 256 && IsCrcTable(crcTable[..])
      ensures crc == REGISTER.Feed(ALL_ONES, BitsOf(buffer))
    {
      crc := ALL_ONES;
      for i := 0 to |buffer|
        invariant REGISTER.Feed(crc, BitsOf(buffer[i..])) == REGISTER.Feed(ALL_ONES, BitsOf(buffer))
      {
        var index := Index(crc, buffer[i]);
        assert crcTable[..][index as int] == TableEntry(index);
        StepOver(crc, buffer, i);
        crc := Xor(crcTable[index as int], (crc >> 8) & 0x00FF_FFFF);
      }
    }
  }

  lemma StepOver(c: bv32, buffer: seq<bv8>, i: nat)
    requires i < |buffer|
    ensures REGISTER.Feed(Xor(TableEntry(Index(c, buffer[i])), (c >> 8) & 0x00FF_FFFF), BitsOf(buffer[i + 1..]))
         == REGISTER.Feed(c, BitsOf(buffer[i..]))
  {
    ByteStep(c, buffer[i]);
    assert buffer[i..][1..] == buffer[i + 1..];
    FeedAppend(REGISTER, c, BitsOfByte(buffer[i]), BitsOf(buffer[i + 1..]));
  }

  // ----- what the checksum detects -----

  lemma FinalComplement(x: bv32, y: bv32)
    requires Xor(x, ALL_ONES) == Xor(y, ALL_ONES)
    ensures x == y
  {
  }

  /** Every error burst confined to 32 consecutive bits changes the checksum. */
  lemma BurstsDetected(x: seq<bool>, y: seq<bool>, lo: nat)
    requires AgreeOutside(x, y, lo, lo + 32)
    ensures BitSerialCrc(x) == BitSerialCrc(y) <==> x == y
  {
    if BitSerialCrc(x) == BitSerialCrc(y) {
      RegisterLaws();
      FinalComplement(REGISTER.Feed(ALL_ONES, x), REGISTER.Feed(ALL_ONES, y));
      BurstsShow(REGISTER, ALL_ONES, x, y, lo);
    }
  }

  lemma BitsOfByteInjective(a: bv8, b: bv8)
    requires BitsOfByte(a) == BitsOfByte(b)
    ensures a == b
  {
    WordOfByte(a);
    WordOfByte(b);
    assert (a as bv32) as bv8 == a && (b as bv32) as bv8 == b;
  }

  lemma {:induction false} BitsOfAppend(a: seq<bv8>, b: seq<bv8>)
    ensures BitsOf(a + b) == BitsOf(a) + BitsOf(b)
  {
    if a == [] {
      assert a + b == b;
    } else {
      assert (a + b)[1..] == a[1..] + b;
      BitsOfAppend(a[1..], b);
    }
  }

  lemma {:induction false} BitsOfInjective(a: seq<bv8>, b: seq<bv8>)
    requires |a| == |b| && BitsOf(a) == BitsOf(b)
    ensures a == b
  {
    if a != [] {
      var x, y, u, v := BitsOfByte(a[0]), BitsOfByte(b[0]), BitsOf(a[1..]), BitsOf(b[1..]);
      assert x == (x + u)[..8] == (y + v)[..8] == y;
      assert u == (x + u)[8..] == (y + v)[8..] == v;
      BitsOfByteInjective(a[0], b[0]);
      BitsOfInjective(a[1..], b[1..]);
      assert a == [a[0]] + a[1..] && b == [b[0]] + b[1..];
    }
  }

  /** Buffers that differ only inside four consecutive bytes share a checksum only if equal. */
  lemma FourByteWindowDetected(a: seq<bv8>, b: seq<bv8>, lo: nat)
    requires AgreeOutside(a, b, lo, lo + 4)
    ensures BitSerialCrc(BitsOf(a)) == BitSerialCrc(BitsOf(b)) <==> a == b
  {
    var p, u, v, q := SplitAround(a, b, lo, 4);
    BitsOfAppend(p + u, q);
    BitsOfAppend(p, u);
    BitsOfAppend(p + v, q);
    BitsOfAppend(p, v);
    if BitSerialCrc(BitsOf(a)) == BitSerialCrc(BitsOf(b)) {
      RegisterLaws();
      FinalComplement(REGISTER.Feed(ALL_ONES, BitsOf(a)), REGISTER.Feed(ALL_ONES, BitsOf(b)));
      BurstPartsShow(REGISTER, ALL_ONES, BitsOf(p), BitsOf(u), BitsOf(v), BitsOf(q));
      BitsOfInjective(u, v);
    }
  }

  /** A first bit followed by the 32 bits that cancel the register it leads to. */
  function Cancelling(first: bool): seq<bool> {
    [first] + REGISTER.LowBits(Shift(Xor(ALL_ONES, Bit(first))), 32)
  }

  lemma CancellingCancels(first: bool)
    ensures REGISTER.Feed(ALL_ONES, Cancelling(first)) == REGISTER.Shifts(0, 32)
  {
    var c := Shift(Xor(ALL_ONES, Bit(first)));
    assert Cancelling(first)[1..] == REGISTER.LowBits(c, 32);
    RegisterLaws();
    FitsAll(c);
    FeedOwnContents(REGISTER, c);
  }

  // ----- the window cannot be any wider -----

  lemma LowByteOnly(x: bv32)
    requires x >> 8 == 0
    ensures ((x & 0xFF) as bv8) as bv32 == x
  {
    assert x & 0xFF == x;
  }

  /** The byte of eight bits. */
  function ByteOf(bits: seq<bool>): bv8
    requires |bits| == 8
  {
    (REGISTER.Word(bits) & 0xFF) as bv8
  }

  lemma ByteReadsBack(bits: seq<bool>)
    requires |bits| == 8
    ensures BitsOfByte(ByteOf(bits)) == bits
  {
    RegisterLaws();
    var x := REGISTER.Word(bits);
    WordFits(REGISTER, bits);
    HalvedEight(x);
    LowByteOnly(x);
    WordOfLowBits(REGISTER, x, 8);
    WordInjective(REGISTER, REGISTER.LowBits(x, 8), bits);
  }

  function BytesOf(bits: seq<bool>, n: nat): (bytes: seq<bv8>)
    requires |bits| == 8 * n
    ensures |bytes| == n
  {
    if n == 0 then [] else [ByteOf(bits[..8])] + BytesOf(bits[8..], n - 1)
  }

  lemma {:induction false} BytesReadBack(bits: seq<bool>, n: nat)
    requires |bits| == 8 * n
    ensures BitsOf(BytesOf(bits, n)) == bits
    decreases n
  {
    if n != 0 {
      ByteReadsBack(bits[..8]);
      BytesReadBack(bits[8..], n - 1);
      assert BytesOf(bits, n)[1..] == BytesOf(bits[8..], n - 1);
      assert bits == bits[..8] + bits[8..];
    }
  }

  /** Seven bits more make the colliding streams whole bytes. */
  function Padded(first: bool): (bits: seq<bool>)
    ensures |bits| == 40
  {
    Cancelling(first) + seq(7, _ => false)
  }

  lemma PaddedCollide()
    ensures Padded(false) != Padded(true) && BitSerialCrc(Padded(false)) == BitSerialCrc(Padded(true))
  {
    var tail: seq<bool> := seq(7, _ => false);
    assert Padded(false)[0] != Padded(true)[0];
    CancellingCancels(false);
    CancellingCancels(true);
    FeedAppend(REGISTER, ALL_ONES, Cancelling(false), tail);
    FeedAppend(REGISTER, ALL_ONES, Cancelling(true), tail);
  }

  /** So five bytes are too many: two buffers of that length that differ only within their first 33 bits share a
      checksum. */
  lemma FiveBytesCollide() returns (a: seq<bv8>, b: seq<bv8>)
    ensures |a| == |b| == 5 && a != b && AgreeOutside(BitsOf(a), BitsOf(b), 0, 33)
    ensures BitSerialCrc(BitsOf(a)) == BitSerialCrc(BitsOf(b))
  {
    a, b := BytesOf(Padded(false), 5), BytesOf(Padded(true), 5);
    BytesReadBack(Padded(false), 5);
    BytesReadBack(Padded(true), 5);
    PaddedCollide();
  }
}
