/** The checksum as the theory of cyclic codes has it: long division of polynomials over two elements. Polynomials are
    sequences of coefficients, the highest first. */
module CrcDivision {
  import opened ShiftRegister
  import opened Crc

  type Polynomial = seq<bool>

  /** The powers in the generator of CRC-32, as section 8 of RFC 1952 has it. */
  const EXPONENTS: set<nat> := {32, 26, 23, 22, 16, 12, 11, 10, 8, 7, 5, 4, 2, 1, 0}

  function Generator(): (g: Polynomial)
    ensures |g| == 33 && forall i :: 0 <= i < 33 ==> g[i] == (32 - i in EXPONENTS)
  {
    seq(33, i requires 0 <= i < 33 => 32 - i in EXPONENTS)
  }

  function Zeros(n: nat): (z: Polynomial)
    ensures |z| == n && forall i :: 0 <= i < n ==> !z[i]
  {
    seq(n, _ => false)
  }

  function Plus(a: Polynomial, b: Polynomial): (r: Polynomial)
    requires |a| == |b|
    ensures |r| == |a| && forall i :: 0 <= i < |a| ==> r[i] == (a[i] != b[i])
  {
    seq(|a|, i requires 0 <= i < |a| => a[i] != b[i])
  }

  /** One step of long division: the generator is taken away under the highest coefficient, if that is set, which is
      then dropped. */
  function Cancel(m: Polynomial): (r: Polynomial)
    requires |m| > 32
    ensures |r| == |m| - 1
  {
    (if m[0] then Plus(m, Generator() + Zeros(|m| - 33)) else m)[1..]
  }

  /** What long division by the generator leaves. */
  function Remainder(m: Polynomial): (r: Polynomial)
    requires |m| >= 32
    ensures |r| == 32
    decreases |m|
  {
    if |m| == 32 then m else Remainder(Cancel(m))
  }

  function Complement(m: Polynomial): (r: Polynomial)
    ensures |r| == |m| && forall i :: 0 <= i < |m| ==> r[i] == !m[i]
  {
    seq(|m|, i requires 0 <= i < |m| => !m[i])
  }

  /** A message on its way into the division: thirty-two places are made below it, and its first thirty-two
      coefficients are complemented. */
  function Prepared(message: Polynomial): (m: Polynomial)
    ensures |m| == |message| + 32
  {
    var m := message + Zeros(32);
    Complement(m[..32]) + m[32..]
  }

  // ----- it is a remainder -----

  /** The generator times a polynomial. */
  function Multiple(q: Polynomial): (m: Polynomial)
    ensures |m| == |q| + 32
  {
    if q == [] then Zeros(32)
    else
      var rest := [false] + Multiple(q[1..]);
      if q[0] then Plus(Generator() + Zeros(|q| - 1), rest) else rest
  }

  function Quotient(m: Polynomial): (q: Polynomial)
    requires |m| >= 32
    ensures |q| == |m| - 32
    decreases |m|
  {
    if |m| == 32 then [] else [m[0]] + Quotient(Cancel(m))
  }

  lemma OneMoreZero(n: nat, r: Polynomial)
    ensures [false] + (Zeros(n) + r) == Zeros(n + 1) + r
  {
  }

  /** Every polynomial is a multiple of the generator and its remainder. */
  lemma {:induction false} DivisionLaw(m: Polynomial)
    requires |m| >= 32
    ensures Plus(Multiple(Quotient(m)), Zeros(|m| - 32) + Remainder(m)) == m
    decreases |m|
  {
    if |m| == 32 {
      assert Zeros(0) + Remainder(m) == m;
    } else {
      var r := Remainder(Cancel(m));
      DivisionLaw(Cancel(m));
      DivisionStep(m, Quotient(Cancel(m)), Zeros(|m| - 33) + r);
      OneMoreZero(|m| - 33, r);
    }
  }

  lemma DivisionStep(m: Polynomial, q: Polynomial, r: Polynomial)
    requires |m| > 32 && |q| == |m| - 33 && |r| == |m| - 1 && Plus(Multiple(q), r) == Cancel(m)
    ensures Plus(Multiple([m[0]] + q), [false] + r) == m
  {
    assert ([m[0]] + q)[1..] == q;
    var rest := [false] + Multiple(q);
    assert Generator()[0];
    forall i | 0 <= i < |m| ensures Plus(Multiple([m[0]] + q), [false] + r)[i] == m[i] {
      if i > 0 {
        assert Cancel(m)[i - 1] == Plus(Multiple(q), r)[i - 1] == (Multiple(q)[i - 1] != r[i - 1]);
        assert rest[i] == Multiple(q)[i - 1] && ([false] + r)[i] == r[i - 1];
      }
    }
  }

  // ----- the register holds it -----

  /** The coefficients in a register, the highest in its lowest bit. */
  function Coefficients(c: bv32): (m: Polynomial)
    ensures |m| == 32
  {
    REGISTER.LowBits(c, 32)
  }

  lemma {:induction false} LowBitsAt(x: bv32, n: nat, i: nat)
    requires i < n
    ensures REGISTER.LowBits(x, n)[i] == Low(Halved(x, i))
    decreases n
  {
    if i > 0 {
      LowBitsAt(High(x), n - 1, i - 1);
    }
  }

  lemma XorHigh(x: bv32, y: bv32)
    ensures High(Xor(x, y)) == Xor(High(x), High(y))
    ensures Low(Xor(x, y)) == (Low(x) != Low(y))
  {
    XorHalves(x, y);
  }

  /** Adding words adds their lowest bits and the rest of them. */
  ghost predicate AddsBitwise<T(!new)>(r: Ops<T>) {
    forall x, y :: r.high(r.xor(x, y)) == r.xor(r.high(x), r.high(y)) && r.low(r.xor(x, y)) == (r.low(x) != r.low(y))
  }

  lemma PlusFirst(a: bool, m: Polynomial, b: bool, n: Polynomial)
    requires |m| == |n|
    ensures Plus([a] + m, [b] + n) == [a != b] + Plus(m, n)
  {
  }

  lemma {:induction false} XorLowBits<T(!new)>(r: Ops<T>, x: T, y: T, n: nat)
    requires AddsBitwise(r)
    ensures r.LowBits(r.xor(x, y), n) == Plus(r.LowBits(x, n), r.LowBits(y, n))
    decreases n
  {
    if n != 0 {
      XorLowBits(r, r.high(x), r.high(y), n - 1);
      PlusFirst(r.low(x), r.LowBits(r.high(x), n - 1), r.low(y), r.LowBits(r.high(y), n - 1));
      assert r.high(r.xor(x, y)) == r.xor(r.high(x), r.high(y));
    }
  }

  lemma RegisterAddsBitwise()
    ensures AddsBitwise(REGISTER)
  {
    forall x, y
      ensures REGISTER.high(REGISTER.xor(x, y)) == REGISTER.xor(REGISTER.high(x), REGISTER.high(y))
      ensures REGISTER.low(REGISTER.xor(x, y)) == (REGISTER.low(x) != REGISTER.low(y))
    {
      XorHigh(x, y);
    }
  }

  lemma CoefficientsPlus(x: bv32, y: bv32)
    ensures Coefficients(Xor(x, y)) == Plus(Coefficients(x), Coefficients(y))
  {
    RegisterAddsBitwise();
    XorLowBits(REGISTER, x, y, 32);
  }

  lemma CoefficientsMove(x: bv32)
    ensures Coefficients(High(x)) == Coefficients(x)[1..] + [false]
  {
    forall i | 0 <= i < 32 ensures Coefficients(High(x))[i] == (Coefficients(x)[1..] + [false])[i] {
      LowBitsAt(High(x), 32, i);
      assert Halved(High(x), i) == Halved(x, i + 1);
      if i < 31 {
        LowBitsAt(x, 32, i + 1);
      } else {
        FitsAll(x);
      }
    }
  }

  lemma CoefficientOfBit(b: bool)
    ensures Coefficients(Bit(b)) == [b] + Zeros(31)
  {
    forall i | 0 <= i < 32 ensures Coefficients(Bit(b))[i] == ([b] + Zeros(31))[i] {
      LowBitsAt(Bit(b), 32, i);
      if i > 0 {
        assert High(Bit(b)) == 0;
        HalvedZero(i - 1);
      }
    }
  }

  lemma CoefficientAt(p: bv32, x: bv32, n: nat)
    requires n < 32 && Halved(p, n) == x
    ensures Coefficients(p)[n] == Low(x) && Halved(p, n + 1) == High(x)
  {
    LowBitsAt(p, 32, n);
    HalvedInTwo(p, n, 1);
  }

  /** Four coefficients of a register, given what is left of it after the ones before. */
  lemma Nibble(p: bv32, x: bv32, n: nat, a: bool, b: bool, c: bool, d: bool)
    requires n + 4 <= 32 && Halved(p, n) == x
    requires Low(x) == a && Low(High(x)) == b && Low(High(High(x))) == c && Low(High(High(High(x)))) == d
    ensures Coefficients(p)[n] == a && Coefficients(p)[n + 1] == b
    ensures Coefficients(p)[n + 2] == c && Coefficients(p)[n + 3] == d
    ensures Halved(p, n + 4) == High(High(High(High(x))))
  {
    CoefficientAt(p, x, n);
    CoefficientAt(p, High(x), n + 1);
    CoefficientAt(p, High(High(x)), n + 2);
    CoefficientAt(p, High(High(High(x))), n + 3);
  }

  lemma PolyBelow()
    ensures forall i :: 0 <= i < 16 ==> Coefficients(0xEDB8_8320)[i] == (31 - i in EXPONENTS)
  {
    var p: bv32 := 0xEDB8_8320;
    Nibble(p, 0xEDB88320, 0, false, false, false, false);
    Nibble(p, 0x0EDB8832, 4, false, true, false, false);
    Nibble(p, 0x00EDB883, 8, true, true, false, false);
    Nibble(p, 0x000EDB88, 12, false, false, false, true);
  }

  lemma PolyAbove()
    ensures forall i :: 16 <= i < 32 ==> Coefficients(0xEDB8_8320)[i] == (31 - i in EXPONENTS)
  {
    var p: bv32 := 0xEDB8_8320;
    HalvedSixteen(p);
    Nibble(p, 0x0000EDB8, 16, false, false, false, true);
    Nibble(p, 0x00000EDB, 20, true, true, false, true);
    Nibble(p, 0x000000ED, 24, true, false, true, true);
    Nibble(p, 0x0000000E, 28, false, true, true, true);
  }

  /** The constant in the source is the generator without its highest power. */
  lemma PolyIsGenerator()
    ensures Coefficients(0xEDB8_8320) == Generator()[1..]
  {
    PolyBelow();
    PolyAbove();
  }

  lemma OnesBelow()
    ensures forall i :: 0 <= i < 16 ==> Coefficients(ALL_ONES)[i]
  {
    Nibble(ALL_ONES, 0xFFFFFFFF, 0, true, true, true, true);
    Nibble(ALL_ONES, 0x0FFFFFFF, 4, true, true, true, true);
    Nibble(ALL_ONES, 0x00FFFFFF, 8, true, true, true, true);
    Nibble(ALL_ONES, 0x000FFFFF, 12, true, true, true, true);
  }

  lemma OnesAbove()
    ensures forall i :: 16 <= i < 32 ==> Coefficients(ALL_ONES)[i]
  {
    HalvedSixteen(ALL_ONES);
    Nibble(ALL_ONES, 0x0000FFFF, 16, true, true, true, true);
    Nibble(ALL_ONES, 0x00000FFF, 20, true, true, true, true);
    Nibble(ALL_ONES, 0x000000FF, 24, true, true, true, true);
    Nibble(ALL_ONES, 0x0000000F, 28, true, true, true, true);
  }

  lemma OnesAreOnes()
    ensures forall i :: 0 <= i < 32 ==> Coefficients(ALL_ONES)[i]
  {
    OnesBelow();
    OnesAbove();
  }

  /** One step of long division with nothing below. */
  function Stepped(m: Polynomial): (r: Polynomial)
    requires |m| == 32
    ensures |r| == 32
  {
    if m[0] then Plus(m[1..] + [false], Generator()[1..]) else m[1..] + [false]
  }

  /** One shift of the register is one step of long division on its coefficients. */
  lemma ShiftDivides(x: bv32)
    ensures Coefficients(Shift(x)) == Stepped(Coefficients(x))
  {
    LowBitsAt(x, 32, 0);
    CoefficientsMove(x);
    PolyIsGenerator();
    CoefficientsPlus(High(x), POLY);
  }

  /** Some bits still to be divided, with a remainder so far added to the first of them. */
  function Pending(m: Polynomial, bits: seq<bool>): (r: Polynomial)
    requires |m| == 32
    ensures |r| == |bits| + 32
  {
    Plus(m + Zeros(|bits|), bits + Zeros(32))
  }

  lemma PendingAt(m: Polynomial, bits: seq<bool>, i: nat)
    requires |m| == 32 && i < |bits| + 32
    ensures Pending(m, bits)[i] == ((i < 32 && m[i]) != (i < |bits| && bits[i]))
  {
  }

  lemma SteppedAt(m: Polynomial, i: nat)
    requires |m| == 32 && i < 32
    ensures Stepped(m)[i] == ((i < 31 && m[i + 1]) != (m[0] && Generator()[i + 1]))
  {
  }

  lemma CancelAt(m: Polynomial, i: nat)
    requires |m| > 32 && i < |m| - 1
    ensures Cancel(m)[i] == (m[i + 1] != (m[0] && i < 32 && Generator()[i + 1]))
  {
  }

  lemma FeedingDivides(m: Polynomial, bits: seq<bool>)
    requires |m| == 32 && bits != []
    ensures Cancel(Pending(m, bits)) == Pending(Stepped(Plus(m, [bits[0]] + Zeros(31))), bits[1..])
  {
    var first := Plus(m, [bits[0]] + Zeros(31));
    var next := Pending(Stepped(first), bits[1..]);
    PendingAt(m, bits, 0);
    forall i | 0 <= i < |next| ensures Cancel(Pending(m, bits))[i] == next[i] {
      CancelAt(Pending(m, bits), i);
      PendingAt(m, bits, i + 1);
      PendingAt(Stepped(first), bits[1..], i);
      if i < 32 {
        SteppedAt(first, i);
      }
    }
  }

  lemma FeedOneDivides(c: bv32, b: bool)
    ensures Coefficients(Shift(Xor(c, Bit(b)))) == Stepped(Plus(Coefficients(c), [b] + Zeros(31)))
  {
    CoefficientOfBit(b);
    CoefficientsPlus(c, Bit(b));
    ShiftDivides(Xor(c, Bit(b)));
  }

  lemma {:induction false} FeedDivides(c: bv32, bits: seq<bool>)
    ensures Coefficients(REGISTER.Feed(c, bits)) == Remainder(Pending(Coefficients(c), bits))
    decreases |bits|
  {
    if bits == [] {
      assert Pending(Coefficients(c), bits) == Coefficients(c);
    } else {
      FeedingDivides(Coefficients(c), bits);
      FeedOneDivides(c, bits[0]);
      FeedDivides(REGISTER.shift(REGISTER.xor(c, REGISTER.bit(bits[0]))), bits[1..]);
    }
  }

  lemma PreparedIsPending(bits: seq<bool>)
    ensures Pending(Coefficients(ALL_ONES), bits) == Prepared(bits)
  {
    OnesAreOnes();
  }

  /** The checksum of any stream of bits is the complement of the remainder that the prepared message leaves when it
      is divided by the generator. */
  lemma CrcIsRemainder(bits: seq<bool>)
    ensures Coefficients(BitSerialCrc(bits)) == Complement(Remainder(Prepared(bits)))
  {
    PreparedIsPending(bits);
    FeedDivides(ALL_ONES, bits);
    AddingOnes(REGISTER.Feed(ALL_ONES, bits));
  }

  lemma AddingOnes(x: bv32)
    ensures Coefficients(Xor(x, ALL_ONES)) == Complement(Coefficients(x))
  {
    OnesAreOnes();
    CoefficientsPlus(x, ALL_ONES);
  }

  /** And a register is determined by its coefficients. */
  lemma CoefficientsDetermine(x: bv32, y: bv32)
    requires Coefficients(x) == Coefficients(y)
    ensures x == y
  {
    RegisterLaws();
    FitsAll(x);
    FitsAll(y);
    WordOfLowBits(REGISTER, x, 32);
    WordOfLowBits(REGISTER, y, 32);
  }

  // ----- the check value -----

  lemma EightShifts(x: bv32, a: bv32, b: bv32, c: bv32, d: bv32, e: bv32, f: bv32, g: bv32, h: bv32)
    requires Shift(x) == a && Shift(a) == b && Shift(b) == c && Shift(c) == d
    requires Shift(d) == e && Shift(e) == f && Shift(f) == g && Shift(g) == h
    ensures REGISTER.Shifts(x, 8) == h
  {
    ShiftsFrom(REGISTER, x, a, 8);
    ShiftsFrom(REGISTER, a, b, 7);
    ShiftsFrom(REGISTER, b, c, 6);
    ShiftsFrom(REGISTER, c, d, 5);
    ShiftsFrom(REGISTER, d, e, 4);
    ShiftsFrom(REGISTER, e, f, 3);
    ShiftsFrom(REGISTER, f, g, 2);
    ShiftsFrom(REGISTER, g, h, 1);
  }

  lemma FeedOneByte(c: bv32, byte: bv8, x: bv32)
    requires x == c ^ (byte as bv32)
    ensures REGISTER.Feed(c, BitsOfByte(byte)) == REGISTER.Shifts(x, 8)
  {
    RegisterLaws();
    WordOfByte(byte);
    FeedIsXorThenShifts(REGISTER, c, BitsOfByte(byte));
  }

  lemma BitsOfFirst(byte: bv8, rest: seq<bv8>)
    ensures BitsOf([byte] + rest) == BitsOfByte(byte) + BitsOf(rest)
  {
    assert ([byte] + rest)[1..] == rest;
  }

  lemma FeedByte(c: bv32, byte: bv8, x: bv32, next: bv32, rest: seq<bv8>)
    requires x == c ^ (byte as bv32) && REGISTER.Shifts(x, 8) == next
    ensures REGISTER.Feed(c, BitsOf([byte] + rest)) == REGISTER.Feed(next, BitsOf(rest))
  {
    FeedOneByte(c, byte, x);
    BitsOfFirst(byte, rest);
    FeedAppend(REGISTER, c, BitsOfByte(byte), BitsOf(rest));
  }

  const CHECK: seq<bv8> := [0x31, 0x32, 0x33, 0x34, 0x35, 0x36, 0x37, 0x38, 0x39]

  lemma CheckByteOne(rest: seq<bv8>)
    ensures REGISTER.Feed(0xFFFFFFFF, BitsOf([0x31] + rest)) == REGISTER.Feed(0x7C231048, BitsOf(rest))
  {
    EightShifts(0xFFFFFFCE, 0x7FFFFFE7, 0xD2477CD3, 0x849B3D49, 0xAFF51D84,
      0x57FA8EC2, 0x2BFD4761, 0xF8462090, 0x7C231048);
    FeedByte(0xFFFFFFFF, 0x31, 0xFFFFFFCE, 0x7C231048, rest);
  }

  lemma CheckByteTwo(rest: seq<bv8>)
    ensures REGISTER.Feed(0x7C231048, BitsOf([0x32] + rest)) == REGISTER.Feed(0xB0ACBB32, BitsOf(rest))
  {
    EightShifts(0x7C23107A, 0x3E11883D, 0xF2B0473E, 0x7958239F, 0xD11492EF,
      0x8532CA57, 0xAF21E60B, 0xBA287025, 0xB0ACBB32);
    FeedByte(0x7C231048, 0x32, 0x7C23107A, 0xB0ACBB32, rest);
  }

  lemma CheckByteThree(rest: seq<bv8>)
    ensures REGISTER.Feed(0xB0ACBB32, BitsOf([0x33] + rest)) == REGISTER.Feed(0x77B79C2D, BitsOf(rest))
  {
    EightShifts(0xB0ACBB01, 0xB5EEDEA0, 0x5AF76F50, 0x2D7BB7A8, 0x16BDDBD4,
      0x0B5EEDEA, 0x05AF76F5, 0xEF6F385A, 0x77B79C2D);
    FeedByte(0xB0ACBB32, 0x33, 0xB0ACBB01, 0x77B79C2D, rest);
  }

  lemma CheckByteFour(rest: seq<bv8>)
    ensures REGISTER.Feed(0x77B79C2D, BitsOf([0x34] + rest)) == REGISTER.Feed(0x641C1F5C, BitsOf(rest))
  {
    EightShifts(0x77B79C19, 0xD6634D2C, 0x6B31A696, 0x3598D34B, 0xF774EA85,
      0x9602F662, 0x4B017B31, 0xC8383EB8, 0x641C1F5C);
    FeedByte(0x77B79C2D, 0x34, 0x77B79C19, 0x641C1F5C, rest);
  }

  lemma CheckByteFive(rest: seq<bv8>)
    ensures REGISTER.Feed(0x641C1F5C, BitsOf([0x35] + rest)) == REGISTER.Feed(0x340AC5E3, BitsOf(rest))
  {
    EightShifts(0x641C1F69, 0xDFB68C94, 0x6FDB464A, 0x37EDA325, 0xF64E52B2,
      0x7B272959, 0xD02B178C, 0x68158BC6, 0x340AC5E3);
    FeedByte(0x641C1F5C, 0x35, 0x641C1F69, 0x340AC5E3, rest);
  }

  lemma CheckByteSix(rest: seq<bv8>)
    ensures REGISTER.Feed(0x340AC5E3, BitsOf([0x36] + rest)) == REGISTER.Feed(0xF68D2C9E, BitsOf(rest))
  {
    EightShifts(0x340AC5D5, 0xF7BDE1CA, 0x7BDEF0E5, 0xD057FB52, 0x682BFDA9,
      0xD9AD7DF4, 0x6CD6BEFA, 0x366B5F7D, 0xF68D2C9E);
    FeedByte(0x340AC5E3, 0x36, 0x340AC5D5, 0xF68D2C9E, rest);
  }

  lemma CheckByteSeven(rest: seq<bv8>)
    ensures REGISTER.Feed(0xF68D2C9E, BitsOf([0x37] + rest)) == REGISTER.Feed(0xAFFC9660, BitsOf(rest))
  {
    EightShifts(0xF68D2CA9, 0x96FE1574, 0x4B7F0ABA, 0x25BF855D, 0xFF67418E,
      0x7FB3A0C7, 0xD2615343, 0x84882A81, 0xAFFC9660);
    FeedByte(0xF68D2C9E, 0x37, 0xF68D2CA9, 0xAFFC9660, rest);
  }

  lemma CheckByteEight(rest: seq<bv8>)
    ensures REGISTER.Feed(0xAFFC9660, BitsOf([0x38] + rest)) == REGISTER.Feed(0x651F2550, BitsOf(rest))
  {
    EightShifts(0xAFFC9658, 0x57FE4B2C, 0x2BFF2596, 0x15FF92CB, 0xE7474A45,
      0x9E1B2602, 0x4F0D9301, 0xCA3E4AA0, 0x651F2550);
    FeedByte(0xAFFC9660, 0x38, 0xAFFC9658, 0x651F2550, rest);
  }

  lemma CheckByteNine(rest: seq<bv8>)
    ensures REGISTER.Feed(0x651F2550, BitsOf([0x39] + rest)) == REGISTER.Feed(0x340BC6D9, BitsOf(rest))
  {
    EightShifts(0x651F2569, 0xDF371194, 0x6F9B88CA, 0x37CDC465, 0xF65E6112,
      0x7B2F3089, 0xD02F1B64, 0x68178DB2, 0x340BC6D9);
    FeedByte(0x651F2550, 0x39, 0x651F2569, 0x340BC6D9, rest);
  }

  lemma FirstThree(rest: seq<bv8>)
    ensures REGISTER.Feed(0xFFFFFFFF, BitsOf([0x31] + ([0x32] + ([0x33] + rest)))) ==
      REGISTER.Feed(0x77B79C2D, BitsOf(rest))
  {
    CheckByteOne([0x32] + ([0x33] + rest));
    CheckByteTwo([0x33] + rest);
    CheckByteThree(rest);
  }

  lemma NextThree(rest: seq<bv8>)
    ensures REGISTER.Feed(0x77B79C2D, BitsOf([0x34] + ([0x35] + ([0x36] + rest)))) ==
      REGISTER.Feed(0xF68D2C9E, BitsOf(rest))
  {
    CheckByteFour([0x35] + ([0x36] + rest));
    CheckByteFive([0x36] + rest);
    CheckByteSix(rest);
  }

  lemma LastThree(rest: seq<bv8>)
    ensures REGISTER.Feed(0xF68D2C9E, BitsOf([0x37] + ([0x38] + ([0x39] + rest)))) ==
      REGISTER.Feed(0x340BC6D9, BitsOf(rest))
  {
    CheckByteSeven([0x38] + ([0x39] + rest));
    CheckByteEight([0x39] + rest);
    CheckByteNine(rest);
  }

  lemma CheckInThrees()
    ensures CHECK == [0x31] + ([0x32] + ([0x33] + ([0x34] + ([0x35] + ([0x36] + ([0x37] + ([0x38] + ([0x39] + []))))))))
  {
  }

  /** The check value of CRC-32, that of the bytes of "123456789". */
  lemma CheckValue()
    ensures BitSerialCrc(BitsOf(CHECK)) == 0xCBF4_3926
  {
    var last: seq<bv8> := [0x37] + ([0x38] + ([0x39] + []));
    var middle := [0x34] + ([0x35] + ([0x36] + last));
    FirstThree(middle);
    NextThree(last);
    LastThree([]);
    CheckInThrees();
  }

  /** Which the table-driven loop gives. */
  method ComputeCheckValue() returns (r: bv32)
    ensures r == 0xCBF4_3926
  {
    var state := new CrcState();
    r := state.ComputeCrc(CHECK);
    CheckValue();
  }
}
