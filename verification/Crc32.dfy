/**
 The CRC-32 of the icon writer (crates/vibemux_desktop/icon.rs, `crc32`), as section 3.4 of
 RFC 2083 requires it of PNG chunks: the code computes the standard's polynomial remainder, and
 any change confined to 32 consecutive bits changes the result.
 */
module Crc32 {
  import opened Bytes

  // -- Word operations ---------------------------------------------------------------------
  // Named so that a proof can hide them and reason about the functions alone.

  function Xor(x: bv32, y: bv32): bv32 { x ^ y }

  function Half(x: bv32): bv32 { x >> 1 }

  predicate Odd(x: bv32) { x & 1 == 1 }

  function Complement(x: bv32): bv32 { !x }

  function Widen(b: byte): bv32 { b as bv32 }

  function Double(x: bv32): bv32 { x << 1 }

  predicate TopBit(x: bv32) { x & 0x8000_0000 != 0 }

  const POLYNOMIAL: bv32 := 0xEDB8_8320

  const ONES: bv32 := 0xFFFF_FFFF

  // -- The loop as a function --------------------------------------------------------------

  function BitStep(crc: bv32): bv32
  {
    Xor(Half(crc), if Odd(crc) then POLYNOMIAL else 0)
  }

  function Steps(crc: bv32, n: nat): bv32
    decreases n
  {
    if n == 0 then crc else Steps(BitStep(crc), n - 1)
  }

  function ByteStep(crc: bv32, b: byte): bv32
  {
    Steps(Xor(crc, Widen(b)), 8)
  }

  function State(crc: bv32, data: seq<byte>): bv32
    decreases |data|
  {
    if data == [] then crc else State(ByteStep(crc, data[0]), data[1..])
  }

  function Crc(data: seq<byte>): bv32
  {
    Complement(State(ONES, data))
  }

  method Compute(data: seq<byte>) returns (result: bv32)
    ensures result == Crc(data)
  {
    hide Xor, Half, Odd, Complement, Widen;
    var crc := ONES;
    for i := 0 to |data|
      invariant State(crc, data[i..]) == State(ONES, data)
    {
      assert data[i..][0] == data[i] && data[i..][1..] == data[i + 1..];
      ghost var before := crc;
      crc := Xor(crc, Widen(data[i]));
      for k := 0 to 8
        invariant Steps(crc, 8 - k) == ByteStep(before, data[i])
      {
        var mask := if Odd(crc) then POLYNOMIAL else 0;
        crc := Xor(Half(crc), mask);
      }
    }
    assert data[|data|..] == [];
    result := Complement(crc);
  }

  // -- Word facts ----------------------------------------------------------------------------

  lemma XorZero(x: bv32)
    ensures Xor(x, 0) == x
  {
  }

  lemma XorCommutes(x: bv32, y: bv32)
    ensures Xor(x, y) == Xor(y, x)
  {
  }

  lemma XorAssociates(x: bv32, y: bv32, z: bv32)
    ensures Xor(Xor(x, y), z) == Xor(x, Xor(y, z))
  {
  }

  lemma XorCancels(x: bv32, y: bv32, z: bv32)
    requires Xor(z, x) == Xor(z, y)
    ensures x == y
  {
  }

  lemma ComplementInjective(x: bv32, y: bv32)
    requires Complement(x) == Complement(y)
    ensures x == y
  {
  }

  lemma XorOdd(x: bv32, y: bv32)
    ensures Odd(Xor(x, y)) <==> Odd(x) != Odd(y)
  {
  }

  lemma XorHalf(x: bv32, y: bv32)
    ensures Half(Xor(x, y)) == Xor(Half(x), Half(y))
  {
  }

  lemma XorTwice(x: bv32, y: bv32, p: bv32)
    ensures Xor(Xor(x, p), Xor(y, p)) == Xor(x, y)
  {
    hide Xor;
    XorCommutes(y, p);
    XorAssociates(x, p, Xor(p, y));
    XorUndone(p, y);
  }

  lemma XorUndone(p: bv32, y: bv32)
    ensures Xor(p, Xor(p, y)) == y
  {
  }

  // -- Steps are linear and injective ----------------------------------------------------------

  lemma BitStepLinear(x: bv32, y: bv32)
    ensures BitStep(Xor(x, y)) == Xor(BitStep(x), BitStep(y))
  {
    hide Xor, Half, Odd;
    var a, b := Half(x), Half(y);
    XorOdd(x, y);
    XorHalf(x, y);
    XorZero(a);
    XorZero(b);
    XorZero(Xor(a, b));
    if Odd(x) && Odd(y) {
      XorTwice(a, b, POLYNOMIAL);
    } else if Odd(x) {
      XorAssociates(a, POLYNOMIAL, b);
      XorCommutes(POLYNOMIAL, b);
      XorAssociates(a, b, POLYNOMIAL);
    } else if Odd(y) {
      XorAssociates(a, b, POLYNOMIAL);
    }
  }

  lemma BitStepInjective(x: bv32, y: bv32)
    requires BitStep(x) == BitStep(y)
    ensures x == y
  {
  }

  lemma {:induction false} StepsInjective(x: bv32, y: bv32, n: nat)
    requires Steps(x, n) == Steps(y, n)
    ensures x == y
    decreases n
  {
    hide BitStep;
    if n > 0 {
      StepsInjective(BitStep(x), BitStep(y), n - 1);
      BitStepInjective(x, y);
    }
  }

  lemma {:induction false} StepsAdd(x: bv32, m: nat, n: nat)
    ensures Steps(Steps(x, m), n) == Steps(x, m + n)
    decreases m
  {
    hide BitStep;
    if m > 0 {
      StepsAdd(BitStep(x), m - 1, n);
    }
  }

  /** Eight steps, written out. */
  function Eight(x: bv32): bv32
  {
    BitStep(BitStep(BitStep(BitStep(BitStep(BitStep(BitStep(BitStep(x))))))))
  }

  lemma EightIsSteps(x: bv32)
    ensures Steps(x, 8) == Eight(x)
  {
    hide BitStep;
    FourSteps(x);
    FourSteps(BitStep(BitStep(BitStep(BitStep(x)))));
    StepsAdd(x, 4, 4);
  }

  lemma FourSteps(x: bv32)
    ensures Steps(x, 4) == BitStep(BitStep(BitStep(BitStep(x))))
  {
    hide BitStep;
    var a := BitStep(x);
    var b := BitStep(a);
    var c := BitStep(b);
    assert Steps(c, 1) == Steps(BitStep(c), 0);
    assert Steps(b, 2) == Steps(c, 1);
    assert Steps(a, 3) == Steps(b, 2);
  }

  // -- The standard's definition ---------------------------------------------------------------

  /** Division by x^32 + x^26 + x^23 + x^22 + x^16 + x^12 + x^11 + x^10 + x^8 + x^7 + x^5 + x^4 +
      x^2 + x + 1, one message bit at a time, the register's top bit first. */
  function DivideBit(register: bv32, bit: bool): bv32
  {
    Xor(Double(register), if TopBit(register) != bit then 0x04C1_1DB7 else 0)
  }

  predicate BitOf(b: byte, i: nat)
    requires i < 8
  {
    (b >> i) & 1 == 1
  }

  /** The bits of a byte enter least significant first. */
  function DivideByte(register: bv32, b: byte): bv32
  {
    var r4 := DivideBit(DivideBit(DivideBit(DivideBit(register,
      BitOf(b, 0)), BitOf(b, 1)), BitOf(b, 2)), BitOf(b, 3));
    DivideBit(DivideBit(DivideBit(DivideBit(r4, BitOf(b, 4)), BitOf(b, 5)), BitOf(b, 6)), BitOf(b, 7))
  }

  function Divide(register: bv32, data: seq<byte>): bv32
    decreases |data|
  {
    if data == [] then register else Divide(DivideByte(register, data[0]), data[1..])
  }

  /** The word with its bits in the opposite order. */
  function Reflect(x: bv32): bv32
  {
    var a := ((x >> 1) & 0x5555_5555) | ((x & 0x5555_5555) << 1);
    var b := ((a >> 2) & 0x3333_3333) | ((a & 0x3333_3333) << 2);
    var c := ((b >> 4) & 0x0F0F_0F0F) | ((b & 0x0F0F_0F0F) << 4);
    var d := ((c >> 8) & 0x00FF_00FF) | ((c & 0x00FF_00FF) << 8);
    (d >> 16) | (d << 16)
  }

  lemma ReflectXor(x: bv32, y: bv32)
    ensures Reflect(Xor(x, y)) == Xor(Reflect(x), Reflect(y))
  {
  }

  lemma ReflectHalf(x: bv32)
    ensures Reflect(Half(x)) == Double(Reflect(x))
  {
    hide Reflect;
    ReflectShift(x);
  }

  lemma ReflectShift(x: bv32)
    ensures Reflect(x >> 1) == Reflect(x) << 1
  {
  }

  lemma ReflectConstants()
    ensures Reflect(POLYNOMIAL) == 0x04C1_1DB7 && Reflect(0) == 0 && Reflect(ONES) == ONES
  {
  }

  lemma ReflectTop(x: bv32)
    ensures TopBit(Reflect(x)) <==> Odd(x)
  {
  }

  lemma ReflectTwice(x: bv32)
    ensures Reflect(Reflect(x)) == x
  {
  }

  /** A step of the code's loop that takes one message bit at that step. */
  function SerialBit(x: bv32, bit: bool): bv32
  {
    Xor(Half(x), if Odd(x) != bit then POLYNOMIAL else 0)
  }

  lemma ReflectedBit(x: bv32, bit: bool)
    ensures Reflect(SerialBit(x, bit)) == DivideBit(Reflect(x), bit)
  {
    hide Reflect, Xor, Half, Odd, Double, TopBit;
    ReflectTop(x);
    ReflectHalf(x);
    ReflectConstants();
    ReflectXor(Half(x), if Odd(x) != bit then POLYNOMIAL else 0);
  }

  function SerialByte(x: bv32, b: byte): bv32
  {
    var r4 := SerialBit(SerialBit(SerialBit(SerialBit(x,
      BitOf(b, 0)), BitOf(b, 1)), BitOf(b, 2)), BitOf(b, 3));
    SerialBit(SerialBit(SerialBit(SerialBit(r4, BitOf(b, 4)), BitOf(b, 5)), BitOf(b, 6)), BitOf(b, 7))
  }

  lemma ReflectedByte(x: bv32, b: byte)
    ensures Reflect(SerialByte(x, b)) == DivideByte(Reflect(x), b)
  {
    hide Reflect, SerialBit, DivideBit, BitOf;
    var r1 := SerialBit(x, BitOf(b, 0));
    var r2 := SerialBit(r1, BitOf(b, 1));
    var r3 := SerialBit(r2, BitOf(b, 2));
    var r4 := SerialBit(r3, BitOf(b, 3));
    var r5 := SerialBit(r4, BitOf(b, 4));
    var r6 := SerialBit(r5, BitOf(b, 5));
    var r7 := SerialBit(r6, BitOf(b, 6));
    ReflectedBit(x, BitOf(b, 0));
    ReflectedBit(r1, BitOf(b, 1));
    ReflectedBit(r2, BitOf(b, 2));
    ReflectedBit(r3, BitOf(b, 3));
    ReflectedBit(r4, BitOf(b, 4));
    ReflectedBit(r5, BitOf(b, 5));
    ReflectedBit(r6, BitOf(b, 6));
    ReflectedBit(r7, BitOf(b, 7));
  }

  /** A message bit, taken at its step, adds the polynomial or nothing. */
  lemma SerialBitIs(x: bv32, bit: bool)
    ensures SerialBit(x, bit) == Xor(BitStep(x), if bit then POLYNOMIAL else 0)
  {
    hide Xor, Half, Odd;
    var a := Half(x);
    XorZero(BitStep(x));
    if Odd(x) && bit {
      XorCommutes(a, POLYNOMIAL);
      XorUndone(POLYNOMIAL, a);
      XorCommutes(Xor(POLYNOMIAL, a), POLYNOMIAL);
      XorZero(a);
    } else {
      XorZero(a);
    }
  }

  /** Taking a message bit at its step leaves the rest of the message where taking all of it
      beforehand does. */
  lemma BitTakenEarly(x: bv32, message: bv32)
    ensures BitStep(Xor(x, message)) == Xor(SerialBit(x, Odd(message)), Half(message))
  {
    hide Xor, Half, Odd;
    var m, p := Half(message), if Odd(message) then POLYNOMIAL else 0;
    BitStepLinear(x, message);
    SerialBitIs(x, Odd(message));
    XorCommutes(m, p);
    XorAssociates(BitStep(x), p, m);
  }

  lemma BitsOfByte(b: byte)
    ensures var w := Widen(b);
            && Odd(w) == BitOf(b, 0) && Odd(Half(w)) == BitOf(b, 1) && Odd(Half(Half(w))) == BitOf(b, 2)
            && Odd(Half(Half(Half(w)))) == BitOf(b, 3) && Odd(Half(Half(Half(Half(w))))) == BitOf(b, 4)
            && Odd(Half(Half(Half(Half(Half(w)))))) == BitOf(b, 5)
            && Odd(Half(Half(Half(Half(Half(Half(w))))))) == BitOf(b, 6)
            && Odd(Half(Half(Half(Half(Half(Half(Half(w)))))))) == BitOf(b, 7)
            && Half(Half(Half(Half(Half(Half(Half(Half(w)))))))) == 0
  {
  }

  lemma EightIsSerial(x: bv32, b: byte)
    ensures Eight(Xor(x, Widen(b))) == SerialByte(x, b)
  {
    hide BitStep, SerialBit, BitOf, Xor, Half, Odd, Widen;
    BitsOfByte(b);
    var w := Widen(b);
    var r1 := SerialBit(x, BitOf(b, 0));
    var r2 := SerialBit(r1, BitOf(b, 1));
    var r3 := SerialBit(r2, BitOf(b, 2));
    var r4 := SerialBit(r3, BitOf(b, 3));
    var r5 := SerialBit(r4, BitOf(b, 4));
    var r6 := SerialBit(r5, BitOf(b, 5));
    var r7 := SerialBit(r6, BitOf(b, 6));
    BitTakenEarly(x, w);
    BitTakenEarly(r1, Half(w));
    BitTakenEarly(r2, Half(Half(w)));
    BitTakenEarly(r3, Half(Half(Half(w))));
    BitTakenEarly(r4, Half(Half(Half(Half(w)))));
    BitTakenEarly(r5, Half(Half(Half(Half(Half(w))))));
    BitTakenEarly(r6, Half(Half(Half(Half(Half(Half(w)))))));
    BitTakenEarly(r7, Half(Half(Half(Half(Half(Half(Half(w))))))));
    XorZero(SerialByte(x, b));
  }

  lemma {:induction false} StateIsDivision(x: bv32, data: seq<byte>)
    ensures Reflect(State(x, data)) == Divide(Reflect(x), data)
    decreases |data|
  {
    hide Reflect, Steps, Eight, SerialByte, DivideByte, Xor, Widen;
    if data != [] {
      var b := data[0];
      EightIsSteps(Xor(x, Widen(b)));
      EightIsSerial(x, b);
      ReflectedByte(x, b);
      StateIsDivision(ByteStep(x, b), data[1..]);
    }
  }

  /** The code computes the standard's CRC: the remainder of the message, bits least significant
      first, after a register of ones, by the standard polynomial; reflected and complemented. */
  lemma CrcIsPolynomialDivision(data: seq<byte>)
    ensures Crc(data) == Complement(Reflect(Divide(ONES, data)))
  {
    hide Reflect, Complement, Divide, State;
    StateIsDivision(ONES, data);
    ReflectConstants();
    ReflectTwice(State(ONES, data));
  }

  // -- The message as bits --------------------------------------------------------------------

  /** Bit `j` of a message, in the order in which its bits are taken: byte by byte, the least
      significant bit of each first. */
  predicate BitAt(data: seq<byte>, j: nat)
    requires j < 8 * |data|
  {
    BitOf(data[j / 8], j % 8)
  }

  function Message(data: seq<byte>): seq<bool>
  {
    seq(8 * |data|, j requires 0 <= j < 8 * |data| => BitAt(data, j))
  }

  function EightBits(b: byte): seq<bool>
  {
    [BitOf(b, 0), BitOf(b, 1), BitOf(b, 2), BitOf(b, 3), BitOf(b, 4), BitOf(b, 5), BitOf(b, 6), BitOf(b, 7)]
  }

  lemma FirstByte(data: seq<byte>)
    requires data != []
    ensures Message(data) == EightBits(data[0]) + Message(data[1..])
  {
    hide BitOf;
    var bits := EightBits(data[0]) + Message(data[1..]);
    forall j | 0 <= j < 8 * |data|
      ensures Message(data)[j] == bits[j]
    {
      if j < 8 {
        assert data[j / 8] == data[0];
        assert j == 0 || j == 1 || j == 2 || j == 3 || j == 4 || j == 5 || j == 6 || j == 7;
      } else {
        assert (j - 8) / 8 == j / 8 - 1 && (j - 8) % 8 == j % 8;
        assert data[1..][j / 8 - 1] == data[j / 8];
      }
    }
  }

  function Serial(x: bv32, bits: seq<bool>): bv32
    decreases |bits|
  {
    if bits == [] then x else Serial(SerialBit(x, bits[0]), bits[1..])
  }

  lemma {:induction false} SerialConcat(x: bv32, a: seq<bool>, b: seq<bool>)
    ensures Serial(x, a + b) == Serial(Serial(x, a), b)
    decreases |a|
  {
    hide SerialBit;
    if a == [] {
      assert a + b == b;
    } else {
      assert (a + b)[0] == a[0] && (a + b)[1..] == a[1..] + b;
      SerialConcat(SerialBit(x, a[0]), a[1..], b);
    }
  }

  lemma SerialFour(x: bv32, a: bool, b: bool, c: bool, d: bool)
    ensures Serial(x, [a, b, c, d]) == SerialBit(SerialBit(SerialBit(SerialBit(x, a), b), c), d)
  {
    hide SerialBit;
    var bits := [a, b, c, d];
    assert bits[1..] == [b, c, d] && [b, c, d][1..] == [c, d] && [c, d][1..] == [d];
    var none: seq<bool> := [];
    assert [d][1..] == none;
    var r2 := SerialBit(SerialBit(x, a), b);
    assert Serial(SerialBit(r2, c), [d]) == Serial(SerialBit(SerialBit(r2, c), d), none);
    assert Serial(r2, [c, d]) == Serial(SerialBit(r2, c), [d]);
    assert Serial(SerialBit(x, a), [b, c, d]) == Serial(r2, [c, d]);
  }

  lemma SerialEight(x: bv32, b: byte)
    ensures Serial(x, EightBits(b)) == SerialByte(x, b)
  {
    hide SerialBit, BitOf, Serial;
    var low := [BitOf(b, 0), BitOf(b, 1), BitOf(b, 2), BitOf(b, 3)];
    var high := [BitOf(b, 4), BitOf(b, 5), BitOf(b, 6), BitOf(b, 7)];
    assert EightBits(b) == low + high;
    SerialConcat(x, low, high);
    SerialFour(x, BitOf(b, 0), BitOf(b, 1), BitOf(b, 2), BitOf(b, 3));
    SerialFour(Serial(x, low), BitOf(b, 4), BitOf(b, 5), BitOf(b, 6), BitOf(b, 7));
  }

  /** The code, which takes a byte and then makes eight steps, takes a bit at each step. */
  lemma {:induction false} StateIsSerial(x: bv32, data: seq<byte>)
    ensures State(x, data) == Serial(x, Message(data))
    decreases |data|
  {
    hide Steps, Eight, SerialByte, Serial, EightBits, Xor, Widen, BitAt;
    if data == [] {
      assert Message(data) == [];
      NoBits(x);
    } else {
      var b := data[0];
      EightIsSteps(Xor(x, Widen(b)));
      EightIsSerial(x, b);
      SerialEight(x, b);
      FirstByte(data);
      SerialConcat(x, EightBits(b), Message(data[1..]));
      StateIsSerial(ByteStep(x, b), data[1..]);
    }
  }

  lemma NoBits(x: bv32)
    ensures Serial(x, []) == x
  {
  }

  lemma SerialBitInjective(x: bv32, y: bv32, bit: bool)
    requires SerialBit(x, bit) == SerialBit(y, bit)
    ensures x == y
  {
  }

  /** The same bits never merge two different states. */
  lemma {:induction false} SerialInjective(x: bv32, y: bv32, bits: seq<bool>)
    requires Serial(x, bits) == Serial(y, bits)
    ensures x == y
    decreases |bits|
  {
    hide SerialBit;
    if bits != [] {
      SerialInjective(SerialBit(x, bits[0]), SerialBit(y, bits[0]), bits[1..]);
      SerialBitInjective(x, y, bits[0]);
    }
  }

  // -- Up to 32 bits act as one word --------------------------------------------------------------

  function BitWord(bit: bool): bv32 { if bit then 1 else 0 }

  /** The bits as a word, the first one lowest. */
  function WordOf(bits: seq<bool>): bv32
  {
    if bits == [] then 0 else Xor(BitWord(bits[0]), Double(WordOf(bits[1..])))
  }

  function HalfTimes(x: bv32, n: nat): bv32
    decreases n
  {
    if n == 0 then x else HalfTimes(Half(x), n - 1)
  }

  lemma {:induction false} HalfTimesAdd(x: bv32, m: nat, n: nat)
    ensures HalfTimes(HalfTimes(x, m), n) == HalfTimes(x, m + n)
    decreases m
  {
    hide Half;
    if m > 0 {
      HalfTimesAdd(Half(x), m - 1, n);
    }
  }

  lemma {:induction false} HalvesOfZero(n: nat)
    ensures HalfTimes(0, n) == 0
  {
    if n > 0 {
      HalvesOfZero(n - 1);
    }
  }

  function Sixteenth(x: bv32): bv32 { x >> 4 }

  lemma FourHalves(x: bv32)
    ensures HalfTimes(x, 4) == Sixteenth(x)
  {
    hide Half, Sixteenth;
    ThreeHalves(Half(x));
    ShiftedFour(x);
  }

  lemma ThreeHalves(x: bv32)
    ensures HalfTimes(x, 3) == Half(Half(Half(x)))
  {
    hide Half;
    var a := Half(x);
    var b := Half(a);
    assert HalfTimes(b, 1) == HalfTimes(Half(b), 0);
    assert HalfTimes(a, 2) == HalfTimes(b, 1);
  }

  lemma ShiftedFour(x: bv32)
    ensures Half(Half(Half(Half(x)))) == Sixteenth(x)
  {
  }

  lemma FourMore(x: bv32, n: nat)
    ensures HalfTimes(x, 4 + n) == HalfTimes(Sixteenth(x), n)
  {
    hide HalfTimes, Sixteenth;
    FourHalves(x);
    HalfTimesAdd(x, 4, n);
  }

  lemma TopIsLast(w: bv32)
    ensures TopBit(w) ==>
              Half(Half(Half(Sixteenth(Sixteenth(Sixteenth(Sixteenth(Sixteenth(Sixteenth(Sixteenth(w)))))))))) != 0
  {
  }

  lemma ThirtyOneHalves(w: bv32)
    requires HalfTimes(w, 31) == 0
    ensures !TopBit(w)
  {
    hide HalfTimes, Half, Sixteenth, TopBit;
    var a := Sixteenth(w);
    var b := Sixteenth(a);
    var c := Sixteenth(b);
    var d := Sixteenth(c);
    var e := Sixteenth(d);
    var f := Sixteenth(e);
    FourMore(w, 27);
    FourMore(a, 23);
    FourMore(b, 19);
    FourMore(c, 15);
    FourMore(d, 11);
    FourMore(e, 7);
    FourMore(f, 3);
    ThreeHalves(Sixteenth(f));
    TopIsLast(w);
  }

  /** A word that fits into 31 bits has a clear top bit. */
  lemma ShortIsClear(w: bv32, n: nat)
    requires n <= 31 && HalfTimes(w, n) == 0
    ensures !TopBit(w)
  {
    hide HalfTimes, TopBit;
    HalfTimesAdd(w, n, 31 - n);
    HalvesOfZero(31 - n);
    ThirtyOneHalves(w);
  }

  lemma Shifted(bit: bool, w: bv32)
    requires !TopBit(w)
    ensures var x := Xor(BitWord(bit), Double(w));
            Odd(x) == bit && Half(x) == w
  {
  }

  /** The first bit is the lowest, the others are the half. */
  lemma {:induction false} WordParts(bits: seq<bool>)
    requires |bits| <= 32
    ensures HalfTimes(WordOf(bits), |bits|) == 0
    ensures bits != [] ==> Odd(WordOf(bits)) == bits[0] && Half(WordOf(bits)) == WordOf(bits[1..])
  {
    hide Xor, Double, Half, Odd, BitWord, TopBit;
    if bits != [] {
      WordParts(bits[1..]);
      ShortIsClear(WordOf(bits[1..]), |bits| - 1);
      Shifted(bits[0], WordOf(bits[1..]));
    }
  }

  /** Taking up to 32 bits one by one is taking them all at once, then making their steps. */
  lemma {:induction false} SerialIsWord(x: bv32, bits: seq<bool>)
    requires |bits| <= 32
    ensures Serial(x, bits) == Steps(Xor(x, WordOf(bits)), |bits|)
    decreases |bits|
  {
    hide BitStep, SerialBit, Xor, Double, Half, Odd, HalfTimes, BitWord;
    if bits == [] {
      XorZero(x);
    } else {
      WordParts(bits);
      BitTakenEarly(x, WordOf(bits));
      SerialIsWord(SerialBit(x, bits[0]), bits[1..]);
    }
  }

  lemma {:induction false} WordInjective(a: seq<bool>, b: seq<bool>)
    requires |a| == |b| <= 32 && WordOf(a) == WordOf(b)
    ensures a == b
  {
    hide WordOf, Half, Odd, HalfTimes;
    if a != [] {
      WordParts(a);
      WordParts(b);
      WordInjective(a[1..], b[1..]);
      assert a == [a[0]] + a[1..] && b == [b[0]] + b[1..];
    }
  }

  // -- Bursts -----------------------------------------------------------------------------------------

  /** The bits outside 32 consecutive ones are the same. */
  predicate SameOutside(x: seq<byte>, y: seq<byte>, at: nat)
    requires |x| == |y|
  {
    forall j :: 0 <= j < 8 * |x| && !(at <= j < at + 32) ==> BitAt(x, j) == BitAt(y, j)
  }

  lemma WindowDecides(s: bv32, a: seq<bool>, b: seq<bool>, suffix: seq<bool>)
    requires |a| == |b| <= 32 && Serial(Serial(s, a), suffix) == Serial(Serial(s, b), suffix)
    ensures a == b
  {
    hide Serial, Steps, WordOf, Xor;
    SerialInjective(Serial(s, a), Serial(s, b), suffix);
    SerialIsWord(s, a);
    SerialIsWord(s, b);
    StepsInjective(Xor(s, WordOf(a)), Xor(s, WordOf(b)), |a|);
    XorCancels(WordOf(a), WordOf(b), s);
    WordInjective(a, b);
  }

  lemma SameBits(a: byte, b: byte)
    requires EightBits(a) == EightBits(b)
    ensures a == b
  {
    var x, y := EightBits(a), EightBits(b);
    assert x[0] == y[0] && x[1] == y[1] && x[2] == y[2] && x[3] == y[3];
    assert x[4] == y[4] && x[5] == y[5] && x[6] == y[6] && x[7] == y[7];
  }

  lemma {:induction false} MessageInjective(x: seq<byte>, y: seq<byte>)
    requires |x| == |y| && Message(x) == Message(y)
    ensures x == y
  {
    hide Message;
    if x != [] {
      FirstByte(x);
      FirstByte(y);
      var a, b := EightBits(x[0]), EightBits(y[0]);
      assert Message(x)[..8] == a && Message(y)[..8] == b;
      assert Message(x)[8..] == Message(x[1..]) && Message(y)[8..] == Message(y[1..]);
      SameBits(x[0], y[0]);
      MessageInjective(x[1..], y[1..]);
      assert x == [x[0]] + x[1..] && y == [y[0]] + y[1..];
    }
  }

  /** Burst detection. Two byte strings of equal length that differ, and differ only within 32
      consecutive bits at any offset, never have the same CRC. */
  lemma BurstIsDetected(x: seq<byte>, y: seq<byte>, at: nat)
    requires |x| == |y| && x != y && SameOutside(x, y, at)
    ensures Crc(x) != Crc(y)
  {
    hide State, Serial, Complement, BitAt;
    var p, q, n := Message(x), Message(y), 8 * |x|;
    var from := if at <= n then at else n;
    var end := if at + 32 <= n then at + 32 else n;
    assert p[..from] == q[..from] && p[end..] == q[end..];
    if Crc(x) == Crc(y) {
      ComplementInjective(State(ONES, x), State(ONES, y));
      StateIsSerial(ONES, x);
      StateIsSerial(ONES, y);
      Cut(p, from, end);
      Cut(q, from, end);
      WindowDecides(Serial(ONES, p[..from]), p[from..end], q[from..end], p[end..]);
      assert p == p[..from] + p[from..end] + p[end..] && q == q[..from] + q[from..end] + q[end..];
      MessageInjective(x, y);
    }
  }

  lemma Cut(bits: seq<bool>, from: nat, end: nat)
    requires from <= end <= |bits|
    ensures Serial(ONES, bits) == Serial(Serial(Serial(ONES, bits[..from]), bits[from..end]), bits[end..])
  {
    hide Serial;
    SerialConcat(ONES, bits[..from] + bits[from..end], bits[end..]);
    SerialConcat(ONES, bits[..from], bits[from..end]);
    assert bits == (bits[..from] + bits[from..end]) + bits[end..];
  }

  /** In particular, a difference confined to four consecutive bytes is detected. */
  lemma ByteBurstIsDetected(x: seq<byte>, y: seq<byte>, at: nat)
    requires |x| == |y| && x != y
    requires forall i :: 0 <= i < |x| && !(at <= i < at + 4) ==> x[i] == y[i]
    ensures Crc(x) != Crc(y)
  {
    hide BitOf, Crc;
    forall j | 0 <= j < 8 * |x| && !(8 * at <= j < 8 * at + 32)
      ensures BitAt(x, j) == BitAt(y, j)
    {
      assert x[j / 8] == y[j / 8];
    }
    BurstIsDetected(x, y, 8 * at);
  }
}
