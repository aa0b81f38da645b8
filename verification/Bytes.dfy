/** Bytes as numbers and the fixed-width integers of the image formats. */
module Bytes {
  type byte = bv8

  /** What a decoder makes of its input. */
  datatype Decoded<+T> = Decoded(value: T) | Corrupt

  /** What one bit of a byte adds to its value. */
  function Weight(b: byte, bit: byte, weight: nat): (n: nat)
    ensures n <= weight
  {
    if b & bit == 0 then 0 else weight
  }

  function Value(b: byte): (n: nat)
    ensures n < 256
  {
    Weight(b, 0x01, 1) + Weight(b, 0x02, 2) + Weight(b, 0x04, 4) + Weight(b, 0x08, 8)
    + Weight(b, 0x10, 16) + Weight(b, 0x20, 32) + Weight(b, 0x40, 64) + Weight(b, 0x80, 128)
  }

  /** The byte with these bits, the lowest first. */
  function FromBits(b0: bool, b1: bool, b2: bool, b3: bool, b4: bool, b5: bool, b6: bool, b7: bool): byte
  {
    (if b0 then 0x01 else 0) | (if b1 then 0x02 else 0) | (if b2 then 0x04 else 0) | (if b3 then 0x08 else 0)
    | (if b4 then 0x10 else 0) | (if b5 then 0x20 else 0) | (if b6 then 0x40 else 0) | (if b7 then 0x80 else 0)
  }

  function Halved(n: nat): nat { n / 2 }

  predicate IsOdd(n: nat) { n % 2 == 1 }

  function Remain(n: nat, m: nat): nat
    requires m > 0
  {
    n % m
  }

  /** The low eight bits of a number. */
  function Low(n: nat): byte
  {
    var n4 := Halved(Halved(Halved(Halved(n))));
    FromBits(IsOdd(n), IsOdd(Halved(n)), IsOdd(Halved(Halved(n))), IsOdd(Halved(Halved(Halved(n)))),
             IsOdd(n4), IsOdd(Halved(n4)), IsOdd(Halved(Halved(n4))), IsOdd(Halved(Halved(Halved(n4)))))
  }

  lemma ValueOfBits(b0: bool, b1: bool, b2: bool, b3: bool, b4: bool, b5: bool, b6: bool, b7: bool)
    ensures Value(FromBits(b0, b1, b2, b3, b4, b5, b6, b7)) ==
            (if b0 then 1 else 0) + (if b1 then 2 else 0) + (if b2 then 4 else 0) + (if b3 then 8 else 0)
            + (if b4 then 16 else 0) + (if b5 then 32 else 0) + (if b6 then 64 else 0) + (if b7 then 128 else 0)
  {
  }

  lemma Split(n: nat, m: nat)
    requires m > 0
    ensures Remain(n, 2 * m) == (if IsOdd(n) then 1 else 0) + 2 * Remain(Halved(n), m)
  {
    LowAndRest(n, 2, m, 2 * m);
  }

  lemma NothingRemains(n: nat)
    ensures Remain(n, 1) == 0
  {
  }

  lemma ValueOfLow(n: nat)
    ensures Value(Low(n)) == n % 256
  {
    hide Value, FromBits, Halved, IsOdd;
    assert Remain(n, 256) == n % 256;
    hide Remain;
    var n4 := Halved(Halved(Halved(Halved(n))));
    ValueOfBits(IsOdd(n), IsOdd(Halved(n)), IsOdd(Halved(Halved(n))), IsOdd(Halved(Halved(Halved(n)))),
                IsOdd(n4), IsOdd(Halved(n4)), IsOdd(Halved(Halved(n4))), IsOdd(Halved(Halved(Halved(n4)))));
    Split(n, 128);
    Split(Halved(n), 64);
    Split(Halved(Halved(n)), 32);
    Split(Halved(Halved(Halved(n))), 16);
    Split(n4, 8);
    Split(Halved(n4), 4);
    Split(Halved(Halved(n4)), 2);
    Split(Halved(Halved(Halved(n4))), 1);
    NothingRemains(Halved(Halved(Halved(Halved(n4)))));
  }

  const TWO_16 := 0x1_0000
  const TWO_32 := 0x1_0000_0000

  function LittleEndian16(n: nat): (s: seq<byte>)
    ensures |s| == 2
  {
    [Low(n), Low(n / 256)]
  }

  function BigEndian32(n: nat): (s: seq<byte>)
    ensures |s| == 4
  {
    [Low(n / 256 / 256 / 256), Low(n / 256 / 256), Low(n / 256), Low(n)]
  }

  function LittleEndian32(n: nat): (s: seq<byte>)
    ensures |s| == 4
  {
    [Low(n), Low(n / 256), Low(n / 256 / 256), Low(n / 256 / 256 / 256)]
  }

  function ReadLittleEndian16(s: seq<byte>): nat
    requires |s| == 2
  {
    Value(s[0]) + 256 * Value(s[1])
  }

  function ReadBigEndian32(s: seq<byte>): nat
    requires |s| == 4
  {
    0x100_0000 * Value(s[0]) + 0x1_0000 * Value(s[1]) + 256 * Value(s[2]) + Value(s[3])
  }

  function ReadLittleEndian32(s: seq<byte>): nat
    requires |s| == 4
  {
    0x100_0000 * Value(s[3]) + 0x1_0000 * Value(s[2]) + 256 * Value(s[1]) + Value(s[0])
  }

  lemma Regrouped(base: nat, m: nat, t: nat, u: nat, r: nat)
    ensures base * (m * t + u) + r == (base * m) * t + (base * u + r)
  {
    assert base * (m * t) == (base * m) * t;
  }

  lemma BelowProduct(base: nat, m: nat, u: nat, r: nat)
    requires u < m && r < base
    ensures base * u + r < base * m
  {
    assert base * (u + 1) <= base * m;
  }

  lemma Divided(n: nat, d: nat)
    requires d > 0
    ensures n == d * (n / d) + n % d && n % d < d
  {
  }

  /** Quotient and remainder are unique. */
  lemma Remainder(n: nat, d: nat, q: nat, r: nat)
    requires d > 0 && r < d && n == d * q + r
    ensures n % d == r
  {
    var e := n / d - q;
    assert d * e == r - n % d;
    assert e == 0;
  }

  /** A number is its lowest digit and what is above it. */
  lemma LowAndRest(n: nat, base: nat, m: nat, d: nat)
    requires base > 0 && m > 0 && d == base * m
    ensures d > 0 && n % d == n % base + base * (n / base % m)
  {
    var q, r := n / base, n % base;
    Divided(n, base);
    Divided(q, m);
    BelowProduct(base, m, q % m, r);
    Regrouped(base, m, q / m, q % m, r);
    Remainder(n, d, q / m, base * (q % m) + r);
  }

  lemma LittleEndian16RoundTrip(n: nat)
    ensures ReadLittleEndian16(LittleEndian16(n)) == n % TWO_16
  {
    hide Value, Low;
    ValueOfLow(n);
    ValueOfLow(n / 256);
    LowAndRest(n, 256, 256, TWO_16);
  }

  lemma FourBytes(n: nat)
    ensures n % TWO_32 == Value(Low(n)) + 256 * Value(Low(n / 256)) + 0x1_0000 * Value(Low(n / 256 / 256))
                          + 0x100_0000 * Value(Low(n / 256 / 256 / 256))
  {
    hide Value, Low;
    ValueOfLow(n);
    ValueOfLow(n / 256);
    ValueOfLow(n / 256 / 256);
    ValueOfLow(n / 256 / 256 / 256);
    LowAndRest(n, 256, 0x100_0000, TWO_32);
    LowAndRest(n / 256, 256, 0x1_0000, 0x100_0000);
    LowAndRest(n / 256 / 256, 256, 256, 0x1_0000);
  }

  lemma BigEndian32RoundTrip(n: nat)
    ensures ReadBigEndian32(BigEndian32(n)) == n % TWO_32
  {
    hide Value, Low;
    FourBytes(n);
  }

  lemma LittleEndian32RoundTrip(n: nat)
    ensures ReadLittleEndian32(LittleEndian32(n)) == n % TWO_32
  {
    hide Value, Low;
    FourBytes(n);
  }

  // -- Words ------------------------------------------------------------------------------------

  /** A 32-bit unsigned number: arithmetic that would leave the range does not verify. */
  newtype u32 = n: int | 0 <= n < 0x1_0000_0000

  /** A word, most significant byte first. */
  function WordBytes(w: bv32): (s: seq<byte>)
    ensures |s| == 4
  {
    [((w >> 24) & 0xFF) as byte, ((w >> 16) & 0xFF) as byte, ((w >> 8) & 0xFF) as byte, (w & 0xFF) as byte]
  }

  function Word(b3: byte, b2: byte, b1: byte, b0: byte): bv32
  {
    ((b3 as bv32) << 24) | ((b2 as bv32) << 16) | ((b1 as bv32) << 8) | (b0 as bv32)
  }

  /** The bits of a number, as far as 32 of them go. */
  function Bits(n: nat): bv32
  {
    Word(Low(n / 256 / 256 / 256), Low(n / 256 / 256), Low(n / 256), Low(n))
  }

  lemma WordBytesOf(b3: byte, b2: byte, b1: byte, b0: byte)
    ensures WordBytes(Word(b3, b2, b1, b0)) == [b3, b2, b1, b0]
  {
  }

  lemma BytesOfBits(n: nat)
    ensures WordBytes(Bits(n)) == BigEndian32(n)
  {
    hide Low, Word, WordBytes;
    WordBytesOf(Low(n / 256 / 256 / 256), Low(n / 256 / 256), Low(n / 256), Low(n));
  }

  lemma SameSplit(a: nat, b: nat, m: nat)
    requires m > 0 && Remain(a, 2 * m) == Remain(b, 2 * m)
    ensures IsOdd(a) == IsOdd(b) && Remain(Halved(a), m) == Remain(Halved(b), m)
  {
    hide IsOdd, Remain, Halved;
    Split(a, m);
    Split(b, m);
  }

  /** The low byte depends on the number modulo 256 only. */
  lemma SameLow(a: nat, b: nat)
    requires a % 256 == b % 256
    ensures Low(a) == Low(b)
  {
    hide FromBits, IsOdd, Halved;
    assert Remain(a, 256) == Remain(b, 256);
    hide Remain;
    var a4, b4 := Halved(Halved(Halved(Halved(a)))), Halved(Halved(Halved(Halved(b))));
    SameSplit(a, b, 128);
    SameSplit(Halved(a), Halved(b), 64);
    SameSplit(Halved(Halved(a)), Halved(Halved(b)), 32);
    SameSplit(Halved(Halved(Halved(a))), Halved(Halved(Halved(b))), 16);
    SameSplit(a4, b4, 8);
    SameSplit(Halved(a4), Halved(b4), 4);
    SameSplit(Halved(Halved(a4)), Halved(Halved(b4)), 2);
    SameSplit(Halved(Halved(Halved(a4))), Halved(Halved(Halved(b4))), 1);
  }

  lemma LowOfZero()
    ensures Low(0) == 0
  {
  }

  lemma HalvesJoin(h1: byte, h0: byte, l1: byte, l0: byte)
    ensures (Word(0, 0, h1, h0) << 16) | Word(0, 0, l1, l0) == Word(h1, h0, l1, l0)
  {
  }

  lemma JoinedParts(high: nat, low: nat)
    requires high < TWO_16 && low < TWO_16
    ensures var n := high * TWO_16 + low;
            && n / 256 / 256 == high && n / 256 == high * 256 + low / 256
            && n % 256 == low % 256 && (n / 256) % 256 == (low / 256) % 256
            && high / 256 / 256 == 0 && low / 256 / 256 == 0
  {
  }

  /** Joining two 16-bit halves by shift and or adds them. */
  lemma ShiftOrIsSum(high: nat, low: nat)
    requires high < TWO_16 && low < TWO_16
    ensures (Bits(high) << 16) | Bits(low) == Bits(high * TWO_16 + low)
  {
    hide Low, Word;
    var n := high * TWO_16 + low;
    JoinedParts(high, low);
    LowOfZero();
    SameLow(n, low);
    SameLow(n / 256, low / 256);
    HalvesJoin(Low(high / 256), Low(high), Low(low / 256), Low(low));
  }
}
