/**
 The Adler-32 of the icon writer (crates/vibemux_desktop/icon.rs, `adler32`), as section 2.2 of
 RFC 1950 defines it.
 */
module Adler32 {
  import opened Bytes

  const BASE := 65521

  // -- The closed form ------------------------------------------------------------------------

  function Sum(data: seq<byte>): nat
  {
    if data == [] then 0 else Value(data[0]) + Sum(data[1..])
  }

  /** The first byte weighs as much as there are bytes, the last weighs one. */
  function Weighted(data: seq<byte>): nat
  {
    if data == [] then 0 else |data| * Value(data[0]) + Weighted(data[1..])
  }

  function Low16(data: seq<byte>): nat
  {
    (1 + Sum(data)) % BASE
  }

  function High16(data: seq<byte>): nat
  {
    (|data| + Weighted(data)) % BASE
  }

  function Adler(data: seq<byte>): (checksum: nat)
    ensures checksum < TWO_32
  {
    High16(data) * TWO_16 + Low16(data)
  }

  // -- The loop -------------------------------------------------------------------------------

  lemma {:induction false} SumAppend(data: seq<byte>, b: byte)
    ensures Sum(data + [b]) == Sum(data) + Value(b)
  {
    if data == [] {
      assert (data + [b])[1..] == [];
    } else {
      assert (data + [b])[1..] == data[1..] + [b];
      SumAppend(data[1..], b);
    }
  }

  /** One more byte raises every weight by one. */
  lemma {:induction false} WeightedAppend(data: seq<byte>, b: byte)
    ensures Weighted(data + [b]) == Weighted(data) + Sum(data) + Value(b)
  {
    hide Value;
    if data == [] {
      assert (data + [b])[1..] == [];
    } else {
      assert (data + [b])[1..] == data[1..] + [b];
      WeightedAppend(data[1..], b);
      OnceMore(|data|, Value(data[0]));
    }
  }

  lemma OnceMore(n: nat, v: nat)
    ensures (n + 1) * v == n * v + v
  {
  }

  lemma AddModulo(a: nat, b: nat)
    ensures (a % BASE + b) % BASE == (a + b) % BASE
  {
  }

  /** The code's loop on 32-bit numbers, none of whose additions leaves the range, and its join of
      the two sums by shift and or: the bits of the closed form. */
  method Compute(data: seq<byte>) returns (checksum: bv32)
    ensures checksum == Bits(Adler(data))
  {
    hide Bits;
    var low, high: u32 := 1, 0;
    assert data[..0] == [];
    EmptySums();
    for i := 0 to |data|
      invariant low as nat == Low16(data[..i]) && high as nat == High16(data[..i])
    {
      hide Low16, High16, Value;
      assert data[..i + 1] == data[..i] + [data[i]];
      Sums(data[..i]);
      OneMore(data[..i], data[i]);
      low := (low + Value(data[i]) as u32) % 65521;
      high := (high + low) % 65521;
    }
    assert data[..|data|] == data;
    Sums(data);
    ShiftOrIsSum(high as nat, low as nat);
    checksum := (Bits(high as nat) << 16) | Bits(low as nat);
  }

  lemma Sums(data: seq<byte>)
    ensures Low16(data) < BASE && High16(data) < BASE
  {
  }

  /** One turn of the loop, in numbers. */
  lemma OneMore(data: seq<byte>, b: byte)
    ensures Low16(data + [b]) == (Low16(data) + Value(b)) % BASE
    ensures High16(data + [b]) == (High16(data) + Low16(data + [b])) % BASE
  {
    hide Sum, Weighted, Value;
    SumAppend(data, b);
    WeightedAppend(data, b);
    AddModulo(1 + Sum(data), Value(b));
    SumModulo(|data| + Weighted(data), 1 + Sum(data) + Value(b));
  }

  lemma EmptySums()
    ensures Sum([]) == 0 && Weighted([]) == 0
  {
  }

  lemma SumModulo(a: nat, b: nat)
    ensures (a % BASE + b % BASE) % BASE == (a + b) % BASE
  {
  }
}
