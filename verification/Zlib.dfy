/**
 The stored-block zlib stream of the icon writer (crates/vibemux_desktop/icon.rs, `zlib_stored`)
 against a decoder for section 2.2 of RFC 1950 and section 3.2.4 of RFC 1951.
 */
module Zlib {
  import opened Adler32
  import opened Bytes

  const LIMIT := 65535

  // -- The writer -----------------------------------------------------------------------------

  /** One stored block: a final-block flag, the length, its complement and the data. */
  function Block(last: bool, data: seq<byte>): seq<byte>
    requires |data| <= LIMIT
  {
    [Low(if last then 1 else 0)] + LittleEndian16(|data|) + LittleEndian16(LIMIT - |data|) + data
  }

  function Blocks(data: seq<byte>): seq<byte>
  {
    if |data| <= LIMIT then Block(true, data)
    else Block(false, data[..LIMIT]) + Blocks(data[LIMIT..])
  }

  function Stream(data: seq<byte>): seq<byte>
  {
    [Low(0x78), Low(0x01)] + Blocks(data) + BigEndian32(Adler(data))
  }

  method Write(data: seq<byte>) returns (out: seq<byte>)
    ensures out == Stream(data)
  {
    hide Block, Adler, BigEndian32, Low, Bits, WordBytes;
    ghost var header := [Low(0x78), Low(0x01)];
    out := [Low(0x78), Low(0x01)];
    var offset := 0;
    var last := false;
    assert data[0..] == data;
    while !last
      invariant offset <= |data|
      invariant if last then out == header + Blocks(data) else out + Blocks(data[offset..]) == header + Blocks(data)
      decreases if last then 0 else 1 + |data| - offset
    {
      var length := if |data| - offset <= LIMIT then |data| - offset else LIMIT;
      last := offset + length >= |data|;
      ghost var before := out;
      out := out + Block(last, data[offset..offset + length]);
      assert data[offset..][..length] == data[offset..offset + length];
      if last {
        assert data[offset..offset + length] == data[offset..];
      } else {
        assert data[offset..][LIMIT..] == data[offset + length..];
        assert out + Blocks(data[offset + length..])
            == before + (Block(last, data[offset..offset + length]) + Blocks(data[offset + length..]));
      }
      offset := offset + length;
    }
    var checksum := Compute(data);
    BytesOfBits(Adler(data));
    out := out + WordBytes(checksum);
  }

  // -- The reader -----------------------------------------------------------------------------

  /** The data of stored blocks up to and including the final one, and the bytes after it. */
  function ReadBlocks(s: seq<byte>): Decoded<(seq<byte>, seq<byte>)>
  {
    if |s| < 5 then Corrupt
    else
      var header := Value(s[0]);
      var length := ReadLittleEndian16(s[1..3]);
      if header / 2 % 4 != 0 || length + ReadLittleEndian16(s[3..5]) != LIMIT || |s| < 5 + length then Corrupt
      else
        var data, rest := s[5..5 + length], s[5 + length..];
        if header % 2 == 1 then Decoded((data, rest))
        else match ReadBlocks(rest)
          case Corrupt => Corrupt
          case Decoded(more) => Decoded((data + more.0, more.1))
  }

  function Read(s: seq<byte>): Decoded<seq<byte>>
  {
    if |s| < 2 then Corrupt
    else
      var cmf, flg := Value(s[0]), Value(s[1]);
      if cmf % 16 != 8 || cmf / 16 > 7 || (256 * cmf + flg) % 31 != 0 || flg / 32 % 2 == 1
      then Corrupt
      else match ReadBlocks(s[2..])
        case Corrupt => Corrupt
        case Decoded(blocks) =>
          if |blocks.1| != 4 || ReadBigEndian32(blocks.1) != Adler(blocks.0) then Corrupt
          else Decoded(blocks.0)
  }

  // -- Round trip -----------------------------------------------------------------------------

  /** Reading one block and what follows it. */
  lemma ReadOneBlock(last: bool, data: seq<byte>, rest: seq<byte>)
    requires |data| <= LIMIT
    ensures ReadBlocks(Block(last, data) + rest)
         == if last then Decoded((data, rest))
            else match ReadBlocks(rest)
              case Corrupt => Corrupt
              case Decoded(more) => Decoded((data + more.0, more.1))
  {
    hide Low, Value, LittleEndian16, ReadLittleEndian16;
    var s := Block(last, data) + rest;
    assert s[0] == Low(if last then 1 else 0);
    ValueOfLow(if last then 1 else 0);
    LittleEndian16RoundTrip(|data|);
    LittleEndian16RoundTrip(LIMIT - |data|);
    assert s[1..3] == LittleEndian16(|data|);
    assert s[3..5] == LittleEndian16(LIMIT - |data|);
    assert s[5..5 + |data|] == data && s[5 + |data|..] == rest;
  }

  lemma {:induction false} BlocksRoundTrip(data: seq<byte>, rest: seq<byte>)
    ensures ReadBlocks(Blocks(data) + rest) == Decoded((data, rest))
  {
    hide Block, ReadBlocks;
    if |data| <= LIMIT {
      ReadOneBlock(true, data, rest);
    } else {
      var first, more := data[..LIMIT], data[LIMIT..];
      BlocksRoundTrip(more, rest);
      ReadOneBlock(false, first, Blocks(more) + rest);
      assert Blocks(data) + rest == Block(false, first) + (Blocks(more) + rest);
      assert first + more == data;
    }
  }

  lemma HeaderIsValid()
    ensures Value(Low(0x78)) == 0x78 && Value(Low(0x01)) == 0x01
  {
    hide Value, Low;
    ValueOfLow(0x78);
    ValueOfLow(0x01);
  }

  /** Every stream the writer makes decodes to the data it was made from. */
  lemma RoundTrip(data: seq<byte>)
    ensures Read(Stream(data)) == Decoded(data)
  {
    hide Low, Value, Blocks, ReadBlocks, Adler, BigEndian32, ReadBigEndian32;
    HeaderIsValid();
    var s := Stream(data);
    assert s[2..] == Blocks(data) + BigEndian32(Adler(data));
    BlocksRoundTrip(data, BigEndian32(Adler(data)));
    BigEndian32RoundTrip(Adler(data));
  }

  /** The stream is the data, two header bytes, four checksum bytes, and five bytes for each block
      of at most 65535 bytes. */
  lemma StreamLength(data: seq<byte>)
    ensures |Stream(data)| == |data| + 6 + 5 * (if data == [] then 1 else (|data| + LIMIT - 1) / LIMIT)
  {
    BlocksLength(data);
  }

  lemma {:induction false} BlocksLength(data: seq<byte>)
    ensures |Blocks(data)| == |data| + 5 * (if data == [] then 1 else (|data| + LIMIT - 1) / LIMIT)
  {
    hide Block;
    if |data| <= LIMIT {
      BlockLength(true, data);
    } else {
      BlockLength(false, data[..LIMIT]);
      BlocksLength(data[LIMIT..]);
      OneBlockMore(|data|);
    }
  }

  lemma BlockLength(last: bool, data: seq<byte>)
    requires |data| <= LIMIT
    ensures |Block(last, data)| == 5 + |data|
  {
  }

  lemma OneBlockMore(n: nat)
    requires n > LIMIT
    ensures (n + LIMIT - 1) / LIMIT == 1 + (n - LIMIT + LIMIT - 1) / LIMIT
  {
  }
}
