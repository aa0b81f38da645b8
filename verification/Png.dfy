/**
 The PNG file of the icon writer (crates/vibemux_desktop/icon.rs, `push_chunk` and `png_bytes`)
 against a decoder for sections 3.1 to 3.4 of RFC 2083. The side of the square image is a
 parameter; the code fixes it at 64.
 */
module Png {
  import opened Bytes
  import Crc32
  import Zlib

  datatype Pixel = Pixel(red: byte, green: byte, blue: byte, alpha: byte)

  datatype Image = Image(width: nat, height: nat, pixels: seq<Pixel>)

  const SIGNATURE: seq<byte> := [0x89, 0x50, 0x4E, 0x47, 0x0D, 0x0A, 0x1A, 0x0A]
  const IHDR: seq<byte> := [0x49, 0x48, 0x44, 0x52]
  const IDAT: seq<byte> := [0x49, 0x44, 0x41, 0x54]
  const IEND: seq<byte> := [0x49, 0x45, 0x4E, 0x44]
  /** Eight bits a sample, red green blue alpha, and the only compression, filter and interlace. */
  const FORMAT: seq<byte> := [8, 6, 0, 0, 0]

  // -- The writer -----------------------------------------------------------------------------

  function PixelBytes(p: Pixel): (s: seq<byte>)
    ensures |s| == 4
  {
    [p.red, p.green, p.blue, p.alpha]
  }

  function RowBytes(row: seq<Pixel>): (s: seq<byte>)
    ensures |s| == 4 * |row|
  {
    if row == [] then [] else RowBytes(row[..|row| - 1]) + PixelBytes(row[|row| - 1])
  }

  lemma RestOfRows(width: nat, height: nat)
    requires height > 0
    ensures width * height - width == width * (height - 1) && width <= width * height
  {
  }

  /** Each row after a zero byte, its filter type. */
  function Rows(pixels: seq<Pixel>, width: nat, height: nat): seq<byte>
    requires |pixels| == width * height
    decreases height
  {
    if height == 0 then []
    else
      RestOfRows(width, height);
      [0] + RowBytes(pixels[..width]) + Rows(pixels[width..], width, height - 1)
  }

  function ChunkCrc(kind: seq<byte>, data: seq<byte>): (s: seq<byte>)
    ensures |s| == 4
  {
    WordBytes(Crc32.Crc(kind + data))
  }

  function Chunk(kind: seq<byte>, data: seq<byte>): seq<byte>
  {
    BigEndian32(|data|) + kind + data + ChunkCrc(kind, data)
  }

  function Header(size: nat): seq<byte>
  {
    BigEndian32(size) + BigEndian32(size) + FORMAT
  }

  function File(pixels: seq<Pixel>, size: nat): seq<byte>
    requires |pixels| == size * size
  {
    SIGNATURE + Chunk(IHDR, Header(size)) + Chunk(IDAT, Zlib.Stream(Rows(pixels, size, size))) + Chunk(IEND, [])
  }

  method PushChunk(out: seq<byte>, kind: seq<byte>, data: seq<byte>) returns (longer: seq<byte>)
    ensures longer == out + Chunk(kind, data)
  {
    hide BigEndian32, WordBytes, Crc32.Crc;
    longer := out + BigEndian32(|data|);
    longer := longer + kind;
    longer := longer + data;
    var crc := Crc32.Compute(kind + data);
    longer := longer + WordBytes(crc);
  }

  method PushRow(raw: seq<byte>, row: seq<Pixel>) returns (longer: seq<byte>)
    ensures longer == raw + [0] + RowBytes(row)
  {
    longer := raw + [0];
    for i := 0 to |row|
      invariant longer == raw + [0] + RowBytes(row[..i])
    {
      assert row[..i + 1][..i] == row[..i];
      longer := longer + PixelBytes(row[i]);
    }
    assert row[..|row|] == row;
  }

  method FilteredRows(pixels: seq<Pixel>, size: nat) returns (raw: seq<byte>)
    requires |pixels| == size * size
    ensures raw == Rows(pixels, size, size)
  {
    hide RowBytes;
    raw := [];
    var rest := pixels;
    ghost var left: nat := size;
    while rest != []
      invariant 0 <= left <= size && |rest| == size * left
      invariant raw + Rows(rest, size, left) == Rows(pixels, size, size)
      decreases |rest|
    {
      RestOfRows(size, left);
      ghost var before := raw;
      raw := PushRow(raw, rest[..size]);
      assert raw + Rows(rest[size..], size, left - 1)
          == before + ([0] + RowBytes(rest[..size]) + Rows(rest[size..], size, left - 1));
      rest := rest[size..];
      left := left - 1;
    }
    NoRows(size, left);
  }

  method Write(pixels: seq<Pixel>, size: nat) returns (png: seq<byte>)
    requires |pixels| == size * size
    ensures png == File(pixels, size)
  {
    hide Chunk, Rows, Zlib.Stream, Header;
    var raw := FilteredRows(pixels, size);
    png := PushChunk(SIGNATURE, IHDR, Header(size));
    var data := Zlib.Write(raw);
    png := PushChunk(png, IDAT, data);
    png := PushChunk(png, IEND, []);
  }

  lemma NoRows(width: nat, height: nat)
    requires width * height == 0 && (width == 0 ==> height == 0)
    ensures Rows([], width, height) == []
  {
  }

  // -- The reader -----------------------------------------------------------------------------

  datatype Part = Part(kind: seq<byte>, data: seq<byte>)

  /** One chunk and the bytes after it; a wrong CRC is corruption. */
  function ReadChunk(s: seq<byte>): Decoded<(Part, seq<byte>)>
  {
    if |s| < 12 then Corrupt
    else
      var length := ReadBigEndian32(s[..4]);
      if |s| < 12 + length then Corrupt
      else
        var kind, data, crc := s[4..8], s[8..8 + length], s[8 + length..12 + length];
        if crc != ChunkCrc(kind, data) then Corrupt
        else Decoded((Part(kind, data), s[12 + length..]))
  }

  /** The chunks of a file, the last of which is an empty IEND with nothing after it. */
  function ReadChunks(s: seq<byte>): Decoded<seq<Part>>
    decreases |s|
  {
    match ReadChunk(s)
    case Corrupt => Corrupt
    case Decoded(read) =>
      var (part, rest) := read;
      if part.kind == IEND then if part.data == [] && rest == [] then Decoded([part]) else Corrupt
      else match ReadChunks(rest)
        case Corrupt => Corrupt
        case Decoded(parts) => Decoded([part] + parts)
  }

  /** The data of the IDAT chunks, joined. */
  function ImageData(parts: seq<Part>): seq<byte>
  {
    if parts == [] then []
    else (if parts[0].kind == IDAT then parts[0].data else []) + ImageData(parts[1..])
  }

  function ReadRow(s: seq<byte>, width: nat): seq<Pixel>
    requires |s| == 4 * width
  {
    if width == 0 then []
    else ReadRow(s[..|s| - 4], width - 1) + [Pixel(s[|s| - 4], s[|s| - 3], s[|s| - 2], s[|s| - 1])]
  }

  /** Rows whose filter type is zero, no filter. */
  function ReadRows(s: seq<byte>, width: nat, height: nat): Decoded<seq<Pixel>>
    decreases height
  {
    if height == 0 then if s == [] then Decoded([]) else Corrupt
    else if |s| < 1 + 4 * width || s[0] != 0 then Corrupt
    else match ReadRows(s[1 + 4 * width..], width, height - 1)
      case Corrupt => Corrupt
      case Decoded(rows) => Decoded(ReadRow(s[1..1 + 4 * width], width) + rows)
  }

  function ReadImage(parts: seq<Part>): Decoded<Image>
  {
    if parts == [] || parts[0].kind != IHDR || |parts[0].data| != 13 || parts[0].data[8..] != FORMAT then Corrupt
    else
      var width, height := ReadBigEndian32(parts[0].data[..4]), ReadBigEndian32(parts[0].data[4..8]);
      match Zlib.Read(ImageData(parts))
      case Corrupt => Corrupt
      case Decoded(raw) =>
        match ReadRows(raw, width, height)
        case Corrupt => Corrupt
        case Decoded(pixels) => Decoded(Image(width, height, pixels))
  }

  function Read(s: seq<byte>): Decoded<Image>
  {
    if |s| < 8 || s[..8] != SIGNATURE then Corrupt
    else match ReadChunks(s[8..])
      case Corrupt => Corrupt
      case Decoded(parts) => ReadImage(parts)
  }

  // -- Round trip -----------------------------------------------------------------------------

  lemma ChunkRoundTrip(kind: seq<byte>, data: seq<byte>, rest: seq<byte>)
    requires |kind| == 4 && |data| < TWO_32
    ensures ReadChunk(Chunk(kind, data) + rest) == Decoded((Part(kind, data), rest))
  {
    hide BigEndian32, ReadBigEndian32, ChunkCrc;
    var s := Chunk(kind, data) + rest;
    BigEndian32RoundTrip(|data|);
    assert s[..4] == BigEndian32(|data|);
    assert s[4..8] == kind && s[8..8 + |data|] == data;
    assert s[8 + |data|..12 + |data|] == ChunkCrc(kind, data);
    assert s[12 + |data|..] == rest;
  }

  lemma {:induction false} RowRoundTrip(row: seq<Pixel>)
    ensures ReadRow(RowBytes(row), |row|) == row
  {
    if row != [] {
      var init, p := row[..|row| - 1], row[|row| - 1];
      var front, s := RowBytes(init), RowBytes(row);
      RowRoundTrip(init);
      assert s[..|s| - 4] == front;
      assert s[|s| - 4] == p.red && s[|s| - 3] == p.green && s[|s| - 2] == p.blue && s[|s| - 1] == p.alpha;
      assert row == init + [p];
    }
  }

  lemma {:induction false} RowsRoundTrip(pixels: seq<Pixel>, width: nat, height: nat)
    requires |pixels| == width * height
    ensures ReadRows(Rows(pixels, width, height), width, height) == Decoded(pixels)
    decreases height
  {
    hide RowBytes, ReadRow;
    if height == 0 {
      assert pixels == [];
    } else {
      RestOfRows(width, height);
      var row, rest := pixels[..width], pixels[width..];
      RowRoundTrip(row);
      RowsRoundTrip(rest, width, height - 1);
      var s := Rows(pixels, width, height);
      assert s[1..1 + 4 * width] == RowBytes(row);
      assert s[1 + 4 * width..] == Rows(rest, width, height - 1);
      assert row + rest == pixels;
    }
  }

  lemma FirstChunk(kind: seq<byte>, data: seq<byte>, rest: seq<byte>, parts: seq<Part>)
    requires |kind| == 4 && kind != IEND && |data| < TWO_32 && ReadChunks(rest) == Decoded(parts)
    ensures ReadChunks(Chunk(kind, data) + rest) == Decoded([Part(kind, data)] + parts)
  {
    hide Chunk, ReadChunk;
    ChunkRoundTrip(kind, data, rest);
  }

  lemma ThreeChunks(header: seq<byte>, data: seq<byte>)
    requires |header| < TWO_32 && |data| < TWO_32
    ensures ReadChunks(Chunk(IHDR, header) + Chunk(IDAT, data) + Chunk(IEND, []))
         == Decoded([Part(IHDR, header), Part(IDAT, data), Part(IEND, [])])
  {
    hide Chunk, ReadChunk;
    assert IHDR[1] != IEND[1] && IDAT[1] != IEND[1];
    var end := Chunk(IEND, []);
    assert end == end + [];
    ChunkRoundTrip(IEND, [], []);
    FirstChunk(IDAT, data, end, [Part(IEND, [])]);
    FirstChunk(IHDR, header, Chunk(IDAT, data) + end, [Part(IDAT, data)] + [Part(IEND, [])]);
    assert Chunk(IHDR, header) + Chunk(IDAT, data) + end == Chunk(IHDR, header) + (Chunk(IDAT, data) + end);
    assert [Part(IHDR, header)] + ([Part(IDAT, data)] + [Part(IEND, [])])
        == [Part(IHDR, header), Part(IDAT, data), Part(IEND, [])];
  }

  lemma OneImageData(header: seq<byte>, data: seq<byte>)
    ensures ImageData([Part(IHDR, header), Part(IDAT, data), Part(IEND, [])]) == data
  {
    var parts := [Part(IHDR, header), Part(IDAT, data), Part(IEND, [])];
    assert parts[1..] == [Part(IDAT, data), Part(IEND, [])];
    assert parts[1..][1..] == [Part(IEND, [])];
    assert parts[1..][1..][1..] == [];
    assert ImageData(parts[1..][1..]) == [];
    assert ImageData(parts[1..]) == data;
  }

  lemma {:induction false} RowsLength(pixels: seq<Pixel>, width: nat, height: nat)
    requires |pixels| == width * height
    ensures |Rows(pixels, width, height)| == (1 + 4 * width) * height
    decreases height
  {
    hide RowBytes;
    if height > 0 {
      RestOfRows(width, height);
      RestOfRows(1 + 4 * width, height);
      RowsLength(pixels[width..], width, height - 1);
    }
  }

  /** The largest side whose data fits the 32-bit length field. */
  const LARGEST := 32766

  lemma LengthInOrder(a: nat, b: nat)
    requires a <= b
    ensures (1 + 4 * a) * a <= (1 + 4 * b) * b
  {
    assert (1 + 4 * a) * a <= (1 + 4 * b) * a <= (1 + 4 * b) * b;
  }

  lemma DataFits(pixels: seq<Pixel>, size: nat)
    requires |pixels| == size * size
    ensures |Zlib.Stream(Rows(pixels, size, size))| < TWO_32 <==> size <= LARGEST
  {
    hide Rows, Zlib.Stream;
    RowsLength(pixels, size, size);
    Zlib.StreamLength(Rows(pixels, size, size));
    if size <= LARGEST {
      LengthInOrder(size, LARGEST);
    } else {
      LengthInOrder(LARGEST + 1, size);
    }
  }

  /** Every file the writer makes has its chunks in order with correct CRCs, and decodes to the
      pixels it was made from, for every side whose data fits the 32-bit length field. */
  lemma RoundTrip(pixels: seq<Pixel>, size: nat)
    requires |pixels| == size * size && size <= LARGEST
    ensures Read(File(pixels, size)) == Decoded(Image(size, size, pixels))
  {
    hide Chunk, ReadChunks, Rows, ReadRows, ImageData, Zlib.Stream, Zlib.Read, BigEndian32, ReadBigEndian32;
    var header, raw := Header(size), Rows(pixels, size, size);
    var data := Zlib.Stream(raw);
    DataFits(pixels, size);
    var s := File(pixels, size);
    assert s[..8] == SIGNATURE;
    assert s[8..] == Chunk(IHDR, header) + Chunk(IDAT, data) + Chunk(IEND, []);
    ThreeChunks(header, data);
    OneImageData(header, data);
    BigEndian32RoundTrip(size);
    assert header[..4] == BigEndian32(size) && header[4..8] == BigEndian32(size) && header[8..] == FORMAT;
    Zlib.RoundTrip(raw);
    RowsRoundTrip(pixels, size, size);
  }

  lemma WordBytesInjective(x: bv32, y: bv32)
    requires WordBytes(x) == WordBytes(y)
    ensures x == y
  {
    var a, b := WordBytes(x), WordBytes(y);
    assert a[0] == b[0] && a[1] == b[1] && a[2] == b[2] && a[3] == b[3];
  }

  /** Damage to a chunk is noticed: once something has changed within 32 consecutive bits of its
      kind and data, its CRC no longer agrees and the decoder refuses it. */
  lemma DamageIsDetected(kind: seq<byte>, data: seq<byte>, damaged: seq<byte>, at: nat, rest: seq<byte>)
    requires |kind| == 4 && |data| < TWO_32
    requires |damaged| == 4 + |data| && damaged != kind + data
    requires Crc32.SameOutside(damaged, kind + data, at)
    ensures ReadChunk(BigEndian32(|data|) + damaged + ChunkCrc(kind, data) + rest) == Corrupt
  {
    hide BigEndian32, ReadBigEndian32, WordBytes, Crc32.Crc, Crc32.SameOutside;
    var s := BigEndian32(|data|) + damaged + ChunkCrc(kind, data) + rest;
    BigEndian32RoundTrip(|data|);
    assert s[..4] == BigEndian32(|data|);
    assert s[4..8] + s[8..8 + |data|] == damaged;
    assert s[8 + |data|..12 + |data|] == ChunkCrc(kind, data);
    Crc32.BurstIsDetected(damaged, kind + data, at);
    if ChunkCrc(s[4..8], s[8..8 + |data|]) == ChunkCrc(kind, data) {
      WordBytesInjective(Crc32.Crc(damaged), Crc32.Crc(kind + data));
    }
  }
}
