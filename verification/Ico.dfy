/**
 The ICO file of the icon writer (crates/vibemux_desktop/icon.rs, `ico_bytes`) against a reader
 of the Windows icon and bitmap formats. The information header the code writes leaves out its
 compression field, so no file it writes is readable; with that field every file is. The side
 of the square image is a parameter; the code fixes it at 64.
 */
module Ico {
  import opened Bytes
  import opened Png

  // -- The writer -----------------------------------------------------------------------------

  function ColourBytes(row: seq<Pixel>): (s: seq<byte>)
    ensures |s| == 4 * |row|
  {
    if row == [] then []
    else
      var p := row[|row| - 1];
      ColourBytes(row[..|row| - 1]) + [p.blue, p.green, p.red, p.alpha]
  }

  /** The rows from the bottom of the image to its top. */
  function BottomUp(pixels: seq<Pixel>, width: nat, height: nat): (s: seq<byte>)
    requires |pixels| == width * height
    ensures |s| == 4 * |pixels|
    decreases height
  {
    if height == 0 then []
    else
      RestOfRows(width, height);
      var above := |pixels| - width;
      ColourBytes(pixels[above..]) + BottomUp(pixels[..above], width, height - 1)
  }

  /** One bit a pixel, each row padded to four bytes, all clear. */
  function Mask(size: nat): seq<byte>
  {
    Zeros((size + 31) / 32 * 4 * size)
  }

  function Zeros(n: nat): (s: seq<byte>)
    ensures |s| == n
  {
    seq(n, _ => 0)
  }

  /** The bitmap information header, with whatever stands where compression belongs. */
  function Info(size: nat, compression: seq<byte>, length: nat): (s: seq<byte>)
    ensures |s| == 36 + |compression|
  {
    LittleEndian32(40) + LittleEndian32(size) + LittleEndian32(2 * size) + LittleEndian16(1) + LittleEndian16(32)
    + compression + LittleEndian32(length)
    + LittleEndian32(0) + LittleEndian32(0) + LittleEndian32(0) + LittleEndian32(0)
  }

  function Bitmap(pixels: seq<Pixel>, size: nat, compression: seq<byte>): seq<byte>
    requires |pixels| == size * size
  {
    var colours, mask := BottomUp(pixels, size, size), Mask(size);
    Info(size, compression, |colours| + |mask|) + colours + mask
  }

  function Directory(size: nat, length: nat): (s: seq<byte>)
    ensures |s| == 22
  {
    LittleEndian16(0) + LittleEndian16(1) + LittleEndian16(1) + [Low(size), Low(size), 0, 0]
    + LittleEndian16(1) + LittleEndian16(32) + LittleEndian32(length) + LittleEndian32(22)
  }

  function File(pixels: seq<Pixel>, size: nat, compression: seq<byte>): seq<byte>
    requires |pixels| == size * size
  {
    var image := Bitmap(pixels, size, compression);
    Directory(size, |image|) + image
  }

  method PushColours(colours: seq<byte>, row: seq<Pixel>) returns (longer: seq<byte>)
    ensures longer == colours + ColourBytes(row)
  {
    longer := colours;
    for i := 0 to |row|
      invariant longer == colours + ColourBytes(row[..i])
    {
      assert row[..i + 1][..i] == row[..i];
      longer := longer + [row[i].blue, row[i].green, row[i].red, row[i].alpha];
    }
    assert row[..|row|] == row;
  }

  lemma LastRow(pixels: seq<Pixel>, width: nat, height: nat)
    requires height > 0 && |pixels| == width * height
    ensures width <= |pixels| && |pixels| - width == width * (height - 1)
    ensures BottomUp(pixels, width, height)
         == ColourBytes(pixels[|pixels| - width..]) + BottomUp(pixels[..|pixels| - width], width, height - 1)
  {
    RestOfRows(width, height);
  }

  method PushBottomUp(pixels: seq<Pixel>, size: nat) returns (colours: seq<byte>)
    requires |pixels| == size * size
    ensures colours == BottomUp(pixels, size, size)
  {
    hide ColourBytes, BottomUp;
    colours := [];
    var rest := pixels;
    ghost var left: nat := size;
    while rest != []
      invariant 0 <= left <= size && |rest| == size * left
      invariant colours + BottomUp(rest, size, left) == BottomUp(pixels, size, size)
      decreases |rest|
    {
      RestOfRows(size, left);
      var above := |rest| - size;
      LastRow(rest, size, left);
      ghost var before := colours;
      colours := PushColours(colours, rest[above..]);
      assert colours + BottomUp(rest[..above], size, left - 1)
          == before + (ColourBytes(rest[above..]) + BottomUp(rest[..above], size, left - 1));
      rest := rest[..above];
      left := left - 1;
    }
  }

  /** The code writes nothing where the compression field belongs. */
  method Write(pixels: seq<Pixel>, size: nat) returns (ico: seq<byte>)
    requires |pixels| == size * size
    ensures ico == File(pixels, size, [])
  {
    hide BottomUp, Mask, LittleEndian16, LittleEndian32;
    var colours := PushBottomUp(pixels, size);
    var mask := Mask(size);
    var image := Info(size, [], |colours| + |mask|) + colours + mask;
    ico := Directory(size, |image|) + image;
  }

  // -- The reader -----------------------------------------------------------------------------

  function ReadColours(s: seq<byte>, width: nat): seq<Pixel>
    requires |s| == 4 * width
  {
    if width == 0 then []
    else ReadColours(s[..|s| - 4], width - 1) + [Pixel(s[|s| - 2], s[|s| - 3], s[|s| - 4], s[|s| - 1])]
  }

  function ReadBottomUp(s: seq<byte>, width: nat, height: nat): seq<Pixel>
    requires |s| == 4 * (width * height)
    decreases height
  {
    if height == 0 then []
    else
      RestOfRows(width, height);
      ReadBottomUp(s[4 * width..], width, height - 1) + ReadColours(s[..4 * width], width)
  }

  function Field16(s: seq<byte>, at: nat): nat
    requires at + 2 <= |s|
  {
    ReadLittleEndian16(s[at..at + 2])
  }

  function Field32(s: seq<byte>, at: nat): nat
    requires at + 4 <= |s|
  {
    ReadLittleEndian32(s[at..at + 4])
  }

  predicate HeaderIs(s: seq<byte>, width: nat, height: nat)
    requires |s| >= 40
  {
    && Field32(s, 0) == 40 && Field32(s, 4) == width && Field32(s, 8) == 2 * height
    && Field16(s, 12) == 1 && Field16(s, 14) == 32 && Field32(s, 16) == 0
  }

  /** A 32-bit uncompressed bitmap behind a 40-byte header, its height doubled for the mask. */
  function ReadBitmap(s: seq<byte>, width: nat, height: nat): Decoded<Image>
  {
    var area: nat := width * height;
    if |s| < 40 || |s| < 40 + 4 * area then Corrupt
    else if !HeaderIs(s, width, height) then Corrupt
    else Decoded(Image(width, height, ReadBottomUp(s[40..40 + 4 * area], width, height)))
  }

  /** A side is stored in one byte, zero for 256. */
  function Side(b: byte): nat
  {
    if Value(b) == 0 then 256 else Value(b)
  }

  function Read(s: seq<byte>): Decoded<Image>
  {
    if |s| < 22 || Field16(s, 0) != 0 || Field16(s, 2) != 1 || Field16(s, 4) != 1 then Corrupt
    else
      var length, offset := Field32(s, 14), Field32(s, 18);
      if |s| < offset + length then Corrupt
      else ReadBitmap(s[offset..offset + length], Side(s[6]), Side(s[7]))
  }

  // -- Round trip -----------------------------------------------------------------------------

  lemma {:induction false} ColoursRoundTrip(row: seq<Pixel>)
    ensures ReadColours(ColourBytes(row), |row|) == row
  {
    if row != [] {
      var init, p := row[..|row| - 1], row[|row| - 1];
      var front, s := ColourBytes(init), ColourBytes(row);
      ColoursRoundTrip(init);
      assert s[..|s| - 4] == front;
      assert s[|s| - 4] == p.blue && s[|s| - 3] == p.green && s[|s| - 2] == p.red && s[|s| - 1] == p.alpha;
      assert row == init + [p];
    }
  }

  lemma {:induction false} BottomUpRoundTrip(pixels: seq<Pixel>, width: nat, height: nat)
    requires |pixels| == width * height
    ensures ReadBottomUp(BottomUp(pixels, width, height), width, height) == pixels
    decreases height
  {
    hide ColourBytes, ReadColours;
    if height == 0 {
      assert pixels == [];
    } else {
      RestOfRows(width, height);
      var above := |pixels| - width;
      var row, rest := pixels[above..], pixels[..above];
      ColoursRoundTrip(row);
      BottomUpRoundTrip(rest, width, height - 1);
      var s := BottomUp(pixels, width, height);
      assert s[..4 * width] == ColourBytes(row);
      assert s[4 * width..] == BottomUp(rest, width, height - 1);
      assert rest + row == pixels;
    }
  }

  lemma ProductAtMost(a: nat, b: nat, x: nat, y: nat)
    requires a <= x && b <= y
    ensures 0 <= a * b <= x * y
  {
    assert a * b <= x * b <= x * y;
  }

  lemma BitmapSize(pixels: seq<Pixel>, size: nat, compression: seq<byte>)
    requires |pixels| == size * size && size <= 256 && |compression| <= 4
    ensures |Bitmap(pixels, size, compression)| == 36 + |compression| + 4 * (size * size) + (size + 31) / 32 * 4 * size
    ensures 4 * (size * size) <= 0x4_0000 && 0 <= (size + 31) / 32 * 4 * size <= 0x1_0000
  {
    hide BottomUp, Info;
    ProductAtMost(size, size, 256, 256);
    ProductAtMost((size + 31) / 32 * 4, size, 32, 256);
  }

  /** The reader finds the bitmap where the directory says. */
  lemma ReadDirectory(image: seq<byte>, size: nat)
    requires 1 <= size <= 256 && |image| < TWO_32
    ensures Read(Directory(size, |image|) + image) == ReadBitmap(image, size, size)
  {
    hide Low, Value, LittleEndian16, LittleEndian32, ReadLittleEndian16, ReadLittleEndian32, ReadBitmap;
    var s := Directory(size, |image|) + image;
    LittleEndian16RoundTrip(0);
    LittleEndian16RoundTrip(1);
    LittleEndian32RoundTrip(|image|);
    LittleEndian32RoundTrip(22);
    ValueOfLow(size);
    assert s[0..2] == LittleEndian16(0) && s[2..4] == LittleEndian16(1) && s[4..6] == LittleEndian16(1);
    assert s[6] == Low(size) && s[7] == Low(size);
    assert s[14..18] == LittleEndian32(|image|) && s[18..22] == LittleEndian32(22);
    assert s[22..22 + |image|] == image;
  }

  lemma ReadInfo(size: nat, compression: seq<byte>, length: nat, rest: seq<byte>)
    requires size <= 256 && length < TWO_32 && |compression| <= 4
    ensures var s := Info(size, compression, length) + rest;
            && Field32(s, 0) == 40 && Field32(s, 4) == size && Field32(s, 8) == 2 * size
            && Field16(s, 12) == 1 && Field16(s, 14) == 32
            && (compression == [] ==> Field32(s, 16) == length)
            && (compression == LittleEndian32(0) ==> Field32(s, 16) == 0)
  {
    hide Low, Value, LittleEndian16, LittleEndian32, ReadLittleEndian16, ReadLittleEndian32;
    var s := Info(size, compression, length) + rest;
    LittleEndian32RoundTrip(40);
    LittleEndian32RoundTrip(size);
    LittleEndian32RoundTrip(2 * size);
    LittleEndian16RoundTrip(1);
    LittleEndian16RoundTrip(32);
    LittleEndian32RoundTrip(length);
    LittleEndian32RoundTrip(0);
    assert s[0..4] == LittleEndian32(40) && s[4..8] == LittleEndian32(size) && s[8..12] == LittleEndian32(2 * size);
    assert s[12..14] == LittleEndian16(1) && s[14..16] == LittleEndian16(32);
    if compression == [] {
      assert s[16..20] == LittleEndian32(length);
    }
    if compression == LittleEndian32(0) {
      assert s[16..20] == LittleEndian32(0);
    }
  }

  /** With its compression field the file decodes to the pixels it was made from. */
  lemma CompleteHeaderRoundTrip(pixels: seq<Pixel>, size: nat)
    requires |pixels| == size * size && 1 <= size <= 256
    ensures Read(File(pixels, size, LittleEndian32(0))) == Decoded(Image(size, size, pixels))
  {
    hide BottomUp, ReadBottomUp, Info, Field32, Field16, Directory, Read, LittleEndian32;
    var colours, mask := BottomUp(pixels, size, size), Mask(size);
    var image := Bitmap(pixels, size, LittleEndian32(0));
    BitmapSize(pixels, size, LittleEndian32(0));
    ReadDirectory(image, size);
    ReadInfo(size, LittleEndian32(0), |colours| + |mask|, colours + mask);
    assert image == Info(size, LittleEndian32(0), |colours| + |mask|) + (colours + mask);
    assert image[40..40 + 4 * (size * size)] == colours;
    BottomUpRoundTrip(pixels, size, size);
  }

  /** As the code writes it, the header is 36 bytes long while it declares 40, the length of the
      image data stands in the compression field, and the reader refuses every file. */
  lemma WrittenHeaderIsRefused(pixels: seq<Pixel>, size: nat)
    requires |pixels| == size * size && 1 <= size <= 256
    ensures Read(File(pixels, size, [])) == Corrupt
  {
    hide BottomUp, ReadBottomUp, Info, Field32, Field16, Directory, Read;
    var colours, mask := BottomUp(pixels, size, size), Mask(size);
    var image := Bitmap(pixels, size, []);
    BitmapSize(pixels, size, []);
    ReadDirectory(image, size);
    ReadInfo(size, [], |colours| + |mask|, colours + mask);
    assert image == Info(size, [], |colours| + |mask|) + (colours + mask);
  }
}
