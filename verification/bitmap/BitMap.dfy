// The bitmap reader and writer of SDKBitMap.cpp on files as byte sequences.
module BitMap {

  newtype Byte = x: int | 0 <= x < 256

  datatype Color = Color(x: Byte, y: Byte, z: Byte, w: Byte)

  const HEADER: nat := 14
  const INFO: nat := 40
  const ID: int := 19778
  const COLORS: nat := 256

  /** The headers are read and written as they lie in memory; fields are little-endian. */
  function Word16(b: seq<Byte>, at: nat): nat
    requires at + 2 <= |b|
  {
    b[at] as nat + 256 * b[at + 1] as nat
  }

  function Word32(b: seq<Byte>, at: nat): nat
    requires at + 4 <= |b|
  {
    Word16(b, at) + 0x1_0000 * Word16(b, at + 2)
  }

  function Signed(n: nat, bits: nat): int
    requires bits == 0x1_0000 || bits == 0x1_0000_0000
  {
    if n >= bits / 2 then n - bits else n
  }

  /** A loaded bitmap: the raw headers, the palette when there is one, and the pixels row by row. */
  datatype Image = Image(header: seq<Byte>, info: seq<Byte>, colors: seq<Color>, pixels: seq<Color>)

  function Id(header: seq<Byte>): int
    requires |header| == HEADER
  {
    Signed(Word16(header, 0), 0x1_0000)
  }

  /** size - offset, in an unsigned int. */
  function BufferSize(header: seq<Byte>): nat
    requires |header| == HEADER
  {
    (Word32(header, 2) - Word32(header, 10)) % 0x1_0000_0000
  }

  function Width(info: seq<Byte>): int
    requires |info| == INFO
  {
    Signed(Word32(info, 4), 0x1_0000_0000)
  }

  function Height(info: seq<Byte>): int
    requires |info| == INFO
  {
    Signed(Word32(info, 8), 0x1_0000_0000)
  }

  function BitsPerPixel(info: seq<Byte>): int
    requires |info| == INFO
  {
    Signed(Word16(info, 14), 0x1_0000)
  }

  function Compression(info: seq<Byte>): nat
    requires |info| == INFO
  {
    Word32(info, 16)
  }

  // ----- rows -----

  /** The bytes skipped after a row, by reader and writer alike. */
  function Padding(width: nat): nat {
    (4 - (3 * width) % 4) % 4
  }

  function BytesPerPixel(bpp: int): nat {
    if bpp == 8 then 1 else 3
  }

  function RowBytes(width: nat, bpp: int): nat {
    width * BytesPerPixel(bpp) + Padding(width)
  }

  /** A row is a multiple of four bytes for every width with three bytes a pixel, and only for even widths with one. */
  lemma {:induction false} RowAlignment(width: nat)
    ensures RowBytes(width, 24) % 4 == 0
    ensures RowBytes(width, 8) % 4 == 0 <==> width % 2 == 0
  {
    assert RowBytes(width, 24) == 3 * width + Padding(width);
    assert RowBytes(width, 8) == width + Padding(width);
    PaddingIs(width / 4, width % 4);
  }

  lemma {:induction false} Mod4(n: nat, k: nat, r: nat)
    requires n == 4 * k + r && r < 4
    ensures n % 4 == r
  {
  }

  lemma {:induction false} PaddingIs(q: nat, r: nat)
    requires r < 4
    ensures Padding(4 * q + r) == r
    ensures (3 * (4 * q + r) + r) % 4 == 0
    ensures (4 * q + r + r) % 4 == 0 <==> r % 2 == 0
    ensures (4 * q + r) % 2 == r % 2
  {
    var w := 4 * q + r;
    if r == 0 {
      Mod4(3 * w, 3 * q, 0);
    } else if r == 1 {
      Mod4(3 * w, 3 * q, 3);
    } else if r == 2 {
      Mod4(3 * w, 3 * q + 1, 2);
    } else {
      Mod4(3 * w, 3 * q + 2, 1);
    }
    Mod4(3 * w + r, 3 * q + r, 0);
    Mod4(w + r, if r < 2 then q else q + 1, if r < 2 then r + r else r + r - 4);
    Mod2(w, 2 * q, r);
  }

  lemma {:induction false} Mod2(n: nat, k: nat, r: nat)
    requires n == 2 * k + r
    ensures n % 2 == r % 2
  {
  }

  lemma {:induction false} MulMono(a: int, b: int, c: int)
    requires a <= b && 0 <= c
    ensures a * c <= b * c
  {
    assert (b - a) * c >= 0;
    assert b * c == a * c + (b - a) * c;
  }

  lemma {:induction false} OneMore(a: int, c: int)
    ensures (a + 1) * c == a * c + c
  {
  }

  /** The pixel that starts at `data[at]`. */
  function PixelOf(data: seq<Byte>, at: nat, bpp: int, colors: seq<Color>): Color
    requires at + BytesPerPixel(bpp) <= |data| && (bpp == 8 ==> |colors| == COLORS)
  {
    if bpp == 8 then colors[data[at] as nat] else Color(data[at + 2], data[at + 1], data[at], 255)
  }

  /** Item x of row y lies inside the first `height` rows. */
  lemma {:induction false} Within(y: nat, height: nat, x: nat, width: nat, c: nat, row: nat)
    requires y < height && x < width && width * c <= row
    ensures y * row + x * c + c <= height * row
    ensures y * row >= 0 && x * c >= 0
  {
    MulMono(y + 1, height, row);
    OneMore(y, row);
    MulMono(x + 1, width, c);
    OneMore(x, c);
    MulMono(0, y, row);
    MulMono(0, x, c);
  }

  lemma {:induction false} PixelIndex(k: nat, width: nat, height: nat)
    requires k < width * height
    ensures width > 0 && k / width < height && k == k / width * width + k % width
  {
    if k / width >= height {
      MulMono(height, k / width, width);
    }
  }

  /** Where pixel k of the image starts in the data: it is in row k / width. */
  function StartOf(k: nat, width: nat, height: nat, bpp: int): (at: nat)
    requires k < width * height
    ensures at + BytesPerPixel(bpp) <= height * RowBytes(width, bpp)
  {
    PixelIndex(k, width, height);
    Within(k / width, height, k % width, width, BytesPerPixel(bpp), RowBytes(width, bpp));
    k / width * RowBytes(width, bpp) + k % width * BytesPerPixel(bpp)
  }

  function Pixels(data: seq<Byte>, width: nat, height: nat, bpp: int, colors: seq<Color>): (ps: seq<Color>)
    requires height * RowBytes(width, bpp) <= |data| && (bpp == 8 ==> |colors| == COLORS)
    ensures |ps| == width * height
  {
    seq(width * height, k requires 0 <= k < width * height =>
      PixelOf(data, StartOf(k, width, height, bpp), bpp, colors))
  }

  // ----- the palette -----

  function Palette(b: seq<Byte>): (cs: seq<Color>)
    requires |b| == 4 * COLORS
    ensures |cs| == COLORS
  {
    seq(COLORS, i requires 0 <= i < COLORS => Color(b[4 * i], b[4 * i + 1], b[4 * i + 2], b[4 * i + 3]))
  }

  function PaletteBytes(cs: seq<Color>): (b: seq<Byte>)
    ensures |b| == 4 * |cs|
  {
    seq(4 * |cs|, i requires 0 <= i < 4 * |cs| =>
      var c := cs[i / 4];
      if i % 4 == 0 then c.x else if i % 4 == 1 then c.y else if i % 4 == 2 then c.z else c.w)
  }

  lemma {:induction false} PaletteRoundTrip(cs: seq<Color>)
    requires |cs| == COLORS
    ensures Palette(PaletteBytes(cs)) == cs
  {
    forall i | 0 <= i < COLORS
      ensures Palette(PaletteBytes(cs))[i] == cs[i]
    {
      var b := PaletteBytes(cs);
      assert 4 * i / 4 == i && (4 * i + 1) / 4 == i && (4 * i + 2) / 4 == i && (4 * i + 3) / 4 == i;
    }
  }

  /** colorIndex: the first entry of the palette that is the colour, or 0. */
  function ColorIndex(cs: seq<Color>, c: Color): nat {
    if c in cs then FirstIndex(cs, c) else 0
  }

  function FirstIndex(cs: seq<Color>, c: Color): (i: nat)
    requires c in cs
    ensures i < |cs| && cs[i] == c && forall j :: 0 <= j < i ==> cs[j] != c
  {
    if cs[0] == c then 0
    else
      assert cs == [cs[0]] + cs[1..];
      1 + FirstIndex(cs[1..], c)
  }

  // ----- load -----

  /** Undefined when the file ends inside what is read, or the rows do not fit the buffer made for them. */
  datatype Loaded = Loaded(image: Image) | Rejected | Undefined

  function PaletteSize(bpp: int): nat {
    if bpp == 8 then 4 * COLORS else 0
  }

  function Load(file: seq<Byte>): Loaded {
    if |file| < HEADER + INFO then Undefined
    else
      var header, info := file[..HEADER], file[HEADER..HEADER + INFO];
      var bpp := BitsPerPixel(info);
      if Id(header) != ID || Compression(info) != 0 || bpp < 8 then Rejected
      else if |file| < HEADER + INFO + PaletteSize(bpp) || Width(info) < 0 || Height(info) < 0 then Undefined
      else
        var colors := if bpp == 8 then Palette(file[HEADER + INFO..HEADER + INFO + PaletteSize(bpp)]) else [];
        var data := file[HEADER + INFO + PaletteSize(bpp)..];
        var needed := Height(info) * RowBytes(Width(info), bpp);
        if needed > BufferSize(header) || needed > |data| then Undefined
        else Loaded(Image(header, info, colors, Pixels(data, Width(info), Height(info), bpp, colors)))
  }

  // ----- write -----

  predicate Shaped(m: Image) {
    && |m.header| == HEADER && |m.info| == INFO
    && Width(m.info) >= 0 && Height(m.info) >= 0
    && |m.pixels| == Width(m.info) * Height(m.info)
    && (BitsPerPixel(m.info) == 8 ==> |m.colors| == COLORS)
  }

  function PixelBytes(m: Image, c: Color): (b: seq<Byte>)
    requires Shaped(m)
    ensures |b| == BytesPerPixel(BitsPerPixel(m.info))
  {
    if BitsPerPixel(m.info) == 8 then [ByteOf(ColorIndex(m.colors, c))] else [c.z, c.y, c.x]
  }

  /** fputc keeps the low byte. */
  function ByteOf(n: nat): Byte {
    (n % 256) as Byte
  }

  /** The first n pixels of row y. */
  function RowUpTo(m: Image, y: nat, n: nat): (b: seq<Byte>)
    requires Shaped(m) && y < Height(m.info) && n <= Width(m.info)
    ensures |b| == n * BytesPerPixel(BitsPerPixel(m.info))
    decreases n
  {
    if n == 0 then []
    else
      InImage(m, n - 1, y);
      RowUpTo(m, y, n - 1) + PixelBytes(m, m.pixels[y * Width(m.info) + n - 1])
  }

  lemma {:induction false} InImage(m: Image, x: nat, y: nat)
    requires Shaped(m) && x < Width(m.info) && y < Height(m.info)
    ensures y * Width(m.info) + x < |m.pixels|
  {
    hide Width, Height;
    Within(y, Height(m.info), x, Width(m.info), 1, Width(m.info));
  }

  function Zeros(n: nat): (b: seq<Byte>)
    ensures |b| == n && forall i :: 0 <= i < n ==> b[i] == 0
  {
    seq(n, i => 0 as Byte)
  }

  function RowsUpTo(m: Image, n: nat): (b: seq<Byte>)
    requires Shaped(m) && n <= Height(m.info)
    ensures |b| == n * RowBytes(Width(m.info), BitsPerPixel(m.info))
    decreases n
  {
    if n == 0 then []
    else
      RowsUpTo(m, n - 1) + RowUpTo(m, n - 1, Width(m.info)) + Zeros(Padding(Width(m.info)))
  }

  function Write(m: Image): seq<Byte>
    requires Shaped(m)
  {
    m.header + m.info + (if BitsPerPixel(m.info) == 8 then PaletteBytes(m.colors) else []) + RowsUpTo(m, Height(m.info))
  }
}
