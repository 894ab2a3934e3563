// Writing a loaded bitmap and loading it again gives the same bitmap, and the same bytes from then on.
module RoundTrip {
  import opened BitMap

  /** What every loaded bitmap is: its pixels are palette colours, or have the w component load fills in. */
  ghost predicate Faithful(m: Image) {
    && Drawn(m)
    && Id(m.header) == ID && Compression(m.info) == 0 && BitsPerPixel(m.info) >= 8
    && (BitsPerPixel(m.info) != 8 ==> m.colors == [])
    && Height(m.info) * RowBytes(Width(m.info), BitsPerPixel(m.info)) <= BufferSize(m.header)
  }

  ghost predicate Drawn(m: Image) {
    Shaped(m) && forall k :: 0 <= k < |m.pixels| ==> Representable(m, m.pixels[k])
  }

  predicate Representable(m: Image, c: Color)
    requires |m.info| == INFO
  {
    if BitsPerPixel(m.info) == 8 then c in m.colors else c.w == 255
  }

  lemma {:induction false} LoadIsFaithful(file: seq<Byte>)
    requires Load(file).Loaded?
    ensures Faithful(Load(file).image)
  {
    hide Width, Height, BitsPerPixel, RowBytes, StartOf, Id, Compression, BufferSize;
    var m := Load(file).image;
    var data := file[HEADER + INFO + PaletteSize(BitsPerPixel(m.info))..];
    forall k | 0 <= k < |m.pixels|
      ensures Representable(m, m.pixels[k])
    {
      var at := StartOf(k, Width(m.info), Height(m.info), BitsPerPixel(m.info));
      assert m.pixels[k] == PixelOf(data, at, BitsPerPixel(m.info), m.colors);
    }
  }

  // ----- where the writer puts a pixel -----

  /** Pixel x of a row is at `lo`, x times the bytes of a pixel. */
  lemma {:induction false} RowHolds(m: Image, y: nat, n: nat, x: nat, c: nat, lo: nat)
    requires Shaped(m) && y < Height(m.info) && x < n <= Width(m.info)
    requires c == BytesPerPixel(BitsPerPixel(m.info)) && lo == x * c
    ensures y * Width(m.info) + x < |m.pixels| && lo + c <= |RowUpTo(m, y, n)|
    ensures RowUpTo(m, y, n)[lo..lo + c] == PixelBytes(m, m.pixels[y * Width(m.info) + x])
    decreases n
  {
    hide Width, Height, PixelBytes;
    InImage(m, x, y);
    InImage(m, n - 1, y);
    MulMono(x + 1, n, c);
    OneMore(x, c);
    OneMore(n - 1, c);
    var before := RowUpTo(m, y, n - 1);
    if x < n - 1 {
      RowHolds(m, y, n - 1, x, c, lo);
      assert RowUpTo(m, y, n)[lo..lo + c] == before[lo..lo + c];
    } else {
      assert RowUpTo(m, y, n) == before + PixelBytes(m, m.pixels[y * Width(m.info) + x]);
    }
  }

  lemma {:induction false} RowsHold(m: Image, n: nat, y: nat)
    requires Shaped(m) && y < n <= Height(m.info)
    ensures var row := RowBytes(Width(m.info), BitsPerPixel(m.info));
            && 0 <= y * row && y * row + row <= n * row
            && RowsUpTo(m, n)[y * row..y * row + row] == RowUpTo(m, y, Width(m.info)) + Zeros(Padding(Width(m.info)))
    decreases n
  {
    hide Width, Height, BitsPerPixel, RowUpTo;
    var row := RowBytes(Width(m.info), BitsPerPixel(m.info));
    MulMono(y + 1, n, row);
    MulMono(0, y, row);
    OneMore(y, row);
    OneMore(n - 1, row);
    var before := RowsUpTo(m, n - 1);
    var last := RowUpTo(m, n - 1, Width(m.info)) + Zeros(Padding(Width(m.info)));
    assert RowsUpTo(m, n) == before + last;
    if y < n - 1 {
      RowsHold(m, n - 1, y);
      assert RowsUpTo(m, n)[y * row..y * row + row] == before[y * row..y * row + row];
    }
  }

  lemma {:induction false} SliceOfSlice(all: seq<Byte>, a: nat, n: nat, line: seq<Byte>,
                                             tail: seq<Byte>, b: nat, c: nat)
    requires a + n <= |all| && all[a..a + n] == line + tail && b + c <= |line|
    ensures a + b + c <= |all| && all[a + b..a + b + c] == line[b..b + c]
  {
    var whole := all[a..a + n];
    assert |whole| == |line| + |tail| == n;
    var l, r := all[a + b..a + b + c], line[b..b + c];
    forall i | 0 <= i < c
      ensures l[i] == r[i]
    {
      assert all[a + b + i] == whole[b + i];
    }
    assert l == r;
  }

  lemma {:induction false} StartIs(k: nat, w: nat, h: nat, bpp: int)
    requires k < w * h
    ensures w > 0 && StartOf(k, w, h, bpp) == k / w * RowBytes(w, bpp) + k % w * BytesPerPixel(bpp)
  {
    PixelIndex(k, w, h);
  }

  /** The reader finds each pixel of the written rows. */
  lemma {:induction false} PixelBack(m: Image, k: nat)
    requires Drawn(m) && k < |m.pixels|
    ensures var w, h, bpp := Width(m.info), Height(m.info), BitsPerPixel(m.info);
            PixelOf(RowsUpTo(m, h), StartOf(k, w, h, bpp), bpp, m.colors) == m.pixels[k]
  {
    hide Width, Height, BitsPerPixel, RowUpTo, RowsUpTo, Id, Compression, BufferSize, StartOf, RowBytes, PixelOf, Zeros,
      Padding, PixelBytes, Representable;
    var w, h, bpp := Width(m.info), Height(m.info), BitsPerPixel(m.info);
    var c, row := BytesPerPixel(bpp), RowBytes(w, bpp);
    PixelIndex(k, w, h);
    StartIs(k, w, h, bpp);
    var y, x := k / w, k % w;
    RowsHold(m, h, y);
    MulMono(0, x, c);
    RowHolds(m, y, w, x, c, x * c);
    SliceOfSlice(RowsUpTo(m, h), y * row, row, RowUpTo(m, y, w), Zeros(Padding(w)), x * c, c);
    BytesBack(m, RowsUpTo(m, h), y * row + x * c, m.pixels[k]);
  }

  lemma {:induction false} BytesBack(m: Image, all: seq<Byte>, at: nat, p: Color)
    requires Shaped(m) && Representable(m, p)
    requires at + BytesPerPixel(BitsPerPixel(m.info)) <= |all|
    requires all[at..at + BytesPerPixel(BitsPerPixel(m.info))] == PixelBytes(m, p)
    ensures PixelOf(all, at, BitsPerPixel(m.info), m.colors) == p
  {
    hide Width, Height, BitsPerPixel;
    var b := all[at..at + BytesPerPixel(BitsPerPixel(m.info))];
    assert b[0] == all[at];
    if BitsPerPixel(m.info) != 8 {
      assert b[1] == all[at + 1] && b[2] == all[at + 2];
    }
  }

  /** The parts of a written file. */
  lemma {:induction false} WrittenParts(m: Image)
    requires Shaped(m)
    ensures var f, bpp := Write(m), BitsPerPixel(m.info);
            && |f| >= HEADER + INFO + PaletteSize(bpp)
            && f[..HEADER] == m.header && f[HEADER..HEADER + INFO] == m.info
            && (bpp == 8 ==> f[HEADER + INFO..HEADER + INFO + PaletteSize(bpp)] == PaletteBytes(m.colors))
            && f[HEADER + INFO + PaletteSize(bpp)..] == RowsUpTo(m, Height(m.info))
  {
    hide Width, Height, BitsPerPixel, RowsUpTo, Id, Compression, BufferSize, Representable;
    var bpp := BitsPerPixel(m.info);
    var palette := if bpp == 8 then PaletteBytes(m.colors) else [];
    FourParts(m.header, m.info, palette, RowsUpTo(m, Height(m.info)));
  }

  lemma {:induction false} FourParts(a: seq<Byte>, b: seq<Byte>, c: seq<Byte>, d: seq<Byte>)
    ensures var f := a + b + c + d; var ab := |a| + |b|; var abc := |a| + |b| + |c|;
            && |f| == abc + |d|
            && f[..|a|] == a && f[|a|..ab] == b && f[ab..abc] == c && f[abc..] == d
  {
  }

  /**
    * For every width, height and palette, duplicate colours included: loading what was written
    * gives the bitmap back.
    */
  lemma {:induction false} LoadAfterWrite(m: Image)
    requires Faithful(m)
    ensures Load(Write(m)) == Loaded(m)
  {
    WrittenParts(m);
    hide Width, Height, BitsPerPixel, RowsUpTo, Write, Id, Compression, BufferSize,
      PaletteBytes, Palette, Representable;
    var w, h, bpp := Width(m.info), Height(m.info), BitsPerPixel(m.info);
    if bpp == 8 {
      PaletteRoundTrip(m.colors);
    }
    PixelsBack(m);
  }

  lemma {:induction false} PixelsBack(m: Image)
    requires Drawn(m)
    ensures Pixels(RowsUpTo(m, Height(m.info)), Width(m.info), Height(m.info), BitsPerPixel(m.info), m.colors) ==
            m.pixels
  {
    hide Width, Height, BitsPerPixel, RowsUpTo, Id, Compression, BufferSize, StartOf, RowBytes, PixelOf, Representable;
    forall k | 0 <= k < |m.pixels|
      ensures Pixels(RowsUpTo(m, Height(m.info)), Width(m.info), Height(m.info), BitsPerPixel(m.info), m.colors)[k] ==
              m.pixels[k]
    {
      PixelBack(m, k);
    }
  }

  /** From any file that loads: writing and loading give the same bitmap, and writing again the same bytes. */
  lemma {:induction false} StableAfterFirstWrite(file: seq<Byte>)
    requires Load(file).Loaded?
    ensures var m := Load(file).image;
            && Shaped(m) && Load(Write(m)) == Loaded(m)
            && Write(Load(Write(m)).image) == Write(m)
  {
    hide Load, Write;
    LoadIsFaithful(file);
    LoadAfterWrite(Load(file).image);
  }

  /** The bytes themselves need not come back: with a colour twice in the palette the first entry is written. */
  lemma {:induction false} FirstEntryWins(cs: seq<Color>, i: nat, j: nat)
    requires i < j < |cs| && cs[i] == cs[j]
    ensures ColorIndex(cs, cs[j]) <= i
  {
  }
}
