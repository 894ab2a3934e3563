// What load and write do to the bytes of a file, said with offsets and bytes alone.
module FileFormat {
  import opened BitMap
  import opened RoundTrip
  import opened SDKBitMap

  // ----- little-endian numbers -----

  function U16(f: seq<Byte>, at: nat): nat
    requires at + 2 <= |f|
  {
    f[at] as nat + 0x100 * f[at + 1] as nat
  }

  function U32(f: seq<Byte>, at: nat): nat
    requires at + 4 <= |f|
  {
    f[at] as nat + 0x100 * f[at + 1] as nat + 0x1_0000 * f[at + 2] as nat + 0x100_0000 * f[at + 3] as nat
  }

  /** In two's complement the highest bit of the last byte is the sign. */
  function S32(f: seq<Byte>, at: nat): int
    requires at + 4 <= |f|
  {
    if f[at + 3] >= 0x80 then U32(f, at) - 0x1_0000_0000 else U32(f, at)
  }

  // ----- which files load -----

  /** "BM", not compressed, and at least 8 bits a pixel in a short. */
  predicate Accepted(f: seq<Byte>) {
    && |f| >= 54
    && f[0] == 66 && f[1] == 77
    && f[30] == 0 && f[31] == 0 && f[32] == 0 && f[33] == 0
    && f[29] < 0x80 && U16(f, 28) >= 8
  }

  predicate Indexed(f: seq<Byte>)
    requires |f| >= 54
  {
    f[28] == 8 && f[29] == 0
  }

  function DataStart(f: seq<Byte>): nat
    requires |f| >= 54
  {
    if Indexed(f) then 54 + 1024 else 54
  }

  /** The bytes of a row of w pixels in the file, w >= 0. */
  function Row(f: seq<Byte>, w: int): int
    requires |f| >= 54
  {
    (if Indexed(f) then w else 3 * w) + (4 - 3 * w % 4) % 4
  }

  /** Nothing is read that is not there. */
  predicate Complete(f: seq<Byte>)
    requires |f| >= 54
  {
    && S32(f, 18) >= 0 && S32(f, 22) >= 0
    && DataStart(f) + S32(f, 22) * Row(f, S32(f, 18)) <= |f|
    && S32(f, 22) * Row(f, S32(f, 18)) <= (U32(f, 2) - U32(f, 10)) % 0x1_0000_0000
  }

  lemma {:induction false} HeaderFields(f: seq<Byte>)
    requires |f| >= 54
    ensures var header, info := f[..HEADER], f[HEADER..HEADER + INFO];
            && (Id(header) == ID <==> f[0] == 66 && f[1] == 77)
            && BufferSize(header) == (U32(f, 2) - U32(f, 10)) % 0x1_0000_0000
            && Width(info) == S32(f, 18) && Height(info) == S32(f, 22)
            && (Compression(info) == 0 <==> f[30] == 0 && f[31] == 0 && f[32] == 0 && f[33] == 0)
            && BitsPerPixel(info) == (if f[29] >= 0x80 then U16(f, 28) - 0x1_0000 else U16(f, 28))
  {
    var header, info := f[..HEADER], f[HEADER..HEADER + INFO];
    WordsAt(f, header, 0, 0);
    WordsAt(f, header, 0, 2);
    WordsAt(f, header, 0, 10);
    WordsAt(f, info, HEADER, 4);
    WordsAt(f, info, HEADER, 8);
    WordsAt(f, info, HEADER, 14);
    WordsAt(f, info, HEADER, 16);
    hide Word16, Word32, U16, U32;
    IdBytes(f);
    ZeroBytes(f, 30);
    SignBit(f, 18);
    SignBit(f, 22);
    SignBit2(f, 28);
  }

  /** Words of a part of the file are words of the file. */
  lemma {:induction false} WordsAt(f: seq<Byte>, part: seq<Byte>, from: nat, at: nat)
    requires from + |part| <= |f| && part == f[from..from + |part|] && at + 2 <= |part|
    ensures Word16(part, at) == U16(f, from + at)
    ensures at + 4 <= |part| ==> Word32(part, at) == U32(f, from + at)
  {
    assert part[at] == f[from + at] && part[at + 1] == f[from + at + 1];
    if at + 4 <= |part| {
      assert part[at + 2] == f[from + at + 2] && part[at + 3] == f[from + at + 3];
    }
  }

  lemma {:induction false} IdBytes(f: seq<Byte>)
    requires |f| >= 2
    ensures Signed(U16(f, 0), 0x1_0000) == ID <==> f[0] == 66 && f[1] == 77
  {
  }

  lemma {:induction false} ZeroBytes(f: seq<Byte>, at: nat)
    requires at + 4 <= |f|
    ensures U32(f, at) == 0 <==> f[at] == 0 && f[at + 1] == 0 && f[at + 2] == 0 && f[at + 3] == 0
  {
  }

  lemma {:induction false} SignBit(f: seq<Byte>, at: nat)
    requires at + 4 <= |f|
    ensures Signed(U32(f, at), 0x1_0000_0000) == S32(f, at)
  {
  }

  lemma {:induction false} SignBit2(f: seq<Byte>, at: nat)
    requires at + 2 <= |f|
    ensures Signed(U16(f, at), 0x1_0000) == if f[at + 1] >= 0x80 then U16(f, at) - 0x1_0000 else U16(f, at)
    ensures U16(f, at) == 8 <==> f[at] == 8 && f[at + 1] == 0
    ensures f[at + 1] >= 0x80 ==> U16(f, at) - 0x1_0000 < 0
  {
  }

  /** Rows as the file has them. */
  lemma {:induction false} RowIsRow(f: seq<Byte>)
    requires |f| >= 54 && S32(f, 18) >= 0
    ensures var info := f[HEADER..HEADER + INFO];
            && (BitsPerPixel(info) == 8 <==> Indexed(f))
            && RowBytes(S32(f, 18), BitsPerPixel(info)) == Row(f, S32(f, 18))
            && HEADER + INFO + PaletteSize(BitsPerPixel(info)) == DataStart(f)
  {
    HeaderFields(f);
    SignBit2(f, 28);
    hide Width, Height, Id, BufferSize, BitsPerPixel, U16, S32;
  }

  /** Load's tests, in its own terms. */
  lemma {:induction false} LoadTests(f: seq<Byte>)
    requires |f| >= 54
    ensures var header, info := f[..HEADER], f[HEADER..HEADER + INFO];
            var bpp := BitsPerPixel(info);
            && (Load(f).Rejected? <==> Id(header) != ID || Compression(info) != 0 || bpp < 8)
            && (Load(f).Loaded? <==>
                && Id(header) == ID && Compression(info) == 0 && bpp >= 8
                && HEADER + INFO + PaletteSize(bpp) <= |f| && Width(info) >= 0 && Height(info) >= 0
                && Height(info) * RowBytes(Width(info), bpp) <= BufferSize(header)
                && Height(info) * RowBytes(Width(info), bpp) <= |f| - (HEADER + INFO + PaletteSize(bpp)))
  {
    hide Width, Height, Id, BufferSize, BitsPerPixel, RowBytes, Compression, Palette, Pixels;
  }

  /** A file is loaded exactly if it is accepted and complete, and refused exactly if it is not accepted. */
  lemma {:induction false} LoadExactly(f: seq<Byte>)
    ensures Load(f).Loaded? <==> Accepted(f) && Complete(f)
    ensures Load(f).Rejected? <==> |f| >= 54 && !Accepted(f)
  {
    if |f| >= 54 {
      hide Load, Width, Height, Id, BufferSize, BitsPerPixel, U16, U32, S32, RowBytes, Row, Indexed, Compression,
        PaletteSize, DataStart;
      LoadTests(f);
      HeaderFields(f);
      SignBit2(f, 28);
      if S32(f, 18) >= 0 && S32(f, 22) >= 0 {
        RowIsRow(f);
        MulMono(0, S32(f, 22), RowBytes(S32(f, 18), BitsPerPixel(f[HEADER..HEADER + INFO])));
      }
    }
  }

  // ----- what is loaded -----

  /** Entry i of the file's palette, which stands behind the headers, four bytes each. */
  function Entry(f: seq<Byte>, i: nat): Color
    requires 54 + 4 * i + 4 <= |f|
  {
    Color(f[54 + 4 * i], f[55 + 4 * i], f[56 + 4 * i], f[57 + 4 * i])
  }

  /** As many pixels as width by height, each from its own bytes: blue first, or the index of a palette entry. */
  lemma {:induction false} LoadedBytes(f: seq<Byte>, x: nat, y: nat)
    requires Accepted(f) && Complete(f) && x < S32(f, 18) && y < S32(f, 22)
    ensures Load(f).Loaded? && |Load(f).image.pixels| == S32(f, 18) * S32(f, 22)
    ensures var at := DataStart(f) + y * Row(f, S32(f, 18)) + (if Indexed(f) then x else 3 * x);
            && 0 <= at && at + (if Indexed(f) then 1 else 3) <= |f|
            && 0 <= y * S32(f, 18) + x < |Load(f).image.pixels|
            && Load(f).image.pixels[y * S32(f, 18) + x] ==
               if Indexed(f) then Entry(f, f[at] as nat) else Color(f[at + 2], f[at + 1], f[at], 255)
  {
    LoadExactly(f);
    HeaderFields(f);
    RowIsRow(f);
    var w, h := S32(f, 18), S32(f, 22);
    var bpp := BitsPerPixel(f[HEADER..HEADER + INFO]);
    StartAt(w, h, x, y, bpp);
    PixelFrom(f, x, y, w, h, bpp);
  }

  lemma {:induction false} PixelFrom(f: seq<Byte>, x: nat, y: nat, w: nat, h: nat, bpp: int)
    requires Load(f).Loaded? && |f| >= 54 && x < w && y < h
    requires var info := f[HEADER..HEADER + INFO]; Width(info) == w && Height(info) == h && BitsPerPixel(info) == bpp
    requires bpp == 8 <==> Indexed(f)
    requires RowBytes(w, bpp) == Row(f, w) && HEADER + INFO + PaletteSize(bpp) == DataStart(f)
    ensures |Load(f).image.pixels| == w * h
    ensures var at := DataStart(f) + y * Row(f, w) + (if Indexed(f) then x else 3 * x);
            && 0 <= at && at + (if Indexed(f) then 1 else 3) <= |f|
            && 0 <= y * w + x < |Load(f).image.pixels|
            && Load(f).image.pixels[y * w + x] ==
               if Indexed(f) then Entry(f, f[at] as nat) else Color(f[at + 2], f[at + 1], f[at], 255)
  {
    hide Load, Width, Height, Id, BufferSize, Compression, BitsPerPixel, StartOf, Row, RowBytes, Padding, Palette,
      PixelOf, Entry, Indexed;
    LoadedIs(f);
    StartAt(w, h, x, y, bpp);
    PixelAt(f, StartOf(y * w + x, w, h, bpp), bpp);
  }

  lemma {:induction false} LoadedIs(f: seq<Byte>)
    requires Load(f).Loaded?
    ensures |f| >= HEADER + INFO
    ensures var info := f[HEADER..HEADER + INFO];
            var bpp := BitsPerPixel(info);
            var start := HEADER + INFO + PaletteSize(bpp);
            && start <= |f| && Width(info) >= 0 && Height(info) >= 0
            && Height(info) * RowBytes(Width(info), bpp) <= |f| - start
            && var colors := if bpp == 8 then Palette(f[HEADER + INFO..start]) else [];
            && Load(f).image.pixels == Pixels(f[start..], Width(info), Height(info), bpp, colors)
  {
    hide Width, Height, Id, BufferSize, Compression, BitsPerPixel, RowBytes, Palette, Pixels;
  }

  /** A pixel by its place in the data. */
  lemma {:induction false} PixelAt(f: seq<Byte>, at: nat, bpp: int)
    requires |f| >= 54 && (bpp == 8 <==> Indexed(f)) && HEADER + INFO + PaletteSize(bpp) == DataStart(f)
    requires DataStart(f) + at + BytesPerPixel(bpp) <= |f|
    ensures var colors := if bpp == 8 then Palette(f[HEADER + INFO..HEADER + INFO + PaletteSize(bpp)]) else [];
            var i := DataStart(f) + at;
            PixelOf(f[DataStart(f)..], at, bpp, colors) ==
            if Indexed(f) then Entry(f, f[i] as nat) else Color(f[i + 2], f[i + 1], f[i], 255)
  {
    var data := f[DataStart(f)..];
    assert data[at] == f[DataStart(f) + at];
    if bpp == 8 {
      var i := data[at] as nat;
      var colors := f[HEADER + INFO..HEADER + INFO + 4 * COLORS];
      assert colors[4 * i] == f[54 + 4 * i] && colors[4 * i + 1] == f[55 + 4 * i];
      assert colors[4 * i + 2] == f[56 + 4 * i] && colors[4 * i + 3] == f[57 + 4 * i];
    } else {
      assert data[at + 1] == f[DataStart(f) + at + 1] && data[at + 2] == f[DataStart(f) + at + 2];
    }
  }

  // ----- what is written -----

  /** One byte of the palette part: entry i's bytes in order. */
  lemma {:induction false} PaletteByte(cs: seq<Color>, i: nat)
    requires i < |cs|
    ensures var b := PaletteBytes(cs);
            b[4 * i] == cs[i].x && b[4 * i + 1] == cs[i].y && b[4 * i + 2] == cs[i].z && b[4 * i + 3] == cs[i].w
  {
    assert 4 * i / 4 == i && (4 * i + 1) / 4 == i && (4 * i + 2) / 4 == i && (4 * i + 3) / 4 == i;
  }

  /** The pixels' part of the written file: a pixel's bytes, and the zeros behind a row. */
  lemma {:induction false} RowPart(m: Image, x: nat, y: nat)
    requires Shaped(m) && y < Height(m.info) && x < Width(m.info)
    ensures var w, h, bpp := Width(m.info), Height(m.info), BitsPerPixel(m.info);
            var at, c := y * RowBytes(w, bpp) + x * BytesPerPixel(bpp), BytesPerPixel(bpp);
            && 0 <= at && at + c <= |RowsUpTo(m, h)| && 0 <= y * w + x < |m.pixels|
            && RowsUpTo(m, h)[at..at + c] == PixelBytes(m, m.pixels[y * w + x])
  {
    hide Width, Height, BitsPerPixel, RowUpTo, RowsUpTo, Zeros, Padding, PixelBytes;
    var w, h, bpp := Width(m.info), Height(m.info), BitsPerPixel(m.info);
    var c, row := BytesPerPixel(bpp), RowBytes(w, bpp);
    RowsHold(m, h, y);
    MulMono(0, x, c);
    RowHolds(m, y, w, x, c, x * c);
    MulMono(0, y, w);
    SliceOfSlice(RowsUpTo(m, h), y * row, row, RowUpTo(m, y, w), Zeros(Padding(w)), x * c, c);
  }

  lemma {:induction false} ZeroPart(m: Image, z: nat, y: nat)
    requires Shaped(m) && y < Height(m.info)
    requires var w, bpp := Width(m.info), BitsPerPixel(m.info); w * BytesPerPixel(bpp) <= z < RowBytes(w, bpp)
    ensures var at := y * RowBytes(Width(m.info), BitsPerPixel(m.info)) + z;
            0 <= at < |RowsUpTo(m, Height(m.info))| && RowsUpTo(m, Height(m.info))[at] == 0
  {
    hide Width, Height, BitsPerPixel, RowUpTo, RowsUpTo, Padding;
    var w, h, bpp := Width(m.info), Height(m.info), BitsPerPixel(m.info);
    var row := RowBytes(w, bpp);
    RowsHold(m, h, y);
    var whole := RowsUpTo(m, h)[y * row..y * row + row];
    assert whole[z] == Zeros(Padding(w))[z - w * BytesPerPixel(bpp)];
    assert whole[z] == RowsUpTo(m, h)[y * row + z];
  }

  /** The parts of the written file, in the file's own terms. */
  lemma {:induction false} WrittenShape(m: Image)
    requires Shaped(m)
    ensures var f, w, bpp := Write(m), Width(m.info), BitsPerPixel(m.info);
            && |f| >= 54 && f[..14] == m.header && f[14..54] == m.info
            && S32(f, 18) == w && S32(f, 22) == Height(m.info)
            && (Indexed(f) <==> bpp == 8) && Row(f, w) == RowBytes(w, bpp)
            && |f| == DataStart(f) + |RowsUpTo(m, Height(m.info))| && f[DataStart(f)..] == RowsUpTo(m, Height(m.info))
            && (Indexed(f) ==> f[54..1078] == PaletteBytes(m.colors))
  {
    WrittenParts(m);
    HeaderFields(Write(m));
    RowIsRow(Write(m));
    hide Write, Width, Height, BitsPerPixel, RowsUpTo, PaletteBytes, S32, Row, RowBytes;
  }

  /** The file that is written: the headers as they were, and the palette. */
  lemma {:induction false} WrittenHeaders(m: Image)
    requires Shaped(m)
    ensures var f := Write(m);
            && |f| >= 54 && f[..14] == m.header && f[14..54] == m.info
            && S32(f, 18) == Width(m.info) && S32(f, 22) == Height(m.info)
            && |f| == DataStart(f) + S32(f, 22) * Row(f, S32(f, 18))
            && (Indexed(f) ==> |m.colors| == 256)
            && forall i :: Indexed(f) && 0 <= i < 256 ==> 58 + 4 * i <= |f| && Entry(f, i) == m.colors[i]
  {
    hide Write, Width, Height, BitsPerPixel, RowsUpTo, PaletteBytes, S32, Row, RowBytes;
    WrittenShape(m);
    var f := Write(m);
    if Indexed(f) {
      var b := f[54..1078];
      forall i | 0 <= i < 256
        ensures 58 + 4 * i <= |f| && Entry(f, i) == m.colors[i]
      {
        PaletteByte(m.colors, i);
        assert f[54 + 4 * i] == b[4 * i] && f[55 + 4 * i] == b[4 * i + 1];
        assert f[56 + 4 * i] == b[4 * i + 2] && f[57 + 4 * i] == b[4 * i + 3];
      }
    }
  }

  /** A pixel's bytes: blue first, or the index of the first palette entry that is its colour. */
  lemma {:induction false} WrittenPixel(m: Image, x: nat, y: nat)
    requires Drawn(m) && y < Height(m.info) && x < Width(m.info)
    ensures var f, w := Write(m), Width(m.info);
            && |f| >= 54
            && var at := DataStart(f) + y * Row(f, w) + (if Indexed(f) then x else 3 * x);
            && 0 <= at && at + (if Indexed(f) then 1 else 3) <= |f| && 0 <= y * w + x < |m.pixels|
            && var p := m.pixels[y * w + x];
            && (Indexed(f) ==> |m.colors| == 256 && m.colors[f[at] as nat] == p)
            && (Indexed(f) ==> forall j :: 0 <= j < f[at] as nat ==> m.colors[j] != p)
            && (!Indexed(f) ==> f[at] == p.z && f[at + 1] == p.y && f[at + 2] == p.x)
  {
    hide Write, Width, Height, BitsPerPixel, RowsUpTo, PaletteBytes, S32, Row, RowBytes, Indexed, DataStart;
    WrittenShape(m);
    RowPart(m, x, y);
    var f, w, bpp := Write(m), Width(m.info), BitsPerPixel(m.info);
    var rows := RowsUpTo(m, Height(m.info));
    var at, c := y * RowBytes(w, bpp) + x * BytesPerPixel(bpp), BytesPerPixel(bpp);
    assert Representable(m, m.pixels[y * w + x]);
    var b := rows[at..at + c];
    assert f[DataStart(f)..][at] == f[DataStart(f) + at] == b[0];
    if bpp != 8 {
      assert f[DataStart(f)..][at + 1] == f[DataStart(f) + at + 1] == b[1];
      assert f[DataStart(f)..][at + 2] == f[DataStart(f) + at + 2] == b[2];
    }
  }

  /** The bytes behind the pixels of a row are zero. */
  lemma {:induction false} WrittenPadding(m: Image, z: nat, y: nat)
    requires Shaped(m) && y < Height(m.info)
    requires var f, w := Write(m), Width(m.info);
             |f| >= 54 && (if Indexed(f) then w else 3 * w) <= z < Row(f, w)
    ensures var f := Write(m); var at := DataStart(f) + y * Row(f, Width(m.info)) + z; 0 <= at < |f| && f[at] == 0
  {
    hide Write, Width, Height, BitsPerPixel, RowsUpTo, PaletteBytes, S32, Row, RowBytes, Indexed, DataStart;
    WrittenShape(m);
    ZeroPart(m, z, y);
    var f, w, bpp := Write(m), Width(m.info), BitsPerPixel(m.info);
    assert f[DataStart(f)..][y * RowBytes(w, bpp) + z] == f[DataStart(f) + (y * RowBytes(w, bpp) + z)];
  }
}
