// The reader and the writer as nested loops over rows with a running index.
module SDKBitMap {
  import opened Wrappers
  import opened BitMap
  import opened RoundTrip

  class SDKBitMap {
    var header: seq<Byte>
    var info: seq<Byte>
    var colors: seq<Color>
    var pixels: seq<Color>
    var isLoaded: bool

    ghost function Value(): Image
      reads this
    {
      Image(header, info, colors, pixels)
    }

    constructor ()
      ensures !isLoaded
    {
      header, info, colors, pixels, isLoaded := [], [], [], [], false;
    }

    /** load, for a file whose contents are all there. */
    method LoadFrom(file: seq<Byte>)
      requires Load(file) != Undefined
      modifies this
      ensures isLoaded == Load(file).Loaded?
      ensures isLoaded ==> Load(file) == Loaded(Value()) && Faithful(Value())
    {
      hide Faithful, Shaped, Width, Height, BitsPerPixel, Id, Compression, BufferSize, Palette, Pixels, RowBytes;
      pixels, colors, isLoaded := [], [], false;
      header := file[..HEADER];
      if Id(header) != ID {
        return;
      }
      info := file[HEADER..HEADER + INFO];
      if Compression(info) != 0 || BitsPerPixel(info) < 8 {
        return;
      }
      var bpp := BitsPerPixel(info);
      var at := HEADER + INFO;
      if bpp == 8 {
        colors := Palette(file[at..at + 4 * COLORS]);
        at := at + 4 * COLORS;
      }
      pixels := ReadPixels(file[at..], Width(info), Height(info), bpp, colors);
      isLoaded := true;
      LoadIsFaithful(file);
    }

    /** write(filename): nothing when no bitmap is loaded. */
    method Save() returns (file: Option<seq<Byte>>)
      requires isLoaded ==> Faithful(Value())
      ensures file == if isLoaded then Some(Write(Value())) else None
    {
      if !isLoaded {
        return None;
      }
      hide Width, Height, BitsPerPixel, RowUpTo, RowsUpTo, Padding, Representable, Id,
        Compression, BufferSize, RowBytes, PaletteBytes;
      ghost var m := Value();
      NoRows(m);
      var out := header + info;
      if BitsPerPixel(info) == 8 {
        out := out + PaletteBytes(colors);
      }
      ghost var start := out;
      var w, h, bpp := Width(info), Height(info), BitsPerPixel(info);
      var y := 0;
      while y < h
        invariant 0 <= y <= h
        invariant out == start + RowsUpTo(m, y)
      {
        var row := WriteRow(y);
        NextRow(m, y);
        Reassociate(start, RowsUpTo(m, y), row, Zeros(Padding(w)));
        out := out + row + Zeros(Padding(w));
        y := y + 1;
      }
      return Some(out);
    }

    /** The inner loop of write. */
    method WriteRow(y: int) returns (row: seq<Byte>)
      requires Shaped(Value()) && 0 <= y < Height(info)
      ensures row == RowUpTo(Value(), y, Width(info))
    {
      hide Width, Height, BitsPerPixel;
      ghost var m := Value();
      row := [];
      var x := 0;
      while x < Width(info)
        invariant 0 <= x <= Width(info)
        invariant row == RowUpTo(m, y, x)
      {
        InImage(m, x, y);
        var p := pixels[y * Width(info) + x];
        if BitsPerPixel(info) == 8 {
          var i := FindColor(colors, p);
          row := row + [ByteOf(i)];
        } else {
          row := row + [p.z, p.y, p.x];
        }
        x := x + 1;
      }
    }
  }

  lemma {:induction false} NoRows(m: Image)
    requires Shaped(m)
    ensures RowsUpTo(m, 0) == []
  {
  }

  lemma {:induction false} NextRow(m: Image, y: nat)
    requires Shaped(m) && y < Height(m.info)
    ensures RowsUpTo(m, y + 1) == RowsUpTo(m, y) + RowUpTo(m, y, Width(m.info)) + Zeros(Padding(Width(m.info)))
  {
    hide Width, Height, BitsPerPixel, RowUpTo, Zeros, Padding;
  }

  lemma {:induction false} Reassociate(a: seq<Byte>, b: seq<Byte>, c: seq<Byte>, d: seq<Byte>)
    ensures a + b + c + d == a + (b + c + d)
  {
  }

  /** colorIndex. */
  method FindColor(cs: seq<Color>, c: Color) returns (i: nat)
    ensures i == ColorIndex(cs, c)
  {
    i := 0;
    while i < |cs|
      invariant 0 <= i <= |cs|
      invariant forall j :: 0 <= j < i ==> cs[j] != c
    {
      if cs[i] == c {
        return;
      }
      i := i + 1;
    }
    return 0;
  }

  /** The loops of load; `index` runs over the data and skips the padding of each row. */
  method ReadPixels(data: seq<Byte>, w: nat, h: nat, bpp: int, colors: seq<Color>) returns (pixels: seq<Color>)
    requires h * RowBytes(w, bpp) <= |data| && (bpp == 8 ==> |colors| == COLORS)
    ensures pixels == Pixels(data, w, h, bpp, colors)
  {
    hide RowBytes, StartOf, Padding;
    pixels := [];
    var index := 0;
    var y := 0;
    while y < h
      invariant 0 <= y <= h
      invariant index == y * RowBytes(w, bpp)
      invariant |pixels| == y * w <= w * h
      invariant forall k :: 0 <= k < |pixels| ==> pixels[k] == PixelOf(data, StartOf(k, w, h, bpp), bpp, colors)
    {
      var x := 0;
      MulMono(y + 1, h, w);
      OneMore(y, w);
      while x < w
        invariant 0 <= x <= w
        invariant index == y * RowBytes(w, bpp) + x * BytesPerPixel(bpp)
        invariant |pixels| == y * w + x <= w * h
        invariant forall k :: 0 <= k < |pixels| ==> pixels[k] == PixelOf(data, StartOf(k, w, h, bpp), bpp, colors)
      {
        StartAt(w, h, x, y, bpp);
        var p: Color;
        if bpp == 8 {
          p := colors[data[index] as nat];
          index := index + 1;
        } else {
          p := Color(data[index + 2], data[index + 1], data[index], 255);
          index := index + 3;
        }
        pixels := pixels + [p];
        OneMore(x, BytesPerPixel(bpp));
        x := x + 1;
      }
      index := index + Padding(w);
      RowIs(w, bpp);
      OneMore(y, RowBytes(w, bpp));
      y := y + 1;
    }
  }

  lemma {:induction false} RowIs(w: nat, bpp: int)
    ensures RowBytes(w, bpp) == w * BytesPerPixel(bpp) + Padding(w)
  {
  }

  /** The running index is where pixel (x, y) starts. */
  lemma {:induction false} StartAt(w: nat, h: nat, x: nat, y: nat, bpp: int)
    requires x < w && y < h
    ensures y * w + x < w * h
    ensures StartOf(y * w + x, w, h, bpp) == y * RowBytes(w, bpp) + x * BytesPerPixel(bpp)
    ensures y * RowBytes(w, bpp) + x * BytesPerPixel(bpp) + BytesPerPixel(bpp) <= h * RowBytes(w, bpp)
  {
    Within(y, h, x, w, 1, w);
    Within(y, h, x, w, BytesPerPixel(bpp), RowBytes(w, bpp));
    StartIs(y * w + x, w, h, bpp);
    DivOf(y, x, w);
  }

  lemma {:induction false} DivOf(q: nat, r: nat, d: nat)
    requires r < d
    ensures q * d + r >= 0 && (q * d + r) / d == q && (q * d + r) % d == r
  {
    MulMono(0, q, d);
    var n := q * d + r;
    var q' := n / d;
    OneMore(q, d);
    OneMore(q', d);
    if q < q' {
      MulMono(q + 1, q', d);
    } else if q' < q {
      MulMono(q' + 1, q, d);
    }
  }
}
