/**
  Turning the raw frame-buffer bytes into one grey byte per screen pixel, row by row
  from the top-left corner, with the tone curve applied.
*/
module PixelDecode {
  import opened Memory
  import opened Curves

  // ----- Index arithmetic -----

  /** The pixel at column `x` of row `y` of an image `w` pixels wide. */
  function At(img: seq<byte>, w: nat, x: nat, y: nat): byte
    requires x < w && y * w + x < |img|
  {
    img[y * w + x]
  }

  lemma MulLeft(a: nat, b: nat, c: nat)
    requires a <= b
    ensures a * c <= b * c
  {
  }

  /** Row-major positions of the pixels of a `w` by `h` image lie inside the image. */
  lemma GridIndex(w: nat, h: nat, x: nat, y: nat)
    requires x < w && y < h
    ensures y * w + x < w * h
    ensures (y + 1) * w == y * w + w
  {
    MulLeft(y + 1, h, w);
  }

  /** Row `y` of a `w` by `h` image ends inside the image. */
  lemma RowBound(w: nat, h: nat, y: nat)
    requires y < h
    ensures (y + 1) * w == y * w + w <= w * h
  {
    MulLeft(y + 1, h, w);
  }

  /** Division and remainder recover the quotient and remainder that built a number. */
  lemma DivModUnique(q: nat, r: nat, d: nat)
    requires r < d
    ensures (q * d + r) / d == q && (q * d + r) % d == r
  {
    var n := q * d + r;
    var q', r' := n / d, n % d;
    assert n == q' * d + r';
    if q' < q {
      MulLeft(q' + 1, q, d);
    } else if q' > q {
      MulLeft(q + 1, q', d);
    }
  }

  /** Every position in a `w`-wide image is `y * w + x` for `y = i / w` and `x = i % w`. */
  lemma GridOfIndex(w: nat, h: nat, i: nat)
    requires i < w * h
    ensures w > 0 && i % w < w && i / w < h && (i / w) * w + i % w == i
  {
    if i / w >= h {
      MulLeft(h, i / w, w);
    }
  }

  // ----- reMarkable 2: 16-bit samples, stored rotated -----

  /** `chunks_exact(2).map(|c| c[1])`: the high (second) byte of each little-endian sample. */
  function HighBytes(raw: seq<byte>): (r: seq<byte>)
    ensures |r| == |raw| / 2
    ensures forall i | 0 <= i < |r| :: r[i] == raw[2 * i + 1]
  {
    seq(|raw| / 2, i requires 0 <= i < |raw| / 2 => raw[2 * i + 1])
  }

  /**
    The sample that shows pixel (x, y): the frame buffer holds the picture by
    columns from the right edge, each column from the bottom up.
  */
  function Rm2SourceIndex(w: nat, h: nat, x: nat, y: nat): nat
    requires x < w && y < h
  {
    (h - 1 - y) + (w - 1 - x) * h
  }

  /** Every pixel reads a sample inside the frame. */
  lemma {:induction false} Rm2SourceInRange(w: nat, h: nat, x: nat, y: nat)
    requires x < w && y < h
    ensures Rm2SourceIndex(w, h, x, y) < w * h
  {
    MulLeft(w - 1 - x, w - 1, h);
    assert (w - 1) * h + h == w * h;
  }

  /** No sample is read for two pixels. */
  lemma {:induction false} Rm2SourceInjective(w: nat, h: nat, x1: nat, y1: nat, x2: nat, y2: nat)
    requires x1 < w && y1 < h && x2 < w && y2 < h
    requires Rm2SourceIndex(w, h, x1, y1) == Rm2SourceIndex(w, h, x2, y2)
    ensures x1 == x2 && y1 == y2
  {
    DivModUnique(w - 1 - x1, h - 1 - y1, h);
    DivModUnique(w - 1 - x2, h - 1 - y2, h);
    assert (w - 1 - x1) * h + (h - 1 - y1) == (w - 1 - x2) * h + (h - 1 - y2);
  }

  /** Every sample of the frame is read, for the pixel this names. */
  lemma {:induction false} Rm2SourceOnto(w: nat, h: nat, j: nat)
    requires j < w * h
    ensures h > 0 && j / h < w && j % h < h
    ensures Rm2SourceIndex(w, h, w - 1 - j / h, h - 1 - j % h) == j
  {
    GridOfIndex(h, w, j);
    assert w * h == h * w;
  }

  /** `encode_png_rm2` before the PNG encoding: the grey image the loops fill in. */
  function Rm2Gray(raw: seq<byte>, w: nat, h: nat): (img: seq<byte>)
    requires 2 * (w * h) <= |raw|
    ensures |img| == w * h
  {
    seq(w * h, i requires 0 <= i < w * h =>
      GridOfIndex(w, h, i);
      Rm2SourceInRange(w, h, i % w, i / w);
      ApplyCurves(HighBytes(raw)[Rm2SourceIndex(w, h, i % w, i / w)]))
  }

  /** Only the high byte of each sample matters. */
  lemma Rm2IgnoresLowBytes(raw1: seq<byte>, raw2: seq<byte>, w: nat, h: nat)
    requires 2 * (w * h) <= |raw1| && |raw1| == |raw2|
    requires forall i | 0 <= i < |raw1| / 2 :: raw1[2 * i + 1] == raw2[2 * i + 1]
    ensures Rm2Gray(raw1, w, h) == Rm2Gray(raw2, w, h)
  {
    assert HighBytes(raw1) == HighBytes(raw2);
  }

  /**
    Pixel (x, y) lies at `y * w + x` and is the curved high byte of the sample at the
    rotated position.
  */
  lemma Rm2Pixel(raw: seq<byte>, w: nat, h: nat, x: nat, y: nat)
    requires 2 * (w * h) <= |raw| && x < w && y < h
    ensures y * w + x < w * h && 2 * Rm2SourceIndex(w, h, x, y) + 1 < |raw|
    ensures At(Rm2Gray(raw, w, h), w, x, y) == ApplyCurves(raw[2 * Rm2SourceIndex(w, h, x, y) + 1])
  {
    GridIndex(w, h, x, y);
    DivModUnique(y, x, w);
    Rm2SourceInRange(w, h, x, y);
  }

  /** `encode_png_rm2`'s loops: for each row, for each column, store the curved sample. */
  method EncodeRm2(raw: seq<byte>, w: nat, h: nat) returns (out: seq<byte>)
    requires 2 * (w * h) <= |raw|
    ensures out == Rm2Gray(raw, w, h)
  {
    var rawU8 := HighBytes(raw);
    var processed := new byte[w * h];
    ghost var gray := Rm2Gray(raw, w, h);
    for y := 0 to h
      invariant y * w <= w * h
      invariant forall i | 0 <= i < y * w :: processed[i] == gray[i]
    {
      RowBound(w, h, y);
      for x := 0 to w
        invariant forall i | 0 <= i < y * w + x :: processed[i] == gray[i]
      {
        Rm2Pixel(raw, w, h, x, y);
        var srcIdx := Rm2SourceIndex(w, h, x, y);
        var dstIdx := y * w + x;
        processed[dstIdx] := ApplyCurves(rawU8[srcIdx]);
      }
    }
    assert h * w == w * h;
    out := processed[..];
  }

  // ----- Paper Pro: 32-bit RGBA -----

  /** The truncating mean of three channels, computed in 16 bits; it lies between them. */
  function Gray(r: byte, g: byte, b: byte): (v: byte)
    ensures (r as int + g as int + b as int) <= 765
    ensures 3 * v <= r as int + g as int + b as int < 3 * v + 3
    ensures (r <= v || g <= v || b <= v) && (v <= r || v <= g || v <= b)
  {
    (r as int + g as int + b as int) / 3
  }

  /** Grey is unchanged by a colour of equal channels. */
  lemma GrayOfGrey(v: byte)
    ensures Gray(v, v, v) == v
  {
  }

  /** `encode_png_rmpp` before the PNG encoding: the grey image the loops fill in. */
  function RgbaGray(raw: seq<byte>, w: nat, h: nat): (img: seq<byte>)
    requires 4 * (w * h) <= |raw| + 1
    ensures |img| == w * h
  {
    seq(w * h, i requires 0 <= i < w * h =>
      ApplyCurves(Gray(raw[4 * i], raw[4 * i + 1], raw[4 * i + 2])))
  }

  /** Pixel (x, y) lies at `y * w + x` and is the curved mean of the red, green and blue bytes of its 4-byte group. */
  lemma RgbaPixel(raw: seq<byte>, w: nat, h: nat, x: nat, y: nat)
    requires 4 * (w * h) <= |raw| + 1 && x < w && y < h
    ensures y * w + x < w * h && 4 * (y * w + x) + 2 < |raw|
    ensures At(RgbaGray(raw, w, h), w, x, y) ==
      ApplyCurves(Gray(raw[4 * (y * w + x)], raw[4 * (y * w + x) + 1], raw[4 * (y * w + x) + 2]))
  {
    GridIndex(w, h, x, y);
    var i, n := y * w + x, w * h;
    assert i < n && 4 * n <= |raw| + 1;
    assert 4 * i + 2 < |raw|;
  }

  /** The byte of channel `c` (0 red, 1 green, 2 blue, 3 alpha) of pixel `p`. */
  function Channel(raw: seq<byte>, p: nat, c: nat): byte
    requires c < 4 && 4 * p + c < |raw|
  {
    raw[4 * p + c]
  }

  /** The alpha byte never matters. */
  lemma RgbaIgnoresAlpha(raw1: seq<byte>, raw2: seq<byte>, w: nat, h: nat)
    requires 4 * (w * h) <= |raw1| + 1 && |raw1| == |raw2|
    requires forall p, c | 0 <= p < w * h && 0 <= c < 3 :: Channel(raw1, p, c) == Channel(raw2, p, c)
    ensures RgbaGray(raw1, w, h) == RgbaGray(raw2, w, h)
  {
    forall i | 0 <= i < w * h
      ensures RgbaGray(raw1, w, h)[i] == RgbaGray(raw2, w, h)[i]
    {
      assert Channel(raw1, i, 0) == Channel(raw2, i, 0);
      assert Channel(raw1, i, 1) == Channel(raw2, i, 1);
      assert Channel(raw1, i, 2) == Channel(raw2, i, 2);
    }
  }

  /** `encode_png_rmpp`'s loops: for each row, for each column, store the curved mean. */
  method EncodeRmpp(raw: seq<byte>, w: nat, h: nat) returns (out: seq<byte>)
    requires 4 * (w * h) <= |raw| + 1
    ensures out == RgbaGray(raw, w, h)
  {
    var processed := new byte[w * h];
    ghost var gray := RgbaGray(raw, w, h);
    for y := 0 to h
      invariant y * w <= w * h
      invariant forall i | 0 <= i < y * w :: processed[i] == gray[i]
    {
      RowBound(w, h, y);
      for x := 0 to w
        invariant forall i | 0 <= i < y * w + x :: processed[i] == gray[i]
      {
        RgbaPixel(raw, w, h, x, y);
        var pixelIdx := (y * w + x) * 4;
        var r := raw[pixelIdx];
        var g := raw[pixelIdx + 1];
        var b := raw[pixelIdx + 2];
        var gray' := Gray(r, g, b);
        processed[y * w + x] := ApplyCurves(gray');
      }
    }
    assert h * w == w * h;
    out := processed[..];
  }
}
