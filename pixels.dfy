/** The decode paths of `captureFrame`: the RGB24 path (vertical flip, then a
    blue/red swap) and the packed YUY2 path (`yuv2rgb` per macropixel, then a
    vertical flip), with the `yuv2rgb` colour conversion they use. */
module PixelConvert {
  import opened MediaTypes

  // ------------------------------------------------------------------ yuv2rgb
  // The double coefficients are written as exact fractions over 10^6
  // (1.370705 = 1370705 / 1000000, and so on).

  /** r = y + 1.370705 (v - 128), converted to an integer by truncation. */
  function RedOf(y: int, u: int, v: int): int
  {
    TruncDiv(y * 1000000 + 1370705 * (v - 128), 1000000)
  }

  /** g = y - 0.698001 (v - 128) - 0.337633 (u - 128), truncated. */
  function GreenOf(y: int, u: int, v: int): int
  {
    TruncDiv(y * 1000000 - 698001 * (v - 128) - 337633 * (u - 128), 1000000)
  }

  /** b = y + 1.732446 (u - 128), truncated. */
  function BlueOf(y: int, u: int, v: int): int
  {
    TruncDiv(y * 1000000 + 1732446 * (u - 128), 1000000)
  }

  function Clamp(x: int): Byte
  {
    if x > 255 then 255 else if x < 0 then 0 else x
  }

  /** One output channel: clamped to [0, 255] first, then scaled by 220/256. */
  function Level(x: int): (r: Byte)
    ensures r <= 219
    ensures x >= 255 ==> r == 219
    ensures x <= 0 ==> r == 0
    ensures 0 <= x <= 255 ==> r == x * 220 / 256
  {
    Clamp(x) * 220 / 256
  }

  /** The four bytes of the little-endian `quint32` that `yuv2rgb` returns:
      red, green, blue, and a zero. */
  function Yuv2Rgb(y: int, u: int, v: int): (p: seq<Byte>)
    ensures |p| == 4 && p[3] == 0
    ensures forall c | 0 <= c < 3 :: p[c] <= 219
  {
    [Level(RedOf(y, u, v)), Level(GreenOf(y, u, v)), Level(BlueOf(y, u, v)), 0]
  }

  /** Without chroma (u = v = 128) every channel is the luma, scaled. */
  lemma NeutralChroma(y: int)
    requires 0 <= y <= 255
    ensures Yuv2Rgb(y, 128, 128) == [y * 220 / 256, y * 220 / 256, y * 220 / 256, 0]
  {
    assert y * 1000000 >= 0;
    assert TruncDiv(y * 1000000, 1000000) == y;
  }

  /** Mid grey stays mid grey: 128 * 220 / 256 = 110 on every channel. */
  lemma MidGray()
    ensures Yuv2Rgb(128, 128, 128) == [110, 110, 110, 0]
  {
    NeutralChroma(128);
  }

  // ------------------------------------------------------------- YUY2 decode

  /** A per-pixel colour conversion, from (y, u, v) to the bytes one call
      stores. The layout of the YUY2 decode below does not depend on which
      conversion is used; `captureFrame` uses `Yuv2RgbBytes`. */
  type Converter = (Byte, Byte, Byte) -> seq<Byte>

  /** Every call of the conversion yields at least one 3-byte pixel. */
  predicate StoresPixel(conv: Converter)
  {
    forall y, u, v :: |conv(y, u, v)| >= 3
  }

  /** `yuv2rgb` applied to the bytes of a sample. */
  function Yuv2RgbBytes(y: Byte, u: Byte, v: Byte): (p: seq<Byte>)
    ensures |p| == 4
  {
    Yuv2Rgb(y, u, v)
  }

  lemma Yuv2RgbStoresPixel()
    ensures StoresPixel(Yuv2RgbBytes)
  {
    forall y: Byte, u: Byte, v: Byte
      ensures |Yuv2RgbBytes(y, u, v)| >= 3
    {
    }
  }

  /** Byte c (0 to 5) of the two RGB pixels macropixel k decodes to: source
      bytes 4k..4k+3 are Y0, U, Y1, V; the first three bytes are the pixel of
      (Y0, U, V), the last three the pixel of (Y1, U, V). */
  function Yuy2Macro(conv: Converter, src: seq<Byte>, k: nat, c: nat): Byte
    requires StoresPixel(conv) && 4 * k + 3 < |src| && c < 6
  {
    if c < 3 then conv(src[4 * k], src[4 * k + 1], src[4 * k + 3])[c]
    else conv(src[4 * k + 2], src[4 * k + 1], src[4 * k + 3])[c - 3]
  }

  /** The image byte at offset p after a YUY2 decode of `src`: byte p % 6 of
      macropixel p / 6, or zero when that macropixel lies beyond the sample. */
  function Yuy2ByteAt(conv: Converter, src: seq<Byte>, p: nat): Byte
    requires StoresPixel(conv)
  {
    if 4 * (p / 6) + 3 < |src| then Yuy2Macro(conv, src, p / 6, p % 6) else 0
  }

  /** The `size`-byte image a YUY2 sample decodes to, before the flip. */
  function Yuy2ToRgb(conv: Converter, src: seq<Byte>, size: nat): (r: seq<Byte>)
    requires StoresPixel(conv)
    ensures |r| == size
  {
    seq(size, p requires 0 <= p < size => Yuy2ByteAt(conv, src, p))
  }

  lemma SixDivMod(k: nat, c: nat)
    requires c < 6
    ensures (6 * k + c) / 6 == k && (6 * k + c) % 6 == c
  {
  }

  lemma Yuy2ByteOf(conv: Converter, src: seq<Byte>, k: nat, c: nat)
    requires StoresPixel(conv) && 4 * k + 3 < |src| && c < 6
    ensures Yuy2ByteAt(conv, src, 6 * k + c) == Yuy2Macro(conv, src, k, c)
  {
    SixDivMod(k, c);
  }

  /** Macropixel k of the sample lands on image bytes 6k..6k+5. */
  lemma Yuy2MacropixelAt(conv: Converter, src: seq<Byte>, size: nat, k: nat, c: nat)
    requires StoresPixel(conv) && 4 * k + 3 < |src| && c < 6 && 6 * k + c < size
    ensures Yuy2ToRgb(conv, src, size)[6 * k + c] == Yuy2Macro(conv, src, k, c)
  {
    var p := 6 * k + c;
    assert Yuy2ToRgb(conv, src, size)[p] == Yuy2ByteAt(conv, src, p);
    Yuy2ByteOf(conv, src, k, c);
  }

  /** A frame of 2 bytes per pixel covers the whole image: no image byte of a
      W*H image (W*H even) is left at its initial zero for want of input. */
  lemma Yuy2CoversImage(src: seq<Byte>, pixels: nat, p: nat)
    requires pixels % 2 == 0 && |src| >= 2 * pixels && p < 3 * pixels
    ensures 4 * (p / 6) + 3 < |src|
  {
  }

  /** One pass of the YUY2 loop: macropixel k's two pixels stored at image
      offsets 6k..6k+5, those past the end of the image dropped. */
  method StoreMacropixel(img: array<Byte>, conv: Converter, src: seq<Byte>, k: nat)
    requires StoresPixel(conv) && 4 * k + 3 < |src|
    modifies img
    ensures forall c | 0 <= c < 6 && 6 * k + c < img.Length :: img[6 * k + c] == Yuy2Macro(conv, src, k, c)
    ensures forall p | 0 <= p < img.Length && !(6 * k <= p < 6 * k + 6) :: img[p] == old(img[p])
  {
    var j := 6 * k;
    var px0 := conv(src[4 * k], src[4 * k + 1], src[4 * k + 3]);
    var px1 := conv(src[4 * k + 2], src[4 * k + 1], src[4 * k + 3]);
    var c := 0;
    while c < 6
      invariant 0 <= c <= 6
      invariant forall c' | 0 <= c' < c && j + c' < img.Length :: img[j + c'] == Yuy2Macro(conv, src, k, c')
      invariant forall p | 0 <= p < img.Length && !(j <= p < j + c) :: img[p] == old(img[p])
    {
      if j + c < img.Length {
        var b := if c < 3 then px0[c] else px1[c - 3];
        assert b == Yuy2Macro(conv, src, k, c);
        img[j + c] := b;
      }
      c := c + 1;
    }
  }

  /** Bytes from macropixel k on stay zero once the sample has run out. */
  lemma Yuy2ByteBeyond(conv: Converter, src: seq<Byte>, k: nat, p: nat)
    requires StoresPixel(conv) && 4 * k + 3 >= |src| && 6 * k <= p
    ensures Yuy2ByteAt(conv, src, p) == 0
  {
    assert p / 6 >= k;
  }

  /** The YUY2 branch of `captureFrame`, with the stores kept inside the
      W*H*3 image: the source index advances by one 4-byte macropixel and the
      image index by two 3-byte pixels per pass. */
  method DecodeYuy2(conv: Converter, src: seq<Byte>, width: nat, height: nat) returns (img: array<Byte>)
    requires StoresPixel(conv)
    ensures img.Length == width * height * 3
    ensures img[..] == Yuy2ToRgb(conv, src, width * height * 3)
  {
    var size := width * height * 3;
    img := new Byte[size](_ => 0);
    var k: nat := 0;
    while 4 * k + 3 < |src| && 6 * k < size
      invariant img.Length == size
      invariant forall p | 0 <= p < 6 * k && p < size :: img[p] == Yuy2ByteAt(conv, src, p)
      invariant forall p | 6 * k <= p < size :: img[p] == 0
    {
      StoreMacropixel(img, conv, src, k);
      forall p | 6 * k <= p < 6 * k + 6 && p < size
        ensures img[p] == Yuy2ByteAt(conv, src, p)
      {
        var c := p - 6 * k;
        assert img[6 * k + c] == Yuy2Macro(conv, src, k, c);
        Yuy2ByteOf(conv, src, k, c);
      }
      k := k + 1;
    }
    forall p | 6 * k <= p < size
      ensures Yuy2ByteAt(conv, src, p) == 0
    {
      Yuy2ByteBeyond(conv, src, k, p);
    }
    assert img[..] == Yuy2ToRgb(conv, src, size);
  }

  // ------------------------------------- the YUY2 loop as the source writes it

  /** Passes made by `for (i = 0; i < length; i += 4)`. */
  function Yuy2Passes(length: int): nat
  {
    if length <= 0 then 0 else (length + 3) / 4
  }

  /** Highest sample offset the loop reads (`pp[3]` on its last pass), -1 when
      it reads nothing. */
  function Yuy2LastRead(length: int): int
  {
    4 * Yuy2Passes(length) - 1
  }

  /** Highest image offset the loop stores to (the fourth byte of the 32-bit
      store at `image.data + j + 3` on its last pass), -1 when it stores
      nothing. */
  function Yuy2LastWrite(length: int): int
  {
    if length <= 0 then -1 else 6 * Yuy2Passes(length)
  }

  /** The access pattern of the YUY2 loop as written: each pass reads four
      sample bytes at i and makes two 4-byte stores, at j and at j + 3. */
  method Yuy2AccessesAsWritten(length: int) returns (passes: nat, lastRead: int, lastWrite: int)
    ensures passes == Yuy2Passes(length)
    ensures lastRead == Yuy2LastRead(length)
    ensures lastWrite == Yuy2LastWrite(length)
  {
    passes, lastRead, lastWrite := 0, -1, -1;
    var i, j := 0, 0;
    while i < length
      invariant i == 4 * passes && j == 6 * passes
      invariant passes > 0 ==> 4 * (passes - 1) < length
      invariant lastRead == 4 * passes - 1
      invariant lastWrite == if passes == 0 then -1 else 6 * passes
    {
      lastRead := i + 3;
      lastWrite := (j + 3) + 3;
      i, j, passes := i + 4, j + 6, passes + 1;
    }
  }

  /** A YUY2 frame of 2 * W * H bytes makes the loop store at offset 3 * W * H
      or beyond, outside the W * H * 3 image; exactly at it when W * H is even. */
  lemma Yuy2StoreOverrun(width: nat, height: nat)
    requires width * height > 0
    ensures Yuy2LastWrite(2 * width * height) >= width * height * 3
    ensures (width * height) % 2 == 0 ==> Yuy2LastWrite(2 * width * height) == width * height * 3
  {
    var n := width * height;
    assert 2 * width * height == 2 * n;
    assert width * height * 3 == 3 * n;
  }

  /** Unless the sample length is a multiple of four, the last pass reads past
      the end of the sample. */
  lemma Yuy2ReadOverrun(length: int)
    requires length > 0 && length % 4 != 0
    ensures Yuy2LastRead(length) >= length
  {
  }

  /** The smallest case: a 2 x 1 image (6 bytes) from a 4-byte sample; the
      loop stores at offset 6. */
  lemma Yuy2OverrunExample()
    ensures Yuy2LastWrite(2 * 2 * 1) == 6 && 2 * 1 * 3 == 6
  {
  }

  // --------------------------------------------------------- the RGB24 path

  lemma MulMono(a: int, b: int, s: nat)
    ensures a <= b ==> a * s <= b * s
  {
    if a <= b {
      assert b * s - a * s == (b - a) * s;
    }
  }

  lemma DivModUnique(r: nat, c: nat, s: nat)
    requires c < s
    ensures (r * s + c) / s == r && (r * s + c) % s == c
  {
    var p := r * s + c;
    var r', c' := p / s, p % s;
    assert r' * s + c' == r * s + c;
    assert (r' - r) * s == c - c';
    MulMono(1, r' - r, s);
    MulMono(r' - r, -1, s);
  }

  lemma RowBound(p: nat, stride: nat, rows: nat)
    requires p < stride * rows
    ensures stride > 0 && p / stride < rows
    ensures (rows - 1 - p / stride) * stride + p % stride < stride * rows
  {
    var r, c := p / stride, p % stride;
    assert stride > 0;
    assert r * stride + c == p;
    MulMono(rows, r, stride);
    assert r < rows;
    assert (rows - 1 - r) * stride + stride == (rows - r) * stride;
    MulMono(rows - r, rows, stride);
  }

  /** Where output byte p of a vertical flip comes from: same column, mirrored
      row. */
  function FlippedIndex(p: nat, stride: nat, rows: nat): (q: nat)
    requires p < stride * rows
    ensures q < stride * rows
  {
    RowBound(p, stride, rows);
    var r, c := p / stride, p % stride;
    MulMono(0, rows - 1 - r, stride);
    (rows - 1 - r) * stride + c
  }

  /** `cv::flip(src, dst, 0)`: the rows of a `rows`-row buffer in reverse order. */
  function FlipVertical(d: seq<Byte>, stride: nat, rows: nat): (r: seq<Byte>)
    requires |d| == stride * rows
    ensures |r| == |d|
  {
    seq(|d|, p requires 0 <= p < |d| => d[FlippedIndex(p, stride, rows)])
  }

  lemma IndexBound(i: nat, c: nat, stride: nat, rows: nat)
    requires i < rows && c < stride
    ensures i * stride + c < stride * rows
  {
    MulMono(i + 1, rows, stride);
    assert (i + 1) * stride == i * stride + stride;
  }

  /** Byte c of row i of the flipped buffer is byte c of row rows-1-i. */
  lemma FlipVerticalAt(d: seq<Byte>, stride: nat, rows: nat, i: nat, c: nat)
    requires |d| == stride * rows && i < rows && c < stride
    ensures 0 <= (rows - 1 - i) * stride
    ensures i * stride + c < |d| && (rows - 1 - i) * stride + c < |d|
    ensures FlipVertical(d, stride, rows)[i * stride + c] == d[(rows - 1 - i) * stride + c]
  {
    MulMono(0, rows - 1 - i, stride);
    IndexBound(i, c, stride, rows);
    IndexBound(rows - 1 - i, c, stride, rows);
    var p := i * stride + c;
    DivModUnique(i, c, stride);
    assert p / stride == i && p % stride == c;
    assert FlippedIndex(p, stride, rows) == (rows - 1 - i) * stride + c;
  }

  /** Flipping twice gives back the buffer. */
  lemma FlipVerticalInvolution(d: seq<Byte>, stride: nat, rows: nat)
    requires |d| == stride * rows
    ensures FlipVertical(FlipVertical(d, stride, rows), stride, rows) == d
  {
    var f := FlipVertical(d, stride, rows);
    forall p | 0 <= p < |d|
      ensures FlipVertical(f, stride, rows)[p] == d[p]
    {
      RowBound(p, stride, rows);
      var r, c := p / stride, p % stride;
      assert p == r * stride + c;
      var q := FlippedIndex(p, stride, rows);
      DivModUnique(rows - 1 - r, c, stride);
      assert FlippedIndex(q, stride, rows) == p;
    }
  }

  /** Where output byte p of the B<->R swap comes from: same pixel, channel
      2 - c in place of channel c. */
  function SwappedIndex(p: nat): nat
  {
    p - p % 3 + (2 - p % 3)
  }

  /** `cv::cvtColor(src, dst, CV_BGR2RGB)`: channels 0 and 2 of every 3-byte
      pixel exchanged. */
  function SwapRB(d: seq<Byte>): (r: seq<Byte>)
    requires |d| % 3 == 0
    ensures |r| == |d|
  {
    seq(|d|, p requires 0 <= p < |d| => d[SwappedIndex(p)])
  }

  lemma SwapRBAt(d: seq<Byte>, q: nat, c: nat)
    requires |d| % 3 == 0 && 3 * q + 3 <= |d| && c < 3
    ensures SwapRB(d)[3 * q + c] == d[3 * q + 2 - c]
  {
  }

  /** Swapping twice gives back the buffer. */
  lemma SwapRBInvolution(d: seq<Byte>)
    requires |d| % 3 == 0
    ensures SwapRB(SwapRB(d)) == d
  {
    forall p | 0 <= p < |d|
      ensures SwapRB(SwapRB(d))[p] == d[p]
    {
      assert SwappedIndex(SwappedIndex(p)) == p;
    }
  }

  lemma TripleMod(width: nat, height: nat)
    ensures (3 * width * height) % 3 == 0
  {
    var n := width * height;
    assert 3 * width * height == 3 * n;
  }

  /** The RGB24 branch of `captureFrame`: the first W*H*3 bytes of the sample
      read as a W x H BGR image, flipped vertically, then converted to RGB. */
  function ConvertRgb24(d: seq<Byte>, width: nat, height: nat): (r: seq<Byte>)
    requires |d| >= 3 * width * height
    ensures |r| == 3 * width * height
  {
    TripleMod(width, height);
    SwapRB(FlipVertical(d[..3 * width * height], 3 * width, height))
  }

  /** Where byte c of pixel (row, col) sits, in a W x H image of 3-byte
      pixels read as rows of 3 * W bytes. */
  lemma Rgb24Index(width: nat, height: nat, row: nat, col: nat, c: nat)
    requires row < height && col < width && c < 3
    ensures 3 * (row * width + col) + c == row * (3 * width) + (3 * col + c)
    ensures 3 * (row * width + col) + c < 3 * width * height
  {
    Scale3(row, width);
    IndexBound(row, 3 * col + c, 3 * width, height);
  }

  lemma Scale3(a: int, b: int)
    ensures a * (3 * b) == 3 * (a * b)
  {
  }

  /** Byte k of pixel (row, col) of a vertically flipped W x H image of
      3-byte pixels is byte k of pixel (H-1-row, col). */
  lemma FlipPixelAt(e: seq<Byte>, width: nat, height: nat, row: nat, col: nat, k: nat)
    requires |e| == 3 * width * height && row < height && col < width && k < 3
    ensures (height - 1 - row) * width >= 0
    ensures 3 * (row * width + col) + k < |e| && 3 * ((height - 1 - row) * width + col) + k < |e|
    ensures FlipVertical(e, 3 * width, height)[3 * (row * width + col) + k]
         == e[3 * ((height - 1 - row) * width + col) + k]
  {
    var mirror := height - 1 - row;
    MulMono(0, mirror, width);
    Rgb24Index(width, height, row, col, k);
    Rgb24Index(width, height, mirror, col, k);
    FlipVerticalAt(e, 3 * width, height, row, 3 * col + k);
  }

  /** Output pixel (row, col) is input pixel (H-1-row, col) with its first and
      third channel exchanged. */
  lemma Rgb24PixelAt(d: seq<Byte>, width: nat, height: nat, row: nat, col: nat, c: nat)
    requires |d| >= 3 * width * height && row < height && col < width && c < 3
    ensures 3 * (row * width + col) + c < 3 * width * height
    ensures (height - 1 - row) * width >= 0
    ensures 3 * ((height - 1 - row) * width + col) + 2 - c < 3 * width * height
    ensures ConvertRgb24(d, width, height)[3 * (row * width + col) + c]
         == d[3 * ((height - 1 - row) * width + col) + 2 - c]
  {
    var e := d[..3 * width * height];
    Rgb24Index(width, height, row, col, 2);
    FlipPixelAt(e, width, height, row, col, 2 - c);
    TripleMod(width, height);
    SwapRBAt(FlipVertical(e, 3 * width, height), row * width + col, c);
  }

  // ------------------------------------------------------------ what is emitted

  /** The image `captureFrame` is evidently meant to emit for a dequeued
      sample, by the subtype of the connected media type; None for a subtype
      it does not decode. This is the corrected emission: as written, the
      YUY2/YUYV branch emits an empty image (see `FrameImageAsWritten`). */
  function FrameImage(subtype: Subtype, buffer: seq<Byte>, width: nat, height: nat): (r: Option<Image>)
    requires subtype == RGB24 ==> |buffer| >= 3 * width * height
    ensures r.Some? <==> subtype in {RGB24, YUY2, YUYV}
    ensures r.Some? ==> r.value.width == width && r.value.height == height
    ensures r.Some? ==> |r.value.data| == 3 * width * height
  {
    Yuv2RgbStoresPixel();
    match subtype
    case RGB24 => Some(Image(width, height, ConvertRgb24(buffer, width, height)))
    case YUY2 => Some(Image(width, height, FlipVertical(Yuy2ToRgb(Yuv2RgbBytes, buffer, width * height * 3), 3 * width, height)))
    case YUYV => Some(Image(width, height, FlipVertical(Yuy2ToRgb(Yuv2RgbBytes, buffer, width * height * 3), 3 * width, height)))
    case _ => None
  }

  /** The image the source emits: the YUY2 branch decodes into `image` but
      emits `dst`, which nothing in that branch assigns. */
  function FrameImageAsWritten(subtype: Subtype, buffer: seq<Byte>, width: nat, height: nat): (r: Option<Image>)
    requires subtype == RGB24 ==> |buffer| >= 3 * width * height
    ensures subtype == RGB24 ==> r == FrameImage(subtype, buffer, width, height)
  {
    match subtype
    case RGB24 => Some(Image(width, height, ConvertRgb24(buffer, width, height)))
    case YUY2 => Some(EmptyImage)
    case YUYV => Some(EmptyImage)
    case _ => None
  }

  /** For any non-empty YUY2 frame, the source emits an empty image in place of
      the decoded one. */
  lemma Yuy2EmitsEmptyAsWritten(subtype: Subtype, buffer: seq<Byte>, width: nat, height: nat)
    requires subtype in {YUY2, YUYV} && width * height > 0
    ensures FrameImageAsWritten(subtype, buffer, width, height) == Some(EmptyImage)
    ensures FrameImage(subtype, buffer, width, height) != Some(EmptyImage)
  {
    assert |FrameImage(subtype, buffer, width, height).value.data| == 3 * width * height;
  }
}
