/** Shrinking a captured frame: the size-fitting loop, the two pixel loops of
    surface_getter.h, and the chunked read that fills the raw frame. */
module Scaler {
  import opened Words
  import opened Sampling

  /** 1024 * 576 pixels. */
  const THRESHOLD := 589824

  const OUT_PIXEL_BYTES := 3

  // ------------------------------------------------------------- size fitting

  /** The width kept with a height; the float `ratio` is taken as the exact W / H. */
  function WidthFor(W: nat, H: nat, h: nat): nat
    requires H > 0
  {
    h * W / H
  }

  lemma {:induction false} WidthBounds(W: nat, H: nat, h: nat)
    requires H > 0
    ensures WidthFor(W, H, h) * H <= h * W < (WidthFor(W, H, h) + 1) * H
    ensures h <= H ==> WidthFor(W, H, h) <= W
    ensures W >= H ==> WidthFor(W, H, h) >= h
  {
    MulLe(0, h, W);
    DivBounds(h * W, H);
    QuotientBounds(WidthFor(W, H, h), W, H, h);
  }

  lemma QuotientBounds(q: nat, W: nat, H: nat, h: nat)
    requires H > 0 && q * H <= h * W < (q + 1) * H
    ensures h <= H ==> q <= W
    ensures W >= H ==> q >= h
  {
    if h <= H {
      MulLe(h, H, W);
      MulCancelLe(q, W, H);
    }
    if W >= H {
      MulLe(H, W, h);
      MulCancel(h, q + 1, H);
    }
  }

  lemma MulCancelLe(a: int, b: int, c: int)
    requires a * c <= b * c && 0 < c
    ensures a <= b
  {
    assert (b + 1) * c == b * c + c;
    MulCancel(a, b + 1, c);
  }

  /** One step of the loop narrows a portrait frame by at most one column. */
  lemma {:induction false} NarrowsSlowly(W: nat, H: nat, h: nat)
    requires 0 < W <= H && h > 0
    ensures WidthFor(W, H, h - 1) >= WidthFor(W, H, h) - 1
  {
    WidthBounds(W, H, h);
    WidthBounds(W, H, h - 1);
    var a, b := WidthFor(W, H, h - 1), WidthFor(W, H, h);
    assert (h - 1) * W == h * W - W;
    assert (b - 1) * H == b * H - H;
    MulCancel(b - 1, a + 1, H);
  }

  /** A product over the threshold has both factors above 9 when they are below 65536. */
  lemma {:induction false} BothLarge(a: nat, b: nat)
    requires a * b > THRESHOLD && b < 0x1_0000
    ensures a > 9
  {
    if a <= 9 {
      MulLe(a, 9, b);
    }
  }

  /** The resize loop: the largest height, stepping down from H, whose frame fits. */
  method FitSize(W: nat, H: nat) returns (w: nat, h: nat)
    requires W < 0x1_0000 && H < 0x1_0000 && W * H > THRESHOLD
    ensures 9 <= w <= W && 9 <= h < H && w == WidthFor(W, H, h)
    ensures Shrinks(W, w) && Shrinks(H, h) && w * h <= 1024 * 576
    ensures w * H <= h * W < (w + 1) * H
    ensures forall g :: h < g <= H ==> WidthFor(W, H, g) * g > 1024 * 576
  {
    BothLarge(W, H);
    BothLarge(H, W);
    FullWidth(W, H);
    w, h := W, H;
    while w * h > THRESHOLD
      invariant 9 <= h <= H && 9 <= w <= W && w == WidthFor(W, H, h)
      invariant forall g :: h < g <= H ==> WidthFor(W, H, g) * g > THRESHOLD
      decreases h
    {
      StillLarge(W, H, w, h);
      h := h - 1;
      w := h * W / H;
    }
    WidthBounds(W, H, h);
  }

  lemma {:induction false} FullWidth(W: nat, H: nat)
    requires H > 0
    ensures WidthFor(W, H, H) == W
  {
    DivBounds(H * W, H);
    WidthBounds(W, H, H);
    MulCancel(W - 1, H * W / H, H);
  }

  /** One step down from a frame over the threshold leaves both sides at least 9. */
  lemma {:induction false} StillLarge(W: nat, H: nat, w: nat, h: nat)
    requires W < 0x1_0000 && 0 < h <= H < 0x1_0000 && w == WidthFor(W, H, h) && w <= W && w * h > THRESHOLD
    ensures h > 9 && 9 <= WidthFor(W, H, h - 1) <= W
  {
    BothLarge(w, h);
    BothLarge(h, w);
    WidthBounds(W, H, h - 1);
    if W <= H {
      NarrowsSlowly(W, H, h);
    }
  }

  // -------------------------------------------------------------- pixel loops

  /** A source frame of W by H pixels of `bpp` bytes, and the target size. */
  datatype Geometry = Geometry(W: u32, H: u32, bpp: u32, w: u32, h: u32)
  {
    /** Sides that shrink, 24 or 32 bits, and a frame size that is a positive int. */
    predicate Valid() {
      && Shrinks(W, w) && Shrinks(H, h) && (bpp == 3 || bpp == 4)
      && W * H * bpp < 0x8000_0000
    }

    function FrameBytes(): int {
      W * H * bpp
    }

    /** Where the pixel sampled for target row i, column j begins. */
    function Offset(i: nat, j: nat): int
      requires Valid() && i < h && j < w
    {
      Sample(H, h, i) * W * bpp + Sample(W, w, j) * bpp
    }
  }

  lemma {:induction false} OffsetInFrame(g: Geometry, i: nat, j: nat)
    requires g.Valid() && i < g.h && j < g.w
    ensures 0 <= g.Offset(i, j) && g.Offset(i, j) + g.bpp <= g.FrameBytes()
  {
    SampleErrorBound(g.H, g.h, i);
    SampleErrorBound(g.W, g.w, j);
    PixelFits(Sample(g.H, g.h, i), Sample(g.W, g.w, j), g.W, g.H, g.bpp);
  }

  lemma PixelFits(y: nat, x: nat, W: nat, H: nat, bpp: nat)
    requires y < H && x < W
    ensures 0 <= y * W * bpp + x * bpp && y * W * bpp + x * bpp + bpp <= W * H * bpp
  {
    MulLe(y + 1, H, W);
    assert y * W + x + 1 <= H * W == W * H;
    MulLe(y * W + x + 1, W * H, bpp);
    assert (y * W + x + 1) * bpp == y * W * bpp + x * bpp + bpp;
    MulLe(0, y * W + x, bpp);
  }

  /** The sampled pixel with its first and third channels swapped. */
  function PixelBytes(raw: bytes, g: Geometry, i: nat, j: nat): (b: bytes)
    requires g.Valid() && |raw| == g.FrameBytes() && i < g.h && j < g.w
    ensures |b| == 3
  {
    OffsetInFrame(g, i, j);
    var o := g.Offset(i, j);
    [raw[o + 2], raw[o + 1], raw[o]]
  }

  /** The first n pixels of a target row, and the first m target rows, in memory order. */
  function RowBytes(raw: bytes, g: Geometry, i: nat, n: nat): (b: bytes)
    requires g.Valid() && |raw| == g.FrameBytes() && i < g.h && n <= g.w
    ensures |b| == 3 * n
  {
    if n == 0 then [] else RowBytes(raw, g, i, n - 1) + PixelBytes(raw, g, i, n - 1)
  }

  function ImageBytes(raw: bytes, g: Geometry, m: nat): (b: bytes)
    requires g.Valid() && |raw| == g.FrameBytes() && m <= g.h
    ensures |b| == m * (3 * g.w)
  {
    if m == 0 then [] else
      assert m * (3 * g.w) == (m - 1) * (3 * g.w) + 3 * g.w;
      ImageBytes(raw, g, m - 1) + RowBytes(raw, g, m - 1, g.w)
  }

  /** A piece of the front, or of the back, of two byte strings laid end to end. */
  lemma FrontPiece(a: bytes, b: bytes, i: nat, j: nat)
    requires i <= j <= |a|
    ensures (a + b)[i..j] == a[i..j]
  {
  }

  lemma BackPiece(a: bytes, b: bytes, i: nat, j: nat)
    requires i <= j <= |b|
    ensures (a + b)[|a| + i..|a| + j] == b[i..j]
  {
  }

  lemma {:induction false} RowPixel(raw: bytes, g: Geometry, i: nat, n: nat, j: nat)
    requires g.Valid() && |raw| == g.FrameBytes() && i < g.h && j < n <= g.w
    ensures RowBytes(raw, g, i, n)[3 * j..3 * j + 3] == PixelBytes(raw, g, i, j)
  {
    var front, last := RowBytes(raw, g, i, n - 1), PixelBytes(raw, g, i, n - 1);
    if j < n - 1 {
      RowPixel(raw, g, i, n - 1, j);
      FrontPiece(front, last, 3 * j, 3 * j + 3);
    } else {
      BackPiece(front, last, 0, 3);
      assert last[0..3] == last;
    }
  }

  lemma RowEnd(i: nat, m: nat, row: nat)
    requires i < m
    ensures 0 <= i * row && i * row + row <= m * row
  {
    assert (i + 1) * row <= m * row;
  }

  /** The image at target row i, column j is the sampled source pixel, channels swapped. */
  lemma {:induction false} ImagePixel(raw: bytes, g: Geometry, m: nat, i: nat, j: nat)
    requires g.Valid() && |raw| == g.FrameBytes() && i < m <= g.h && j < g.w
    ensures 0 <= i * (3 * g.w) && i * (3 * g.w) + 3 * j + 3 <= m * (3 * g.w)
    ensures ImageBytes(raw, g, m)[i * (3 * g.w) + 3 * j..i * (3 * g.w) + 3 * j + 3] == PixelBytes(raw, g, i, j)
  {
    var row := 3 * g.w;
    RowEnd(i, m, row);
    var front, last := ImageBytes(raw, g, m - 1), RowBytes(raw, g, m - 1, g.w);
    if i < m - 1 {
      ImagePixel(raw, g, m - 1, i, j);
      FrontPiece(front, last, i * row + 3 * j, i * row + 3 * j + 3);
    } else {
      RowPixel(raw, g, i, g.w, j);
      BackPiece(front, last, 3 * j, 3 * j + 3);
    }
  }

  /** Channel by channel: byte c of a target pixel is byte 2 - c of the sampled one. */
  lemma {:induction false} ImageChannel(raw: bytes, g: Geometry, i: nat, j: nat, c: nat)
    requires g.Valid() && |raw| == g.FrameBytes() && i < g.h && j < g.w && c < 3
    ensures 0 <= i * (3 * g.w) && i * (3 * g.w) + 3 * j + 3 <= g.h * (3 * g.w)
    ensures 0 <= g.Offset(i, j) && g.Offset(i, j) + 2 < |raw|
    ensures ImageBytes(raw, g, g.h)[i * (3 * g.w) + 3 * j + c] == raw[g.Offset(i, j) + 2 - c]
  {
    OffsetInFrame(g, i, j);
    ImagePixel(raw, g, g.h, i, j);
    ChannelOf(ImageBytes(raw, g, g.h), i * (3 * g.w) + 3 * j, PixelBytes(raw, g, i, j), c);
  }

  /** The scaled picture in full: byte c of the target pixel in row i, column j is byte 2 - c
      of the source pixel in row `Sample(H, h, i)`, column `Sample(W, w, j)`. */
  lemma {:induction false} ScaledPicture(raw: bytes, g: Geometry, i: nat, j: nat, c: nat)
    requires g.Valid() && |raw| == g.W * g.H * g.bpp && i < g.h && j < g.w && c < 3
    ensures |ImageBytes(raw, g, g.h)| == g.h * (3 * g.w)
    ensures 0 <= i * (3 * g.w) && i * (3 * g.w) + 3 * j + 3 <= g.h * (3 * g.w)
    ensures var at := Sample(g.H, g.h, i) * g.W * g.bpp + Sample(g.W, g.w, j) * g.bpp;
            && 0 <= at && at + 2 < |raw|
            && ImageBytes(raw, g, g.h)[i * (3 * g.w) + 3 * j + c] == raw[at + 2 - c]
  {
    ImageChannel(raw, g, i, j, c);
  }

  lemma ChannelOf(b: bytes, at: nat, pixel: bytes, c: nat)
    requires at + 3 <= |b| && c < 3 && |pixel| == 3 && b[at..at + 3] == pixel
    ensures b[at + c] == pixel[c]
  {
    assert b[at..at + 3][c] == b[at + c];
  }

  /** The bytes of the first i target rows and j pixels of the next one. */
  function Written(raw: bytes, g: Geometry, i: nat, j: nat): bytes
    requires g.Valid() && |raw| == g.FrameBytes() && i <= g.h && j <= g.w && (i == g.h ==> j == 0)
  {
    ImageBytes(raw, g, i) + if j == 0 then [] else RowBytes(raw, g, i, j)
  }

  /** The same at the test of the inner loop, where j may have reached the row's end. */
  function Through(raw: bytes, g: Geometry, i: nat, j: nat): bytes
    requires g.Valid() && |raw| == g.FrameBytes() && i < g.h && j <= g.w
  {
    if j < g.w then Written(raw, g, i, j) else Written(raw, g, i + 1, 0)
  }

  lemma {:induction false} WrittenGrows(raw: bytes, g: Geometry, i: nat, j: nat)
    requires g.Valid() && |raw| == g.FrameBytes() && i < g.h && j < g.w
    ensures |Written(raw, g, i, j)| == i * g.w * OUT_PIXEL_BYTES + j * OUT_PIXEL_BYTES
    ensures |Written(raw, g, i, j)| + 3 <= g.h * (3 * g.w)
    ensures Written(raw, g, i, j) + PixelBytes(raw, g, i, j) == Through(raw, g, i, j + 1)
  {
    TargetIndex(i, g.w, j);
    RowEnd(i, g.h, 3 * g.w);
    var b := ImageBytes(raw, g, i);
    assert b + RowBytes(raw, g, i, j) + PixelBytes(raw, g, i, j) == b + RowBytes(raw, g, i, j + 1);
  }

  lemma TargetIndex(i: nat, w: nat, j: nat)
    ensures i * w * OUT_PIXEL_BYTES + j * OUT_PIXEL_BYTES == i * (3 * w) + 3 * j
  {
  }

  /** The loop body: one pixel from offset o of the source to index `at` of the target. */
  method PutPixel(raw: array<u8>, o: nat, dest: array<u8>, at: nat)
    requires o + 2 < raw.Length && at + 3 <= dest.Length && raw != dest
    modifies dest
    ensures dest[..at + 3] == old(dest[..at]) + [raw[o + 2], raw[o + 1], raw[o]]
  {
    dest[at + 0] := raw[o + 2];
    dest[at + 1] := raw[o + 1];
    dest[at + 2] := raw[o + 0];
    assert dest[..at] == old(dest[..at]);
  }

  /** PutPixel in its place extends what is written by one pixel. */
  lemma {:induction false} PixelInPlace(raw: bytes, g: Geometry, i: nat, j: nat, o: int, before: bytes, after: bytes)
    requires g.Valid() && |raw| == g.FrameBytes() && i < g.h && j < g.w && o == g.Offset(i, j)
    requires before == Written(raw, g, i, j) && 0 <= o && o + 2 < |raw|
    requires after == before + [raw[o + 2], raw[o + 1], raw[o]]
    ensures after == Through(raw, g, i, j + 1)
  {
    WrittenGrows(raw, g, i, j);
  }

  method ResizePixel(raw: array<u8>, dest: array<u8>, g: Geometry, i: u32, j: u32, y2: u32, x2: u32, ghost n: nat)
    requires g.Valid() && raw.Length == g.FrameBytes() && dest.Length == g.h * (3 * g.w) && raw != dest
    requires i < g.h && j < g.w && y2 == Sample(g.H, g.h, i) && x2 == Sample(g.W, g.w, j)
    requires n <= dest.Length && dest[..n] == Written(raw[..], g, i, j)
    modifies dest
    ensures n + 3 <= dest.Length && dest[..n + 3] == Through(raw[..], g, i, j + 1)
  {
    OffsetInFrame(g, i, j);
    WrittenGrows(raw[..], g, i, j);
    PutPixel(raw, y2 * g.W * g.bpp + x2 * g.bpp, dest, i * g.w * OUT_PIXEL_BYTES + j * OUT_PIXEL_BYTES);
    PixelInPlace(raw[..], g, i, j, g.Offset(i, j), old(dest[..n]), dest[..n + 3]);
  }

  /** The inner loop of `resize_raw_image`: one target row. */
  method ResizeRow(raw: array<u8>, dest: array<u8>, g: Geometry, i: u32, xRatio: u32, y2: u32, ghost n0: nat)
    returns (ghost n: nat)
    requires g.Valid() && raw.Length == g.FrameBytes() && dest.Length == g.h * (3 * g.w) && raw != dest
    requires i < g.h && xRatio == Ratio(g.W, g.w) && y2 == Sample(g.H, g.h, i)
    requires n0 <= dest.Length && dest[..n0] == Written(raw[..], g, i, 0)
    modifies dest
    ensures n <= dest.Length && dest[..n] == Written(raw[..], g, i + 1, 0)
  {
    n := n0;
    ghost var src := raw[..];
    var j: u32 := 0;
    while j < g.w
      invariant j <= g.w && raw[..] == src
      invariant n <= dest.Length && dest[..n] == Through(src, g, i, j)
    {
      var x2 := Wrap32(j * xRatio) / 0x1_0000;
      assert x2 == Sample(g.W, g.w, j);
      ResizePixel(raw, dest, g, i, j, y2, x2, n);
      n := n + 3;
      j := j + 1;
    }
  }

  /** `resize_raw_image`: the target becomes the sampled image. */
  method ResizeRawImage(raw: array<u8>, dest: array<u8>, g: Geometry)
    requires g.Valid() && raw.Length == g.FrameBytes() && dest.Length == g.h * (3 * g.w) && raw != dest
    modifies dest
    ensures dest[..] == ImageBytes(raw[..], g, g.h)
  {
    var xRatio := Ratio(g.W, g.w);
    var yRatio := Ratio(g.H, g.h);
    ghost var n: nat := 0;
    var i: u32 := 0;
    while i < g.h
      invariant i <= g.h && raw[..] == old(raw[..])
      invariant n <= dest.Length && dest[..n] == Written(raw[..], g, i, 0)
    {
      var y2 := Wrap32(i * yRatio) / 0x1_0000;
      n := ResizeRow(raw, dest, g, i, xRatio, y2, n);
      i := i + 1;
    }
    assert dest[..] == dest[..n];
  }

  /** The frame seen at its own size. */
  function FullSize(w: u32, h: u32): Geometry {
    Geometry(w, h, 4, w, h)
  }

  lemma {:induction false} FullSizeOffset(w: u32, h: u32, i: nat, j: nat)
    requires FullSize(w, h).Valid() && i < h && j < w
    ensures FullSize(w, h).Offset(i, j) == i * w * 4 + j * 4
  {
    FullSizeSamples(w, j);
    FullSizeSamples(h, i);
  }

  /** At full size a target pixel is the source pixel in the same place, channels swapped. */
  lemma {:induction false} FullSizeChannel(raw: bytes, w: u32, h: u32, i: nat, j: nat, c: nat)
    requires FullSize(w, h).Valid() && |raw| == FullSize(w, h).FrameBytes() && i < h && j < w && c < 3
    ensures 0 <= i * (3 * w) && i * (3 * w) + 3 * j + 3 <= h * (3 * w)
    ensures 0 <= i * w * 4 + j * 4 && i * w * 4 + j * 4 + 2 < |raw|
    ensures ImageBytes(raw, FullSize(w, h), h)[i * (3 * w) + 3 * j + c] == raw[i * w * 4 + j * 4 + 2 - c]
  {
    ImageChannel(raw, FullSize(w, h), i, j, c);
    FullSizeOffset(w, h, i, j);
  }

  lemma {:induction false} ConvIndices(raw: bytes, w: u32, h: u32, i: nat, j: nat)
    requires FullSize(w, h).Valid() && |raw| == FullSize(w, h).FrameBytes() && i < h && j < w
    ensures var o := i * w * 4 + j * 4; o == FullSize(w, h).Offset(i, j) && 0 <= o && o + 2 < |raw|
    ensures |Written(raw, FullSize(w, h), i, j)| == i * w * OUT_PIXEL_BYTES + j * OUT_PIXEL_BYTES
    ensures |Written(raw, FullSize(w, h), i, j)| + 3 <= h * (3 * w)
  {
    OffsetInFrame(FullSize(w, h), i, j);
    FullSizeOffset(w, h, i, j);
    WrittenGrows(raw, FullSize(w, h), i, j);
  }

  method ConvPixel(src: array<u8>, dest: array<u8>, w: u32, h: u32, i: u32, j: u32, ghost n: nat)
    requires FullSize(w, h).Valid() && src.Length == w * h * 4 && dest.Length == h * (3 * w) && src != dest
    requires i < h && j < w && n <= dest.Length && dest[..n] == Written(src[..], FullSize(w, h), i, j)
    modifies dest
    ensures n + 3 <= dest.Length && dest[..n + 3] == Through(src[..], FullSize(w, h), i, j + 1)
  {
    ConvIndices(src[..], w, h, i, j);
    var o, at := i * w * 4 + j * 4, i * w * OUT_PIXEL_BYTES + j * OUT_PIXEL_BYTES;
    PutPixel(src, o, dest, at);
    PixelInPlace(src[..], FullSize(w, h), i, j, o, old(dest[..n]), dest[..n + 3]);
  }

  /** The inner loop of `conv_image_bpp`. */
  method ConvRow(src: array<u8>, dest: array<u8>, w: u32, h: u32, i: u32, ghost n0: nat) returns (ghost n: nat)
    requires FullSize(w, h).Valid() && src.Length == w * h * 4 && dest.Length == h * (3 * w) && src != dest
    requires i < h && n0 <= dest.Length && dest[..n0] == Written(src[..], FullSize(w, h), i, 0)
    modifies dest
    ensures n <= dest.Length && dest[..n] == Written(src[..], FullSize(w, h), i + 1, 0)
  {
    n := n0;
    var j: u32 := 0;
    while j < w
      invariant j <= w && src[..] == old(src[..])
      invariant n <= dest.Length && dest[..n] == Through(src[..], FullSize(w, h), i, j)
    {
      ConvPixel(src, dest, w, h, i, j, n);
      n := n + 3;
      j := j + 1;
    }
  }

  /** `conv_image_bpp` from 32 to 24 bits: the image `resize_raw_image` makes at full size. */
  method ConvImageBpp(src: array<u8>, dest: array<u8>, w: u32, h: u32)
    requires FullSize(w, h).Valid() && src.Length == w * h * 4 && dest.Length == h * (3 * w) && src != dest
    modifies dest
    ensures dest[..] == ImageBytes(src[..], FullSize(w, h), h)
  {
    ghost var n: nat := 0;
    var i: u32 := 0;
    while i < h
      invariant i <= h && src[..] == old(src[..])
      invariant n <= dest.Length && dest[..n] == Written(src[..], FullSize(w, h), i, 0)
    {
      n := ConvRow(src, dest, w, h, i, n);
      i := i + 1;
    }
    assert dest[..] == dest[..n];
  }

  /** What the resize phase of `get_buffer` leaves: a target image, or the error of a small
      frame that is not 32 bits deep. */
  datatype Shrunk = Shrunk(w: u32, h: u32, image: array<u8>) | Unsupported

  /** The resize phase: whatever the frame, a target it produces stays within the threshold,
      is no larger than the frame, and is the sampled image; a frame within the threshold
      keeps its size. */
  method ShrinkFrame(raw: array<u8>, W: u32, H: u32, bpp: u32) returns (r: Shrunk)
    requires Geometry(W, H, bpp, W, H).Valid() && raw.Length == W * H * bpp
    ensures r == Unsupported <==> W * H <= 1024 * 576 && bpp == 3
    ensures r.Shrunk? ==>
              && Geometry(W, H, bpp, r.w, r.h).Valid() && r.w * r.h <= 1024 * 576
              && r.image[..] == ImageBytes(raw[..], Geometry(W, H, bpp, r.w, r.h), r.h)
    ensures r.Shrunk? && W * H <= 1024 * 576 ==> r.w == W && r.h == H
  {
    if W * H > THRESHOLD {
      var w, h := FitSize(W, H);
      var dest := NewImage(w, h);
      ResizeRawImage(raw, dest, Geometry(W, H, bpp, w, h));
      r := Shrunk(w, h, dest);
    } else if bpp == 4 {
      var dest := NewImage(W, H);
      ConvImageBpp(raw, dest, W, H);
      r := Shrunk(W, H, dest);
    } else {
      r := Unsupported;
    }
  }

  method NewImage(w: nat, h: nat) returns (dest: array<u8>)
    ensures fresh(dest) && dest.Length == h * (3 * w)
  {
    assert 0 <= h * (3 * w);
    dest := new u8[h * (3 * w)];
  }
}
