/** Notification icons: raw D-Bus pixels into an image, and the downscale to the icon box.

    An image is a flat array of four bytes per pixel, row after row; the source data has its own
    row stride and three or four channels ("Icons and Images" in the Freedesktop Desktop
    Notifications Specification). */
module IconPixels {
  import opened Prelude

  const MAX_SIDE: int := 512
  const BOX: int := 96

  // ------------------------------------------------------------ arithmetic

  lemma MulMono(a: int, b: int, c: int)
    requires a <= b && 0 <= c
    ensures a * c <= b * c
  {
  }

  /** A row-major index determines its row and column. */
  lemma RowColumn(x: int, y: int, w: int)
    requires 0 <= x < w && 0 <= y
    ensures (y * w + x) / w == y && (y * w + x) % w == x
  {
    var p := y * w + x;
    assert p == p / w * w + p % w;
    if p / w < y {
      MulMono(p / w + 1, y, w);
    } else if p / w > y {
      MulMono(y + 1, p / w, w);
    }
  }

  /** Indices of a `w` by `h` grid lie below `w * h`. */
  lemma IndexBound(x: int, y: int, w: int, h: int)
    requires 0 <= x < w && 0 <= y < h
    ensures 0 <= y * w + x < w * h
  {
    MulMono(y + 1, h, w);
    assert (y + 1) * w == y * w + w;
    MulMono(0, y, w);
  }

  // ---------------------------------------------------------------- images

  class Image {
    const width: nat
    const height: nat
    const pix: array<byte>

    ghost predicate Valid() {
      pix.Length == 4 * (width * height)
    }

    /** A transparent black image. */
    constructor (width: nat, height: nat)
      ensures this.width == width && this.height == height && fresh(pix) && Valid()
      ensures forall q :: 0 <= q < pix.Length ==> pix[q] == 0
    {
      this.width, this.height := width, height;
      var size: nat := 4 * (width * height);
      this.pix := new byte[size](_ => 0);
    }

    /** The four bytes of a pixel. */
    ghost function Pixel(x: int, y: int): seq<byte>
      reads this, pix
      requires Valid() && 0 <= x < width && 0 <= y < height
    {
      IndexBound(x, y, width, height);
      var at := PixOffset(x, y, width);
      pix[at..at + 4]
    }
  }

  function PixOffset(x: int, y: int, width: int): int {
    4 * (y * width + x)
  }

  /** Pixels occupy disjoint stretches of the array, all of them inside it. */
  lemma PixelsDisjoint(x: int, y: int, x': int, y': int, w: int, h: int)
    requires 0 <= x < w && 0 <= y < h && 0 <= x' < w && 0 <= y' < h
    ensures 0 <= PixOffset(x, y, w) && PixOffset(x, y, w) + 4 <= 4 * (w * h)
    ensures (x, y) != (x', y') ==> PixOffset(x, y, w) + 4 <= PixOffset(x', y', w)
                                   || PixOffset(x', y', w) + 4 <= PixOffset(x, y, w)
  {
    IndexBound(x, y, w, h);
    RowColumn(x, y, w);
    RowColumn(x', y', w);
  }

  // ------------------------------------------------------ pixel conversion

  /** The source has all channels of pixel (x, y). */
  predicate Fits(data: seq<byte>, rowstride: int, channels: int, x: int, y: int) {
    y * rowstride + x * channels + channels <= |data|
  }

  /** Byte `c` of the converted pixel (x, y). */
  function Source(data: seq<byte>, rowstride: int, channels: int, x: int, y: int, c: int): byte {
    var at := y * rowstride + x * channels;
    if !Fits(data, rowstride, channels, x, y) then 0
    else if c == 3 && channels == 3 then 255
    else if 0 <= at + c < |data| then data[at + c]
    else 0
  }

  /** Byte `q` of the converted image. */
  function Target(data: seq<byte>, rowstride: int, channels: int, width: int, q: int): byte
    requires width > 0
  {
    Source(data, rowstride, channels, q / 4 % width, q / 4 / width, q % 4)
  }

  /** The loop does not read pixel (x, y) before the data's start. */
  predicate ReadInRange(data: seq<byte>, rowstride: int, channels: int, x: int, y: int) {
    Fits(data, rowstride, channels, x, y) ==> 0 <= y * rowstride + x * channels
  }

  ghost predicate RowInRange(data: seq<byte>, w: int, rowstride: int, channels: int, y: int) {
    forall x :: 0 <= x < w ==> ReadInRange(data, rowstride, channels, x, y)
  }

  ghost predicate ReadsInRange(data: seq<byte>, w: int, h: int, rowstride: int, channels: int) {
    forall y :: 0 <= y < h ==> RowInRange(data, w, rowstride, channels, y)
  }

  /** Where the lowest row starts; only a negative row stride puts it before the first one. */
  function LowestRow(h: int, rowstride: int): int {
    if rowstride < 0 then (h - 1) * rowstride else 0
  }

  lemma LowestRowIsLowest(h: int, rowstride: int, y: int)
    requires 0 <= y < h
    ensures LowestRow(h, rowstride) <= y * rowstride
  {
    if rowstride < 0 {
      MulMono(y, h - 1, -rowstride);
      assert (h - 1) * -rowstride == -((h - 1) * rowstride) && y * -rowstride == -(y * rowstride);
    } else {
      MulMono(0, y, rowstride);
    }
  }

  /** The condition under which every index is in range, as the caller can check it: the row stride is
      not negative, or there is one row, or the data is too short for any pixel. */
  predicate Addressable(data: seq<byte>, h: int, rowstride: int, channels: int) {
    0 <= LowestRow(h, rowstride) || |data| < LowestRow(h, rowstride) + channels
  }

  lemma ReadsInRangeIff(data: seq<byte>, w: int, h: int, rowstride: int, channels: int)
    requires 0 < w && 0 < h && 0 < channels
    ensures ReadsInRange(data, w, h, rowstride, channels) <==> Addressable(data, h, rowstride, channels)
  {
    if Addressable(data, h, rowstride, channels) {
      forall x, y | 0 <= x < w && 0 <= y < h ensures ReadInRange(data, rowstride, channels, x, y) {
        LowestRowIsLowest(h, rowstride, y);
        MulMono(0, x, channels);
      }
    } else {
      var y := h - 1;
      assert y * rowstride + 0 * channels < 0;
      assert !ReadInRange(data, rowstride, channels, 0, y);
      assert !RowInRange(data, w, rowstride, channels, y);
    }
  }

  /** The data has every pixel. */
  ghost predicate NoneSkipped(data: seq<byte>, w: int, h: int, rowstride: int, channels: int) {
    forall x, y :: 0 <= x < w && 0 <= y < h ==> Fits(data, rowstride, channels, x, y)
  }

  /** No pixel is skipped if and only if the data reaches to the end of the last row's pixels. */
  lemma NothingSkippedIff(data: seq<byte>, w: int, h: int, rowstride: int, channels: int)
    requires 0 < w && 0 < h && 0 <= rowstride && 0 <= channels
    ensures NoneSkipped(data, w, h, rowstride, channels) <==> (h - 1) * rowstride + w * channels <= |data|
  {
    assert (w - 1) * channels + channels == w * channels;
    if (h - 1) * rowstride + w * channels <= |data| {
      forall x, y | 0 <= x < w && 0 <= y < h ensures Fits(data, rowstride, channels, x, y) {
        MulMono(x, w - 1, channels);
        MulMono(y, h - 1, rowstride);
      }
    } else {
      assert !Fits(data, rowstride, channels, w - 1, h - 1);
    }
  }

  /** In particular when a row of pixels fits in the row stride, since the length of the data is checked. */
  lemma NothingSkipped(data: seq<byte>, w: int, h: int, rowstride: int, channels: int)
    requires 0 < w && 0 < h && 0 <= channels
    requires w * channels <= rowstride && h * rowstride <= |data|
    ensures NoneSkipped(data, w, h, rowstride, channels)
  {
    MulMono(0, w, channels);
    assert (h - 1) * rowstride + rowstride == h * rowstride;
    NothingSkippedIff(data, w, h, rowstride, channels);
  }

  /** Writes the four bytes of one pixel. */
  method SetPixel(pix: array<byte>, at: nat, r: byte, g: byte, b: byte, a: byte)
    requires at + 4 <= pix.Length
    modifies pix
    ensures pix[at] == r && pix[at + 1] == g && pix[at + 2] == b && pix[at + 3] == a
    ensures forall q :: 0 <= q < pix.Length && !(at <= q < at + 4) ==> pix[q] == old(pix[q])
  {
    pix[at] := r;
    pix[at + 1] := g;
    pix[at + 2] := b;
    pix[at + 3] := a;
  }

  lemma TargetAt(data: seq<byte>, rowstride: int, channels: int, w: int, x: int, y: int, c: int)
    requires 0 <= x < w && 0 <= y && 0 <= c < 4
    ensures Target(data, rowstride, channels, w, PixOffset(x, y, w) + c) == Source(data, rowstride, channels, x, y, c)
  {
    RowColumn(x, y, w);
    assert (PixOffset(x, y, w) + c) / 4 == y * w + x;
  }

  /** One iteration of the pixel loop, for three or four channels; it fails on an index out of range. */
  method ConvertPixel(pix: array<byte>, w: int, h: int, rowstride: int, channels: int, data: seq<byte>, x: int, y: int)
    returns (ok: bool)
    requires 0 <= x < w && 0 <= y < h && (channels == 3 || channels == 4)
    requires pix.Length == 4 * (w * h)
    requires forall q :: 0 <= q < pix.Length && PixOffset(x, y, w) <= q ==> pix[q] == 0
    modifies pix
    ensures ok == ReadInRange(data, rowstride, channels, x, y)
    ensures 0 <= PixOffset(x, y, w) && PixOffset(x, y, w) + 4 <= pix.Length
    ensures ok ==> forall c :: 0 <= c < 4 ==>
              pix[PixOffset(x, y, w) + c] == Source(data, rowstride, channels, x, y, c)
    ensures forall q :: 0 <= q < pix.Length && !(PixOffset(x, y, w) <= q < PixOffset(x, y, w) + 4) ==>
              pix[q] == old(pix[q])
  {
    IndexBound(x, y, w, h);
    var at := PixOffset(x, y, w);
    var src := y * rowstride + x * channels;
    if src + channels > |data| {
      return true;
    }
    if src < 0 {
      return false;
    }
    if channels == 4 {
      SetPixel(pix, at, data[src], data[src + 1], data[src + 2], data[src + 3]);
    } else {
      SetPixel(pix, at, data[src], data[src + 1], data[src + 2], 255);
    }
    return true;
  }

  /** The nested pixel loops, for three or four channels. */
  method ConvertPixels(img: Image, rowstride: int, channels: int, data: seq<byte>) returns (ok: bool)
    requires img.Valid() && img.width > 0 && (channels == 3 || channels == 4)
    requires forall q :: 0 <= q < img.pix.Length ==> img.pix[q] == 0
    modifies img.pix
    ensures ok <==> ReadsInRange(data, img.width, img.height, rowstride, channels)
    ensures ok ==> forall q :: 0 <= q < img.pix.Length ==> img.pix[q] == Target(data, rowstride, channels, img.width, q)
  {
    var w, h, pix := img.width, img.height, img.pix;
    var y := 0;
    while y < h
      invariant 0 <= y <= h
      invariant forall k :: 0 <= k < y ==> RowInRange(data, w, rowstride, channels, k)
      invariant forall q :: 0 <= q < PixOffset(0, y, w) && q < pix.Length ==> pix[q] == Target(data, rowstride, channels, w, q)
      invariant forall q :: PixOffset(0, y, w) <= q < pix.Length ==> pix[q] == 0
    {
      ok := ConvertRow(pix, w, h, rowstride, channels, data, y);
      if !ok {
        return;
      }
      assert PixOffset(0, y + 1, w) == PixOffset(0, y, w) + 4 * w by { assert (y + 1) * w == y * w + w; }
      y := y + 1;
    }
    ok := true;
    assert PixOffset(0, h, w) == pix.Length by { assert h * w == w * h; }
  }

  method ConvertRow(pix: array<byte>, w: int, h: int, rowstride: int, channels: int, data: seq<byte>, y: int)
    returns (ok: bool)
    requires 0 < w && 0 <= y < h && (channels == 3 || channels == 4)
    requires pix.Length == 4 * (w * h)
    requires forall q :: 0 <= q < PixOffset(0, y, w) && q < pix.Length ==> pix[q] == Target(data, rowstride, channels, w, q)
    requires forall q :: PixOffset(0, y, w) <= q < pix.Length ==> pix[q] == 0
    modifies pix
    ensures ok <==> RowInRange(data, w, rowstride, channels, y)
    ensures ok ==> forall q :: 0 <= q < PixOffset(0, y, w) + 4 * w && q < pix.Length ==>
              pix[q] == Target(data, rowstride, channels, w, q)
    ensures ok ==> forall q :: PixOffset(0, y, w) + 4 * w <= q < pix.Length ==> pix[q] == 0
  {
    var x := 0;
    while x < w
      invariant 0 <= x <= w
      invariant forall k :: 0 <= k < x ==> ReadInRange(data, rowstride, channels, k, y)
      invariant forall q :: 0 <= q < PixOffset(x, y, w) && q < pix.Length ==> pix[q] == Target(data, rowstride, channels, w, q)
      invariant forall q :: PixOffset(x, y, w) <= q < pix.Length ==> pix[q] == 0
    {
      ok := ConvertPixel(pix, w, h, rowstride, channels, data, x, y);
      if !ok {
        return;
      }
      forall q | PixOffset(x, y, w) <= q < PixOffset(x, y, w) + 4 && q < pix.Length
        ensures pix[q] == Target(data, rowstride, channels, w, q)
      {
        TargetAt(data, rowstride, channels, w, x, y, q - PixOffset(x, y, w));
        assert q == PixOffset(x, y, w) + (q - PixOffset(x, y, w));
      }
      x := x + 1;
    }
    ok := true;
  }

  /** Every byte of the image is the one the source asks for. */
  ghost predicate Shows(img: Image, rowstride: int, channels: int, data: seq<byte>)
    reads img, img.pix
  {
    && img.Valid() && img.width > 0
    && (forall q :: 0 <= q < img.pix.Length ==> img.pix[q] == Target(data, rowstride, channels, img.width, q))
  }

  /** In terms of pixels: (x, y) holds the source bytes at y * rowstride + x * channels, alpha 255 when
      there is no alpha channel, and stays transparent black where the data ends too early. */
  lemma ShowsPixel(img: Image, rowstride: int, channels: int, data: seq<byte>, x: int, y: int)
    requires Shows(img, rowstride, channels, data) && 0 <= x < img.width && 0 <= y < img.height
    requires channels == 3 || channels == 4
    requires ReadInRange(data, rowstride, channels, x, y)
    ensures var at := y * rowstride + x * channels;
            && (at + channels <= |data| ==> 0 <= at)
            && img.Pixel(x, y) ==
               if at + channels > |data| then [0, 0, 0, 0]
               else if channels == 3 then [data[at], data[at + 1], data[at + 2], 255]
               else data[at..at + 4]
  {
    PixelIsSource(img, rowstride, channels, data, x, y);
    SourceBytes(data, rowstride, channels, x, y);
  }

  /** The four bytes the source asks for at (x, y). */
  function SourcePixel(data: seq<byte>, rowstride: int, channels: int, x: int, y: int): seq<byte> {
    seq(4, c requires 0 <= c < 4 => Source(data, rowstride, channels, x, y, c))
  }

  lemma PixelIsSource(img: Image, rowstride: int, channels: int, data: seq<byte>, x: int, y: int)
    requires Shows(img, rowstride, channels, data) && 0 <= x < img.width && 0 <= y < img.height
    ensures img.Pixel(x, y) == SourcePixel(data, rowstride, channels, x, y)
  {
    IndexBound(x, y, img.width, img.height);
    forall c | 0 <= c < 4 ensures img.Pixel(x, y)[c] == Source(data, rowstride, channels, x, y, c) {
      TargetAt(data, rowstride, channels, img.width, x, y, c);
    }
  }

  lemma SourceBytes(data: seq<byte>, rowstride: int, channels: int, x: int, y: int)
    requires channels == 3 || channels == 4
    requires Fits(data, rowstride, channels, x, y) ==> 0 <= y * rowstride + x * channels
    ensures var at := y * rowstride + x * channels;
            SourcePixel(data, rowstride, channels, x, y) ==
               if at + channels > |data| then [0, 0, 0, 0]
               else if channels == 3 then [data[at], data[at + 1], data[at + 2], 255]
               else data[at..at + 4]
  {
  }

  /** What becomes of a hint; the program panics when it indexes outside the data. */
  datatype Extracted = Rejected | Panicked | Extracted(image: Image)

  /** The hint passes the checks made before the pixel loop. */
  predicate Accepted(width: int, height: int, rowstride: int, bits: int, data: seq<byte>) {
    && 0 < width <= 512 && 0 < height <= 512 && bits == 8
    && height * rowstride <= |data|
  }

  /** The loop meets a pixel it has the data for, but not with three or four channels. */
  predicate Unsupported(height: int, rowstride: int, channels: int, data: seq<byte>) {
    channels != 3 && channels != 4 && LowestRow(height, rowstride) + channels <= |data|
  }

  /** The outcome of a hint, decided by its numbers and the length of its data alone. */
  ghost predicate Outcome(r: Extracted, width: int, height: int, rowstride: int, bits: int, channels: int, data: seq<byte>) {
    && (r.Rejected? <==>
          !Accepted(width, height, rowstride, bits, data) || Unsupported(height, rowstride, channels, data))
    && (r.Panicked? <==>
          && Accepted(width, height, rowstride, bits, data)
          && (channels == 3 || channels == 4)
          && !Addressable(data, height, rowstride, channels))
  }

  /** Pixel conversion, for every hint: exactly which are rejected, for which the program panics, and
      that every other becomes an image of its size that shows the source. */
  method ExtractImage(width: int, height: int, rowstride: int, bits: int, channels: int, data: seq<byte>)
    returns (r: Extracted)
    ensures Outcome(r, width, height, rowstride, bits, channels, data)
    ensures r.Extracted? ==>
              && fresh(r.image) && fresh(r.image.pix)
              && r.image.width == width && r.image.height == height
              && Shows(r.image, rowstride, channels, data)
  {
    if width <= 0 || height <= 0 || width > MAX_SIDE || height > MAX_SIDE || bits != 8 {
      return Rejected;
    }
    if |data| < height * rowstride {
      return Rejected;
    }
    var img := new Image(width, height);
    if channels == 3 || channels == 4 {
      ReadsInRangeIff(data, width, height, rowstride, channels);
      var ok := ConvertPixels(img, rowstride, channels, data);
      if !ok {
        return Panicked;
      }
    } else {
      var blank := ScanUnsupported(width, height, rowstride, channels, data);
      if !blank {
        return Rejected;
      }
      BlankShows(img, rowstride, channels, data);
    }
    r := Extracted(img);
  }

  lemma RowOf(q: nat, w: nat, h: nat)
    requires w > 0 && q < 4 * (w * h)
    ensures 0 <= q / 4 / w < h && 0 <= q / 4 % w
  {
    assert w * h == h * w;
    QuotientBelow(q / 4, w, h);
  }

  lemma BlankShows(img: Image, rowstride: int, channels: int, data: seq<byte>)
    requires img.Valid() && img.width > 0 && |data| < LowestRow(img.height, rowstride) + channels
    requires forall q :: 0 <= q < img.pix.Length ==> img.pix[q] == 0
    ensures Shows(img, rowstride, channels, data)
  {
    forall q | 0 <= q < img.pix.Length ensures Target(data, rowstride, channels, img.width, q) == 0 {
      RowOf(q, img.width, img.height);
      TooShort(data, img.height, rowstride, channels, q / 4 % img.width, q / 4 / img.width);
    }
  }

  lemma TooShort(data: seq<byte>, h: int, rowstride: int, channels: int, x: int, y: int)
    requires 0 <= x && 0 <= y < h && |data| < LowestRow(h, rowstride) + channels
    ensures !Fits(data, rowstride, channels, x, y)
  {
    LowestRowIsLowest(h, rowstride, y);
    LowestRowIsLowest(h, rowstride, 0);
    MulMono(0, x, channels);
  }

  /** The pixel loop with an unsupported number of channels: it stops at the first pixel the data
      has room for. */
  method ScanUnsupported(width: int, height: int, rowstride: int, channels: int, data: seq<byte>)
    returns (blank: bool)
    requires 0 < width && 0 < height
    ensures blank <==> |data| < LowestRow(height, rowstride) + channels
  {
    ghost var short := |data| < LowestRow(height, rowstride) + channels;
    var y := 0;
    while y < height
      invariant 0 <= y <= height
      invariant forall k :: 0 <= k < y ==> !Fits(data, rowstride, channels, 0, k)
    {
      var x := 0;
      while x < width
        invariant 0 <= x <= width
        invariant x > 0 ==> !Fits(data, rowstride, channels, 0, y)
      {
        if y * rowstride + x * channels + channels <= |data| {
          if short {
            TooShort(data, height, rowstride, channels, x, y);
          }
          return false;
        }
        x := x + 1;
      }
      y := y + 1;
    }
    assert !Fits(data, rowstride, channels, 0, 0) && !Fits(data, rowstride, channels, 0, height - 1);
    return true;
  }

  // ---------------------------------------------------------------- downscale

  /** Truncation of a / b computed in floating point: a whole quotient may come out one lower. */
  function Truncated(a: nat, b: nat, low: bool): int
    requires b > 0
  {
    if low && a % b == 0 then a / b - 1 else a / b
  }

  datatype Size = Size(w: int, h: int)

  function AtLeastOne(n: int): int {
    if n < 1 then 1 else n
  }

  /** The size an image that does not fit the box is scaled to. */
  function Scaled(w: nat, h: nat, maxW: nat, maxH: nat, low: bool): Size
    requires w > 0 || h > 0
  {
    if w > h then Size(AtLeastOne(maxW), AtLeastOne(Truncated(maxW * h, w, low)))
    else Size(AtLeastOne(Truncated(maxH * w, h, low)), AtLeastOne(maxH))
  }

  /** The source index sampled for index `i` of a side scaled from `from` to `to`. */
  function Sample(i: nat, from: nat, to: nat): nat
    requires to > 0
  {
    i * from / to
  }

  predicate InBox(s: Size, maxW: nat, maxH: nat) {
    1 <= s.w <= maxW && 1 <= s.h <= maxH
  }

  lemma QuotientBelow(a: nat, b: nat, c: nat)
    requires b > 0 && a < c * b
    ensures a / b < c
  {
    if a / b >= c {
      MulMono(c, a / b, b);
    }
  }

  lemma QuotientAtMost(a: nat, b: nat, c: nat)
    requires b > 0 && a <= c * b
    ensures a / b <= c
  {
    if a / b >= c + 1 {
      MulMono(c + 1, a / b, b);
    }
  }

  lemma QuotientAtLeast(a: nat, b: nat, c: nat)
    requires b > 0 && c * b <= a
    ensures c <= a / b
  {
    if a / b + 1 <= c {
      MulMono(a / b + 1, c, b);
    }
  }

  lemma WideFits(w: nat, h: nat, maxW: nat, maxH: nat)
    requires 0 < h < w && maxW < w && maxW <= maxH + 1
    ensures maxW * h / w <= maxH && maxW * h / w <= h
  {
    MulMono(maxW, maxH + 1, h);
    MulMono(h, w - 1, maxH + 1);
    assert (w - 1) * (maxH + 1) == (maxH + 1) * w - (maxH + 1);
    QuotientBelow(maxW * h, w, maxH + 1);
    MulMono(maxW, w, h);
    assert w * h == h * w;
    QuotientAtMost(maxW * h, w, h);
  }

  lemma TallFits(w: nat, h: nat, maxH: nat)
    requires 0 < w <= h && maxH < h
    ensures maxH * w / h <= maxH && maxH * w / h <= w
  {
    MulMono(w, h, maxH);
    assert w * maxH == maxH * w && h * maxH == maxH * h;
    QuotientAtMost(maxH * w, h, maxH);
    MulMono(maxH, h, w);
    assert h * w == w * h;
    QuotientAtMost(maxH * w, h, w);
  }

  /** An image that does not fit a square box, or one a single column wider than high, is scaled to a
      size inside the box, at least one pixel each way and no larger than the image. */
  lemma ScaledFits(w: nat, h: nat, maxW: nat, maxH: nat, low: bool)
    requires w > 0 && h > 0 && maxH > 0 && maxH <= maxW <= maxH + 1
    requires !(w <= maxW && h <= maxH)
    ensures InBox(Scaled(w, h, maxW, maxH, low), maxW, maxH)
    ensures Scaled(w, h, maxW, maxH, low).w <= w && Scaled(w, h, maxW, maxH, low).h <= h
  {
    if w > h {
      WideFits(w, h, maxW, maxH);
    } else {
      TallFits(w, h, maxH);
    }
  }

  /** Exactly these boxes contain the scaled form of every image. */
  lemma BoxFitsEveryImageIff(maxW: nat, maxH: nat)
    requires maxW > 0 && maxH > 0
    ensures (forall w: nat, h: nat, low :: w > 0 && h > 0 && !(w <= maxW && h <= maxH) ==>
               InBox(Scaled(w, h, maxW, maxH, low), maxW, maxH))
            <==> maxH <= maxW <= maxH + 1
  {
    if maxH <= maxW <= maxH + 1 {
      forall w: nat, h: nat, low | w > 0 && h > 0 && !(w <= maxW && h <= maxH)
        ensures InBox(Scaled(w, h, maxW, maxH, low), maxW, maxH)
      {
        ScaledFits(w, h, maxW, maxH, low);
      }
    } else if maxW < maxH {
      var n := maxH + 1;
      QuotientAtLeast(maxH * n, n, maxH);
      assert !InBox(Scaled(n, n, maxW, maxH, false), maxW, maxH);
    } else {
      var n := maxW + 1;
      assert maxW * maxW == (maxW - 1) * n + 1;
      QuotientAtLeast(maxW * maxW, n, maxW - 1);
      assert !InBox(Scaled(n, maxW, maxW, maxH, false), maxW, maxH);
    }
  }

  /** Sampled indices are inside the source and strictly increasing, so no source row or column is
      used twice. */
  lemma SamplesInRange(i: nat, from: nat, to: nat)
    requires 0 < to && i < to
    ensures from > 0 ==> Sample(i, from, to) < from
    ensures to <= from ==> Sample(i, from, to) < Sample(i + 1, from, to)
  {
    if from > 0 {
      MulMono(i + 1, to, from);
      assert (i + 1) * from == i * from + from;
      assert to * from == from * to;
      QuotientBelow(i * from, to, from);
    }
    if to <= from {
      NextQuotient(i * from, from, to);
      assert (i + 1) * from == i * from + from;
    }
  }

  lemma NextQuotient(a: nat, step: nat, b: nat)
    requires 0 < b <= step
    ensures a / b < (a + step) / b
  {
    var q := a / b;
    assert q * b <= a;
    assert (q + 1) * b == q * b + b;
    QuotientAtLeast(a + step, b, q + 1);
  }

  /** The offset in the source of byte `q` of the scaled image. */
  function SampleOffset(w: nat, h: nat, to: Size, q: nat): int
    requires to.w > 0 && to.h > 0
  {
    PixOffset(Sample(q / 4 % to.w, w, to.w), Sample(q / 4 / to.w, h, to.h), w) + q % 4
  }

  lemma SampleOffsetAt(w: nat, h: nat, to: Size, x: nat, y: nat, c: nat)
    requires 0 <= x < to.w && 0 <= y < to.h && c < 4 && w > 0 && h > 0
    ensures 0 <= PixOffset(x, y, to.w) + c
    ensures SampleOffset(w, h, to, PixOffset(x, y, to.w) + c) == PixOffset(Sample(x, w, to.w), Sample(y, h, to.h), w) + c
    ensures 0 <= SampleOffset(w, h, to, PixOffset(x, y, to.w) + c) < 4 * (w * h)
  {
    IndexBound(x, y, to.w, to.h);
    RowColumn(x, y, to.w);
    assert (PixOffset(x, y, to.w) + c) / 4 == y * to.w + x;
    SamplesInRange(x, w, to.w);
    SamplesInRange(y, h, to.h);
    IndexBound(Sample(x, w, to.w), Sample(y, h, to.h), w, h);
  }

  /** The four bytes of a pixel are sampled together. */
  lemma SamplePixelAt(w: nat, h: nat, to: Size, x: nat, y: nat, src: int)
    requires 0 <= x < to.w && 0 <= y < to.h && w > 0 && h > 0
    requires src == PixOffset(Sample(x, w, to.w), Sample(y, h, to.h), w)
    ensures 0 <= PixOffset(x, y, to.w) && 0 <= src && src + 4 <= 4 * (w * h)
    ensures forall q :: PixOffset(x, y, to.w) <= q < PixOffset(x, y, to.w) + 4 ==>
              SampleOffset(w, h, to, q) == src + (q - PixOffset(x, y, to.w))
  {
    var at := PixOffset(x, y, to.w);
    SampleOffsetAt(w, h, to, x, y, 0);
    SampleOffsetAt(w, h, to, x, y, 3);
    forall q | at <= q < at + 4 ensures SampleOffset(w, h, to, q) == src + (q - at) {
      SampleOffsetAt(w, h, to, x, y, q - at);
    }
  }

  /** The image `r` is `img` sampled to its size. */
  ghost predicate Samples(img: Image, r: Image)
    reads img, img.pix, r, r.pix
  {
    && img.Valid() && r.Valid() && img.width > 0 && img.height > 0 && r.width > 0 && r.height > 0
    && (forall q :: 0 <= q < r.pix.Length ==>
          var at := SampleOffset(img.width, img.height, Size(r.width, r.height), q);
          0 <= at < img.pix.Length && r.pix[q] == img.pix[at])
  }

  /** In terms of pixels: (x, y) of the result is the source pixel in the sampled column and row. */
  lemma SamplesPixel(img: Image, r: Image, x: nat, y: nat)
    requires Samples(img, r) && x < r.width && y < r.height
    ensures Sample(x, img.width, r.width) < img.width && Sample(y, img.height, r.height) < img.height
    ensures r.Pixel(x, y) == img.Pixel(Sample(x, img.width, r.width), Sample(y, img.height, r.height))
  {
    SamplesInRange(x, img.width, r.width);
    SamplesInRange(y, img.height, r.height);
    IndexBound(x, y, r.width, r.height);
    IndexBound(Sample(x, img.width, r.width), Sample(y, img.height, r.height), img.width, img.height);
    var to := Size(r.width, r.height);
    SampleOffsetAt(img.width, img.height, to, x, y, 0);
    SampleOffsetAt(img.width, img.height, to, x, y, 1);
    SampleOffsetAt(img.width, img.height, to, x, y, 2);
    SampleOffsetAt(img.width, img.height, to, x, y, 3);
  }

  /** Index `j` of the source is the one that lies under index `i` of the scaled side. */
  predicate Under(i: int, j: int, from: int, to: int) {
    j * to <= i * from < (j + 1) * to
  }

  lemma SampleMeaning(i: nat, from: nat, to: nat, j: int)
    requires to > 0
    ensures Sample(i, from, to) == j <==> Under(i, j, from, to)
  {
    var a, q := i * from, i * from / to;
    assert a == q * to + a % to;
    assert (q + 1) * to == q * to + to;
    if j < q {
      MulMono(j + 1, q, to);
    } else if j > q {
      MulMono(q + 1, j, to);
    }
  }

  /** Every pixel of `r` is the pixel of `img` that lies under it. */
  ghost predicate Shrunk(img: Image, r: Image)
    reads img, img.pix, r, r.pix
  {
    && img.Valid() && r.Valid()
    && (forall x, y, u, v ::
          && 0 <= x < r.width && 0 <= y < r.height
          && Under(x, u, img.width, r.width) && Under(y, v, img.height, r.height) ==>
            0 <= u < img.width && 0 <= v < img.height && r.Pixel(x, y) == img.Pixel(u, v))
  }

  lemma SamplesShrunk(img: Image, r: Image)
    requires Samples(img, r)
    ensures Shrunk(img, r)
  {
    forall x, y, u, v | && 0 <= x < r.width && 0 <= y < r.height
                        && Under(x, u, img.width, r.width) && Under(y, v, img.height, r.height)
      ensures 0 <= u < img.width && 0 <= v < img.height && r.Pixel(x, y) == img.Pixel(u, v)
    {
      SampleMeaning(x, img.width, r.width, u);
      SampleMeaning(y, img.height, r.height, v);
      SamplesPixel(img, r, x, y);
    }
  }

  /** `n` is the whole part of a / b, or one lower where that is allowed and the quotient is whole. */
  predicate Share(n: int, a: int, b: int, low: bool) {
    if low && (n + 1) * b == a then true else n * b <= a < (n + 1) * b && !(low && n * b == a)
  }

  /** The longer side takes its maximum, the other its share of the aspect ratio, and neither is below 1. */
  ghost predicate IsScaled(s: Size, w: int, h: int, maxW: int, maxH: int, low: bool) {
    if w > h then
      s.w == (if maxW < 1 then 1 else maxW)
      && exists n :: Share(n, maxW * h, w, low) && s.h == if n < 1 then 1 else n
    else
      s.h == (if maxH < 1 then 1 else maxH)
      && exists n :: Share(n, maxH * w, h, low) && s.w == if n < 1 then 1 else n
  }

  lemma TruncatedShare(a: nat, b: nat, low: bool)
    requires b > 0
    ensures forall n :: Share(n, a, b, low) <==> n == Truncated(a, b, low)
  {
    var q := a / b;
    assert a == q * b + a % b;
    assert (q + 1) * b == q * b + b && (q - 1 + 1) * b == q * b;
    forall n ensures Share(n, a, b, low) <==> n == Truncated(a, b, low) {
      assert (n + 1) * b == n * b + b;
      if n + 1 < q {
        MulMono(n + 2, q, b);
        assert (n + 2) * b == n * b + b + b;
      } else if n > q {
        MulMono(q + 1, n, b);
      }
    }
  }

  lemma ScaledMeaning(w: nat, h: nat, maxW: nat, maxH: nat, low: bool)
    requires w > 0 || h > 0
    ensures IsScaled(Scaled(w, h, maxW, maxH, low), w, h, maxW, maxH, low)
  {
    if w > h {
      TruncatedShare(maxW * h, w, low);
      assert Share(Truncated(maxW * h, w, low), maxW * h, w, low);
    } else {
      TruncatedShare(maxH * w, h, low);
      assert Share(Truncated(maxH * w, h, low), maxH * w, h, low);
    }
  }

  /** No other size is meant. */
  lemma ScaledOnly(s: Size, w: nat, h: nat, maxW: nat, maxH: nat, low: bool)
    requires (w > 0 || h > 0) && IsScaled(s, w, h, maxW, maxH, low)
    ensures s == Scaled(w, h, maxW, maxH, low)
  {
    if w > h {
      TruncatedShare(maxW * h, w, low);
    } else {
      TruncatedShare(maxH * w, h, low);
    }
  }

  /** Copies one sampled pixel. */
  method CopyPixel(img: Image, r: Image, x: nat, y: nat)
    requires img.Valid() && r.Valid() && img.width > 0 && img.height > 0 && img.pix != r.pix
    requires x < r.width && y < r.height
    modifies r.pix
    ensures var to, at := Size(r.width, r.height), PixOffset(x, y, r.width);
            && 0 <= at && at + 4 <= r.pix.Length
            && (forall q :: at <= q < at + 4 ==>
                  var src := SampleOffset(img.width, img.height, to, q);
                  0 <= src < img.pix.Length && r.pix[q] == img.pix[src])
            && (forall q :: 0 <= q < r.pix.Length && !(at <= q < at + 4) ==> r.pix[q] == old(r.pix[q]))
  {
    var src := PixOffset(Sample(x, img.width, r.width), Sample(y, img.height, r.height), img.width);
    SamplePixelAt(img.width, img.height, Size(r.width, r.height), x, y, src);
    IndexBound(x, y, r.width, r.height);
    SetPixel(r.pix, PixOffset(x, y, r.width), img.pix[src], img.pix[src + 1], img.pix[src + 2], img.pix[src + 3]);
  }

  /** The first `n` bytes of the result have been sampled. */
  ghost predicate SampledUpTo(img: Image, r: Image, n: int)
    reads img, img.pix, r, r.pix
  {
    && img.Valid() && r.Valid() && img.width > 0 && img.height > 0 && r.width > 0 && r.height > 0
    && (forall q :: 0 <= q < n && q < r.pix.Length ==>
          var at := SampleOffset(img.width, img.height, Size(r.width, r.height), q);
          0 <= at < img.pix.Length && r.pix[q] == img.pix[at])
  }

  method CopyRow(img: Image, r: Image, y: nat)
    requires img.pix != r.pix && y < r.height && SampledUpTo(img, r, PixOffset(0, y, r.width))
    modifies r.pix
    ensures SampledUpTo(img, r, PixOffset(0, y, r.width) + 4 * r.width)
  {
    var x: nat := 0;
    while x < r.width
      invariant x <= r.width && SampledUpTo(img, r, PixOffset(x, y, r.width))
    {
      CopyPixel(img, r, x, y);
      x := x + 1;
    }
  }

  /** The loops over the new image. */
  method Resample(img: Image, r: Image)
    requires img.Valid() && r.Valid() && img.width > 0 && img.height > 0 && r.width > 0 && r.height > 0
    requires img.pix != r.pix
    modifies r.pix
    ensures Samples(img, r)
  {
    var y: nat := 0;
    while y < r.height
      invariant y <= r.height && SampledUpTo(img, r, PixOffset(0, y, r.width))
    {
      CopyRow(img, r, y);
      assert PixOffset(0, y + 1, r.width) == PixOffset(0, y, r.width) + 4 * r.width by {
        assert (y + 1) * r.width == y * r.width + r.width;
      }
      y := y + 1;
    }
    assert PixOffset(0, r.height, r.width) == r.pix.Length by { assert r.height * r.width == r.width * r.height; }
  }

  /** Downscale: an image that fits the box is returned as it is; any other becomes a new image of
      the scaled size, each pixel sampled from the source, or transparent if the source has none. */
  method Resize(img: Image, maxW: nat, maxH: nat, low: bool) returns (r: Image)
    requires img.Valid()
    ensures img.width <= maxW && img.height <= maxH ==> r == img
    ensures !(img.width <= maxW && img.height <= maxH) ==>
              && fresh(r) && fresh(r.pix)
              && IsScaled(Size(r.width, r.height), img.width, img.height, maxW, maxH, low)
              && (if img.width > 0 && img.height > 0 then Shrunk(img, r)
                  else forall q :: 0 <= q < r.pix.Length ==> r.pix[q] == 0)
  {
    if img.width <= maxW && img.height <= maxH {
      return img;
    }
    var size := Scaled(img.width, img.height, maxW, maxH, low);
    ScaledMeaning(img.width, img.height, maxW, maxH, low);
    r := new Image(size.w, size.h);
    if img.width == 0 || img.height == 0 {
      return;    // every sample lies outside the image and is transparent
    }
    Resample(img, r);
    SamplesShrunk(img, r);
  }

  /** From a hint to the icon: at most 96 pixels each way, and every pixel one of the source's. */
  method ExtractIcon(width: int, height: int, rowstride: int, bits: int, channels: int, data: seq<byte>, low: bool)
    returns (r: Extracted, ghost full: Extracted)
    ensures Outcome(r, width, height, rowstride, bits, channels, data)
    ensures r.Extracted? == full.Extracted?
    ensures full.Extracted? ==>
              && full.image.width == width && full.image.height == height
              && Shows(full.image, rowstride, channels, data)
              && 1 <= r.image.width <= 96 && 1 <= r.image.height <= 96
              && r.image.width <= width && r.image.height <= height
              && (if width <= 96 && height <= 96 then r.image == full.image else Shrunk(full.image, r.image))
  {
    r := ExtractImage(width, height, rowstride, bits, channels, data);
    full := r;
    if r.Extracted? && (width > BOX || height > BOX) {
      var small := Resize(r.image, BOX, BOX, low);
      ScaledFits(width, height, BOX, BOX, low);
      ScaledOnly(Size(small.width, small.height), width, height, BOX, BOX, low);
      r := Extracted(small);
    }
  }
}
