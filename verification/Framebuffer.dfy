/** The client's drawing: bitmaps copied row by row into the frame buffer, and rectangles filled. */
module Framebuffer {
  import opened Rows
  import opened BitmapFile

  // --- Displaying a bitmap ---

  /** `n` rows fit into the image and into the frame buffer. */
  predicate DrawnFits(size: nat, base: nat, stride: nat, imageSize: nat, len: nat, n: nat) {
    len <= stride && RowStart(n, len) <= imageSize && (n > 0 ==> base + RowStart(n - 1, stride) + len <= size)
  }

  /** `fb` with the first `n` rows of an image copied in, from `base` on. */
  function Drawn(fb: seq<Byte>, base: nat, stride: nat, image: seq<Byte>, len: nat, n: nat): (r: seq<Byte>)
    requires DrawnFits(|fb|, base, stride, |image|, len, n)
    ensures |r| == |fb|
  {
    if n == 0 then fb
    else Write(Drawn(fb, base, stride, image, len, n - 1), base + RowStart(n - 1, stride),
               image[RowStart(n - 1, len)..RowStart(n - 1, len) + len])
  }

  /** Each row drawn reads back. */
  lemma {:induction false} DrawnRow(fb: seq<Byte>, base: nat, stride: nat, image: seq<Byte>, len: nat, n: nat, i: nat)
    requires DrawnFits(|fb|, base, stride, |image|, len, n) && i < n
    ensures base + RowStart(i, stride) + len <= |fb| && RowStart(i, len) + len <= |image|
    ensures var at := base + RowStart(i, stride);
            Drawn(fb, base, stride, image, len, n)[at..at + len] == image[RowStart(i, len)..RowStart(i, len) + len]
    decreases n
  {
    hide Write;
    RowsApart(i, n, len);
    var before := Drawn(fb, base, stride, image, len, n - 1);
    var at, src := base + RowStart(n - 1, stride), image[RowStart(n - 1, len)..RowStart(n - 1, len) + len];
    if i < n - 1 {
      DrawnRow(fb, base, stride, image, len, n - 1, i);
      RowsApart(i, n - 1, stride);
      WriteReads(before, at, src, base + RowStart(i, stride), base + RowStart(i, stride) + len);
    } else {
      WriteReads(before, at, src, 0, 0);
    }
  }

  /** No other byte of the frame buffer changes. */
  lemma {:induction false} DrawnElsewhere(fb: seq<Byte>, base: nat, stride: nat, image: seq<Byte>, len: nat, n: nat,
                                          k: nat)
    requires DrawnFits(|fb|, base, stride, |image|, len, n) && k < |fb|
    requires forall i :: 0 <= i < n ==> !(base + RowStart(i, stride) <= k < base + RowStart(i, stride) + len)
    ensures Drawn(fb, base, stride, image, len, n)[k] == fb[k]
    decreases n
  {
    if n > 0 {
      RowStartStep(n, len);
      RowStartStep(n - 1, stride);
      hide Write, RowStart;
      DrawnElsewhere(fb, base, stride, image, len, n - 1, k);
      var at := base + RowStart(n - 1, stride);
      assert !(at <= k < at + len);
      WriteElsewhere(Drawn(fb, base, stride, image, len, n - 1), at,
                     image[RowStart(n - 1, len)..RowStart(n - 1, len) + len], k);
    }
  }

  /** Where the code puts screen row `row`, and where it finds image row `i`. */
  function LineStart(screenWidth: nat, bytes: nat, x: nat, row: nat): nat {
    (row * screenWidth + x) * bytes
  }

  function ImageStart(width: nat, bytes: nat, i: nat): nat {
    (i * width) * bytes
  }

  /** `fb_display_bmp` on a screen `screenWidth` pixels wide. */
  method DisplayBmp(fb: array<Byte>, screenWidth: nat, bytes: nat, pixels: array<Byte>, width: nat, height: nat,
                    x: nat, y: nat)
    requires fb != pixels && x + width <= screenWidth
    requires pixels.Length == height * width * bytes
    requires fb.Length >= (y + height) * screenWidth * bytes
    modifies fb
    ensures DrawnFits(fb.Length, LineStart(screenWidth, bytes, x, y), screenWidth * bytes, pixels.Length,
                      width * bytes, height)
    ensures fb[..] == Drawn(old(fb[..]), LineStart(screenWidth, bytes, x, y), screenWidth * bytes, pixels[..],
                            width * bytes, height)
  {
    ghost var base, stride := LineStart(screenWidth, bytes, x, y), screenWidth * bytes;
    var len := width * bytes;
    OffsetsFit(screenWidth, bytes, width, height, x, y);
    assert RowStart(0, len) == 0;
    hide LineStart, ImageStart, RowStart, Write;
    var i := 0;
    while i < height
      invariant i <= height && DrawnFits(fb.Length, base, stride, pixels.Length, len, i)
      invariant fb[..] == Drawn(old(fb[..]), base, stride, pixels[..], len, i)
    {
      RowOffsets(screenWidth, bytes, width, height, x, y, i);
      var lineStart := LineStart(screenWidth, bytes, x, y + i);
      var from := ImageStart(width, bytes, i);
      DrawRow(fb, lineStart, pixels, from, old(fb[..]), base, stride, len, i);
      i := i + 1;
    }
  }

  /** One memcpy of the loop. */
  method DrawRow(fb: array<Byte>, lineStart: nat, pixels: array<Byte>, from: nat, ghost was: seq<Byte>,
                 ghost base: nat, ghost stride: nat, len: nat, ghost i: nat)
    requires fb != pixels && |was| == fb.Length
    requires lineStart == base + RowStart(i, stride) && from == RowStart(i, len)
    requires DrawnFits(fb.Length, base, stride, pixels.Length, len, i + 1)
    requires DrawnFits(fb.Length, base, stride, pixels.Length, len, i)
    requires fb[..] == Drawn(was, base, stride, pixels[..], len, i)
    modifies fb
    ensures fb[..] == Drawn(was, base, stride, pixels[..], len, i + 1)
  {
    hide Write;
    assert RowStart(i + 1, len) == from + len;
    Copy(fb, lineStart, pixels[from..from + len]);
  }

  lemma RowOffsets(screenWidth: nat, bytes: nat, width: nat, height: nat, x: nat, y: nat, i: nat)
    requires x + width <= screenWidth && i < height
    ensures LineStart(screenWidth, bytes, x, y + i)
            == LineStart(screenWidth, bytes, x, y) + RowStart(i, screenWidth * bytes)
    ensures ImageStart(width, bytes, i) == RowStart(i, width * bytes)
    ensures DrawnFits((y + height) * screenWidth * bytes, LineStart(screenWidth, bytes, x, y), screenWidth * bytes,
                      height * width * bytes, width * bytes, i + 1)
  {
    ScreenOffset(screenWidth, bytes, x, y, i);
    ScreenRowFits(screenWidth, bytes, width, height, x, y, i);
    ImageOffset(width, bytes, height, i);
    MulLe(width, screenWidth, bytes);
    hide RowStart;
  }

  /** The code's offset of screen row `y` + `i`. */
  lemma ScreenOffset(screenWidth: nat, bytes: nat, x: nat, y: nat, i: nat)
    ensures ((y + i) * screenWidth + x) * bytes == (y * screenWidth + x) * bytes + RowStart(i, screenWidth * bytes)
  {
    hide RowStart;
    RowStartIsProduct(i, screenWidth * bytes);
    Distrib(y, i, screenWidth);
    Distrib(y * screenWidth + x, i * screenWidth, bytes);
    Assoc(i, screenWidth, bytes);
  }

  /** The row ends on the screen. */
  lemma ScreenRowFits(screenWidth: nat, bytes: nat, width: nat, height: nat, x: nat, y: nat, i: nat)
    requires x + width <= screenWidth && i < height
    ensures ((y + i) * screenWidth + x) * bytes + width * bytes <= (y + height) * screenWidth * bytes
  {
    Distrib((y + i) * screenWidth + x, width, bytes);
    Distrib(y + i, 1, screenWidth);
    MulLe(y + i + 1, y + height, screenWidth);
    MulLe((y + i) * screenWidth + x + width, (y + height) * screenWidth, bytes);
  }

  /** The code's offset of image row `i`, and that the row ends in the image. */
  lemma ImageOffset(width: nat, bytes: nat, height: nat, i: nat)
    requires i < height
    ensures (i * width) * bytes == RowStart(i, width * bytes)
    ensures RowStart(i + 1, width * bytes) == RowStart(i, width * bytes) + width * bytes <= height * width * bytes
  {
    Assoc(i, width, bytes);
    RowStartIsProduct(i, width * bytes);
    RowStartIsProduct(i + 1, width * bytes);
    MulLe(i + 1, height, width * bytes);
    Assoc(height, width, bytes);
  }

  lemma OffsetsFit(screenWidth: nat, bytes: nat, width: nat, height: nat, x: nat, y: nat)
    requires x + width <= screenWidth
    ensures width * bytes <= screenWidth * bytes && RowStart(height, width * bytes) == height * width * bytes
    ensures height > 0 ==>
              LineStart(screenWidth, bytes, x, y) + RowStart(height - 1, screenWidth * bytes) + width * bytes
              <= (y + height) * screenWidth * bytes
  {
    hide RowStart;
    MulLe(width, screenWidth, bytes);
    RowStartIsProduct(height, width * bytes);
    Assoc(height, width, bytes);
    if height > 0 {
      ScreenOffset(screenWidth, bytes, x, y, height - 1);
      ScreenRowFits(screenWidth, bytes, width, height, x, y, height - 1);
    }
  }

  /** Reading and displaying: screen row `y` + `i` shows what was read of the file's row `height` - 1 - `i`,
      which is the picture's own row whenever the rows are where the code looks for them. */
  lemma ReadThenDisplay(file: seq<Byte>, offset: nat, width: nat, height: nat, bytes: nat, was: seq<Byte>,
                        fb: seq<Byte>, screenWidth: nat, x: nat, y: nat, i: nat)
    requires |was| == RowStart(height, width * bytes) && i < height
    requires x + width <= screenWidth && |fb| >= (y + height) * screenWidth * bytes
    ensures DrawnFits(|fb|, LineStart(screenWidth, bytes, x, y), screenWidth * bytes, |was|, width * bytes, height)
    ensures var shown := Drawn(fb, LineStart(screenWidth, bytes, x, y), screenWidth * bytes,
                               ImageOf(file, offset, width, height, bytes, was), width * bytes, height);
            var row := Slice(shown, LineStart(screenWidth, bytes, x, y + i), width * bytes);
            row == Fread(file, offset + RowStart(height - 1 - i, PaddedRow(width, bytes)),
                         Slice(was, RowStart(i, width * bytes), width * bytes))
            && (SameRows(width, height, bytes) && FormatComplete(file, offset, width, height, bytes) ==>
                  row == FormatPixels(file, offset, width, bytes, height - 1 - i))
  {
    hide *;
    var base, stride, len := LineStart(screenWidth, bytes, x, y), screenWidth * bytes, width * bytes;
    RowOffsets(screenWidth, bytes, width, height, x, y, i);
    DisplayFits(|fb|, screenWidth, bytes, width, height, x, y);
    ImageRow(file, offset, width, height, bytes, was, i);
    if SameRows(width, height, bytes) && FormatComplete(file, offset, width, height, bytes) {
      RowRight(file, offset, width, height, bytes, was, i);
    }
    DrawnSlice(fb, base, stride, ImageOf(file, offset, width, height, bytes, was), len, height, i);
  }

  lemma DrawnSlice(fb: seq<Byte>, base: nat, stride: nat, image: seq<Byte>, len: nat, n: nat, i: nat)
    requires DrawnFits(|fb|, base, stride, |image|, len, n) && i < n
    ensures Slice(Drawn(fb, base, stride, image, len, n), base + RowStart(i, stride), len)
            == Slice(image, RowStart(i, len), len)
  {
    hide Drawn, RowStart, DrawnFits;
    DrawnRow(fb, base, stride, image, len, n, i);
  }

  lemma DisplayFits(size: nat, screenWidth: nat, bytes: nat, width: nat, height: nat, x: nat, y: nat)
    requires x + width <= screenWidth && size >= (y + height) * screenWidth * bytes
    ensures DrawnFits(size, LineStart(screenWidth, bytes, x, y), screenWidth * bytes, RowStart(height, width * bytes),
                      width * bytes, height)
  {
    hide RowStart, LineStart;
    OffsetsFit(screenWidth, bytes, width, height, x, y);
  }

  /** Image row `i` is what was read of the file's row `height` - 1 - `i`. */
  lemma ImageRow(file: seq<Byte>, offset: nat, width: nat, height: nat, bytes: nat, was: seq<Byte>, i: nat)
    requires |was| == RowStart(height, width * bytes) && i < height
    ensures |ImageOf(file, offset, width, height, bytes, was)| == |was|
    ensures Slice(ImageOf(file, offset, width, height, bytes, was), RowStart(i, width * bytes), width * bytes)
            == Fread(file, offset + RowStart(height - 1 - i, PaddedRow(width, bytes)),
                     Slice(was, RowStart(i, width * bytes), width * bytes))
  {
    hide RowStart, PaddedRow, Bitmap.Stacked, Fread, Slice;
    StackedRow(FromHeader(file, offset, width, height, bytes, bytes), height, i, was);
  }

  /** Where a pixel stands in memory that holds rows of this many pixels. */
  function PixelAt(rowPixels: nat, bytes: nat, column: nat, row: nat): nat {
    (row * rowPixels + column) * bytes
  }

  /** Pixel by pixel: screen pixel (x + k, y + i) shows image pixel (k, i), both counted row by row. */
  lemma DisplayedPixel(fb: seq<Byte>, screenWidth: nat, bytes: nat, image: seq<Byte>, width: nat, height: nat,
                       x: nat, y: nat, i: nat, k: nat)
    requires x + width <= screenWidth && |fb| >= (y + height) * screenWidth * bytes
    requires |image| == height * width * bytes && i < height && k < width
    ensures DrawnFits(|fb|, LineStart(screenWidth, bytes, x, y), screenWidth * bytes, |image|, width * bytes, height)
    ensures Slice(Drawn(fb, LineStart(screenWidth, bytes, x, y), screenWidth * bytes, image, width * bytes, height),
                  PixelAt(screenWidth, bytes, x + k, y + i), bytes)
            == Slice(image, PixelAt(width, bytes, k, i), bytes)
  {
    hide *;
    var base, stride, len := LineStart(screenWidth, bytes, x, y), screenWidth * bytes, width * bytes;
    ImageSize(width, bytes, height);
    DisplayFits(|fb|, screenWidth, bytes, width, height, x, y);
    DrawnSlice(fb, base, stride, image, len, height, i);
    RowOffsets(screenWidth, bytes, width, height, x, y, i);
    LinePlus(screenWidth, bytes, x, y + i, k);
    ImagePlus(width, bytes, i, k);
    PixelAtIs(screenWidth, bytes, x, y + i, k);
    PixelAtIs(width, bytes, 0, i, k);
    PixelInRow(k, width, bytes);
    DrawnFitsRow(|fb|, base, stride, |image|, len, height, i);
    var shown := Drawn(fb, base, stride, image, len, height);
    SubSlice(shown, base + RowStart(i, stride), len, k * bytes, bytes);
    SubSlice(image, RowStart(i, len), len, k * bytes, bytes);
  }

  lemma ImageSize(width: nat, bytes: nat, height: nat)
    ensures RowStart(height, width * bytes) == height * width * bytes
  {
    RowStartIsProduct(height, width * bytes);
    Assoc(height, width, bytes);
  }

  lemma ImagePlus(width: nat, bytes: nat, i: nat, k: nat)
    ensures ImageStart(width, bytes, i) + k * bytes == (i * width + 0 + k) * bytes
  {
    Distrib(i * width, k, bytes);
  }

  lemma PixelAtIs(rowPixels: nat, bytes: nat, x: nat, row: nat, k: nat)
    ensures PixelAt(rowPixels, bytes, x + k, row) == (row * rowPixels + x + k) * bytes
    ensures PixelAt(rowPixels, bytes, k, row) == (row * rowPixels + 0 + k) * bytes
  {
  }

  lemma PixelInRow(k: nat, width: nat, bytes: nat)
    requires k < width
    ensures k * bytes + bytes <= width * bytes
  {
    MulLe(k + 1, width, bytes);
    Distrib(k, 1, bytes);
  }

  lemma DrawnFitsRow(size: nat, base: nat, stride: nat, imageSize: nat, len: nat, n: nat, i: nat)
    requires DrawnFits(size, base, stride, imageSize, len, n) && i < n
    ensures base + RowStart(i, stride) + len <= size && RowStart(i, len) + len <= imageSize
  {
    RowsApart(i, n, len);
    if i < n - 1 { RowsApart(i, n - 1, stride); }
  }

  lemma SubSlice(s: seq<Byte>, at: nat, len: nat, from: nat, n: nat)
    requires at + len <= |s| && from + n <= len
    ensures Slice(s, at + from, n) == Slice(s, at, len)[from..from + n]
  {
  }

  /** The two-pixel picture on the screen: where its upper pixel belongs stands whatever memory held. */
  lemma ShortFileShown(header: seq<Byte>, was: seq<Byte>, fb: seq<Byte>, screenWidth: nat, x: nat, y: nat)
    requires |was| == 4 && x < screenWidth && |fb| >= (y + 2) * screenWidth * 2
    ensures RowStart(2, 1 * 2) == 4
    ensures DrawnFits(|fb|, LineStart(screenWidth, 2, x, y), screenWidth * 2, 4, 1 * 2, 2)
    ensures var image := ImageOf(header + [1, 2, 0, 0, 3, 4, 0, 0], |header|, 1, 2, 2, was);
            Slice(Drawn(fb, LineStart(screenWidth, 2, x, y), screenWidth * 2, image, 1 * 2, 2),
                  LineStart(screenWidth, 2, x, y), 2) == was[..2]
  {
    hide *;
    var file, n := header + [1, 2, 0, 0, 3, 4, 0, 0], |header|;
    ThreeStarts(2);
    DisplayFits(|fb|, screenWidth, 2, 1, 2, x, y);
    ReadThenDisplay(file, n, 1, 2, 2, was, fb, screenWidth, x, y, 0);
    assert y + 0 == y && 2 - 1 - 0 == 1;
    NothingThere(file, was);
  }

  lemma NothingThere(file: seq<Byte>, was: seq<Byte>)
    requires |was| == 4 && |file| >= 8
    ensures Fread(file, |file| - 8 + RowStart(1, PaddedRow(1, 2)), Slice(was, RowStart(0, 1 * 2), 1 * 2)) == was[..2]
  {
    assert PaddedRow(1, 2) == 8;
    ThreeStarts(8);
  }

  // --- Filling a rectangle ---

  /** The two-byte stores of `k` pixels stay inside the buffer. */
  predicate StoresFit(size: nat, line: nat, bytes: nat, k: nat) {
    k > 0 ==> line + RowStart(k - 1, bytes) + 2 <= size
  }

  /** `fb` after a two-byte store for each of `k` pixels of a row. */
  function FilledRow(fb: seq<Byte>, line: nat, bytes: nat, color: seq<Byte>, k: nat): (r: seq<Byte>)
    requires |color| == 2 && StoresFit(|fb|, line, bytes, k)
    ensures |r| == |fb|
  {
    if k == 0 then fb
    else Write(FilledRow(fb, line, bytes, color, k - 1), line + RowStart(k - 1, bytes), color)
  }

  predicate FillFits(size: nat, base: nat, stride: nat, bytes: nat, width: nat, n: nat) {
    n > 0 ==> StoresFit(size, base + RowStart(n - 1, stride), bytes, width)
  }

  /** `fb` after `n` rows. */
  function Filled(fb: seq<Byte>, base: nat, stride: nat, bytes: nat, color: seq<Byte>, width: nat, n: nat)
    : (r: seq<Byte>)
    requires |color| == 2 && FillFits(|fb|, base, stride, bytes, width, n)
    ensures |r| == |fb|
  {
    if n == 0 then fb
    else FilledRow(Filled(fb, base, stride, bytes, color, width, n - 1), base + RowStart(n - 1, stride), bytes,
                   color, width)
  }

  /** `fb_fill`: whatever the pixel size, it stores the two bytes of `color` for each pixel. */
  method FillRect(fb: array<Byte>, screenWidth: nat, bytes: nat, width: nat, height: nat, x: nat, y: nat,
                  color: seq<Byte>)
    requires |color| == 2
    requires FillFits(fb.Length, LineStart(screenWidth, bytes, x, y), screenWidth * bytes, bytes, width, height)
    modifies fb
    ensures fb[..] == Filled(old(fb[..]), LineStart(screenWidth, bytes, x, y), screenWidth * bytes, bytes, color,
                             width, height)
  {
    hide *;
    ghost var was, base, stride := fb[..], LineStart(screenWidth, bytes, x, y), screenWidth * bytes;
    FilledStep(was, base, stride, bytes, color, width, 0, height);
    var i := 0;
    while i < height
      invariant i <= height && FillFits(fb.Length, base, stride, bytes, width, i)
      invariant fb[..] == Filled(was, base, stride, bytes, color, width, i)
    {
      LineOffset(screenWidth, bytes, x, y, i);
      FilledStep(was, base, stride, bytes, color, width, i + 1, height);
      FillRow(fb, LineStart(screenWidth, bytes, x, y + i), bytes, width, color);
      i := i + 1;
    }
  }

  /** The inner loop. */
  method FillRow(fb: array<Byte>, lineStart: nat, bytes: nat, width: nat, color: seq<Byte>)
    requires |color| == 2 && StoresFit(fb.Length, lineStart, bytes, width)
    modifies fb
    ensures fb[..] == FilledRow(old(fb[..]), lineStart, bytes, color, width)
  {
    hide *;
    ghost var was := fb[..];
    FilledRowStep(was, lineStart, bytes, color, 0, width);
    var k := 0;
    while k < width
      invariant k <= width && StoresFit(fb.Length, lineStart, bytes, k)
      invariant fb[..] == FilledRow(was, lineStart, bytes, color, k)
    {
      FilledRowStep(was, lineStart, bytes, color, k + 1, width);
      PixelOffset(k, bytes);
      Copy(fb, lineStart + ImageStart(1, bytes, k), color);
      k := k + 1;
    }
  }

  lemma LineOffset(screenWidth: nat, bytes: nat, x: nat, y: nat, i: nat)
    ensures LineStart(screenWidth, bytes, x, y + i)
            == LineStart(screenWidth, bytes, x, y) + RowStart(i, screenWidth * bytes)
  {
    ScreenOffset(screenWidth, bytes, x, y, i);
  }

  lemma PixelOffset(k: nat, bytes: nat)
    ensures ImageStart(1, bytes, k) == RowStart(k, bytes)
  {
    RowStartIsProduct(k, bytes);
  }

  lemma FilledRowStep(fb: seq<Byte>, line: nat, bytes: nat, color: seq<Byte>, k: nat, width: nat)
    requires |color| == 2 && StoresFit(|fb|, line, bytes, width) && k <= width
    ensures StoresFit(|fb|, line, bytes, k)
    ensures if k == 0 then FilledRow(fb, line, bytes, color, k) == fb
            else line + RowStart(k - 1, bytes) + 2 <= |fb| && StoresFit(|fb|, line, bytes, k - 1)
                 && FilledRow(fb, line, bytes, color, k)
                    == Write(FilledRow(fb, line, bytes, color, k - 1), line + RowStart(k - 1, bytes), color)
  {
    if 0 < k < width { RowsApart(k - 1, width - 1, bytes); }
  }

  lemma FilledStep(fb: seq<Byte>, base: nat, stride: nat, bytes: nat, color: seq<Byte>, width: nat, n: nat, height: nat)
    requires |color| == 2 && FillFits(|fb|, base, stride, bytes, width, height) && n <= height
    ensures FillFits(|fb|, base, stride, bytes, width, n)
    ensures if n == 0 then Filled(fb, base, stride, bytes, color, width, n) == fb
            else StoresFit(|fb|, base + RowStart(n - 1, stride), bytes, width)
                 && FillFits(|fb|, base, stride, bytes, width, n - 1)
                 && Filled(fb, base, stride, bytes, color, width, n)
                    == FilledRow(Filled(fb, base, stride, bytes, color, width, n - 1), base + RowStart(n - 1, stride),
                                 bytes, color, width)
  {
    if 0 < n < height { RowsApart(n - 1, height - 1, stride); }
  }

  /** A byte that no store of the rectangle touches. */
  predicate Untouched(base: nat, stride: nat, bytes: nat, width: nat, n: nat, p: nat) {
    forall i, k :: 0 <= i < n && 0 <= k < width ==>
      !(base + RowStart(i, stride) + RowStart(k, bytes) <= p < base + RowStart(i, stride) + RowStart(k, bytes) + 2)
  }

  /** Filling changes nothing else. */
  lemma {:induction false} FilledElsewhere(fb: seq<Byte>, base: nat, stride: nat, bytes: nat, color: seq<Byte>,
                                           width: nat, n: nat, p: nat)
    requires |color| == 2 && FillFits(|fb|, base, stride, bytes, width, n) && p < |fb|
    requires Untouched(base, stride, bytes, width, n, p)
    ensures Filled(fb, base, stride, bytes, color, width, n)[p] == fb[p]
    decreases n
  {
    if n > 0 {
      FilledStep(fb, base, stride, bytes, color, width, n, n);
      FilledStep(fb, base, stride, bytes, color, width, n - 1, n);
      hide Filled, FilledRow, FillFits, StoresFit, RowStart;
      FilledElsewhere(fb, base, stride, bytes, color, width, n - 1, p);
      FilledRowElsewhere(Filled(fb, base, stride, bytes, color, width, n - 1), base + RowStart(n - 1, stride), bytes,
                         color, width, p);
    }
  }

  lemma {:induction false} FilledRowElsewhere(fb: seq<Byte>, line: nat, bytes: nat, color: seq<Byte>, k: nat, p: nat)
    requires |color| == 2 && StoresFit(|fb|, line, bytes, k) && p < |fb|
    requires forall j :: 0 <= j < k ==> !(line + RowStart(j, bytes) <= p < line + RowStart(j, bytes) + 2)
    ensures FilledRow(fb, line, bytes, color, k)[p] == fb[p]
    decreases k
  {
    if k > 0 {
      FilledRowStep(fb, line, bytes, color, k, k);
      hide FilledRow, StoresFit, RowStart, Write;
      FilledRowElsewhere(fb, line, bytes, color, k - 1, p);
      WriteElsewhere(FilledRow(fb, line, bytes, color, k - 1), line + RowStart(k - 1, bytes), color, p);
    }
  }

  /** With at least two bytes a pixel every pixel of the rectangle ends up with the colour. */
  lemma {:induction false} FilledPixel(fb: seq<Byte>, base: nat, stride: nat, bytes: nat, color: seq<Byte>, width: nat,
                                       n: nat, i: nat, k: nat)
    requires |color| == 2 && FillFits(|fb|, base, stride, bytes, width, n) && i < n && k < width
    requires bytes >= 2 && RowStart(width, bytes) <= stride
    ensures Slice(Filled(fb, base, stride, bytes, color, width, n), base + RowStart(i, stride) + RowStart(k, bytes), 2)
            == color
    decreases n
  {
    hide *;
    FilledStep(fb, base, stride, bytes, color, width, n, n);
    var before, line := Filled(fb, base, stride, bytes, color, width, n - 1), base + RowStart(n - 1, stride);
    var at := base + RowStart(i, stride) + RowStart(k, bytes);
    RowsApart(k, width, bytes);
    if i < n - 1 {
      FilledPixel(fb, base, stride, bytes, color, width, n - 1, i, k);
      RowsApart(i, n - 1, stride);
      RowKeeps(before, line, bytes, color, width, at);
    } else {
      RowPixel(before, line, bytes, color, width, k);
    }
  }

  /** In screen coordinates: pixel (x + k, y + i) of the rectangle starts with the two bytes of the colour. */
  lemma FilledAt(fb: seq<Byte>, screenWidth: nat, bytes: nat, color: seq<Byte>, width: nat, height: nat,
                 x: nat, y: nat, i: nat, k: nat)
    requires |color| == 2 && bytes >= 2 && x + width <= screenWidth && i < height && k < width
    requires FillFits(|fb|, LineStart(screenWidth, bytes, x, y), screenWidth * bytes, bytes, width, height)
    ensures Slice(Filled(fb, LineStart(screenWidth, bytes, x, y), screenWidth * bytes, bytes, color, width, height),
                  PixelAt(screenWidth, bytes, x + k, y + i), 2)
            == color
  {
    hide Filled, FillFits, Slice, RowStart;
    RowStartIsProduct(width, bytes);
    RowStartIsProduct(k, bytes);
    MulLe(width, screenWidth, bytes);
    FilledPixel(fb, LineStart(screenWidth, bytes, x, y), screenWidth * bytes, bytes, color, width, height, i, k);
    LineOffset(screenWidth, bytes, x, y, i);
    LinePlus(screenWidth, bytes, x, y + i, k);
    PixelAtIs(screenWidth, bytes, x, y + i, k);
  }

  /** A row's stores leave what lies before it. */
  lemma {:induction false} RowKeeps(fb: seq<Byte>, line: nat, bytes: nat, color: seq<Byte>, k: nat, at: nat)
    requires |color| == 2 && StoresFit(|fb|, line, bytes, k) && at + 2 <= line
    ensures Slice(FilledRow(fb, line, bytes, color, k), at, 2) == Slice(fb, at, 2)
    decreases k
  {
    if k > 0 {
      FilledRowStep(fb, line, bytes, color, k, k);
      hide FilledRow, StoresFit, RowStart, Write, Slice;
      RowKeeps(fb, line, bytes, color, k - 1, at);
      WriteSlice(FilledRow(fb, line, bytes, color, k - 1), line + RowStart(k - 1, bytes), color, at);
    }
  }

  lemma {:induction false} RowPixel(fb: seq<Byte>, line: nat, bytes: nat, color: seq<Byte>, width: nat, k: nat)
    requires |color| == 2 && StoresFit(|fb|, line, bytes, width) && k < width && bytes >= 2
    ensures Slice(FilledRow(fb, line, bytes, color, width), line + RowStart(k, bytes), 2) == color
    decreases width
  {
    FilledRowStep(fb, line, bytes, color, width, width);
    var at := line + RowStart(width - 1, bytes);
    if k < width - 1 { RowsApart(k, width - 1, bytes); }
    hide FilledRow, StoresFit, RowStart, Write, Slice;
    var before := FilledRow(fb, line, bytes, color, width - 1);
    if k < width - 1 {
      RowPixel(fb, line, bytes, color, width - 1, k);
      WriteSlice(before, at, color, line + RowStart(k, bytes));
    } else {
      WriteSlice(before, at, color, 0);
    }
  }

  /** On the screen, the stores stay inside the frame buffer exactly when a pixel has at least two bytes or
      the rectangle does not reach the last pixel of the screen. */
  lemma FillFitsIff(screenW: nat, screenH: nat, bytes: nat, w: nat, h: nat, x: nat, y: nat)
    requires bytes >= 1 && x + w <= screenW && y + h <= screenH
    ensures FillFits(screenW * screenH * bytes, LineStart(screenW, bytes, x, y), screenW * bytes, bytes, w, h)
            <==> bytes >= 2 || w == 0 || h == 0 || x + w < screenW || y + h < screenH
  {
    if w > 0 && h > 0 {
      LineOffset(screenW, bytes, x, y, h - 1);
      RowStartIsProduct(w - 1, bytes);
      LastStore(screenW, screenH, bytes, w, h, x, y);
      hide RowStart, LineStart;
    }
  }

  /** Where the last store begins, in pixels. */
  lemma LastStore(screenW: nat, screenH: nat, bytes: nat, w: nat, h: nat, x: nat, y: nat)
    requires bytes >= 1 && x + w <= screenW && y + h <= screenH && w > 0 && h > 0
    ensures LineStart(screenW, bytes, x, y + (h - 1)) + (w - 1) * bytes + 2 <= screenW * screenH * bytes
            <==> bytes >= 2 || x + w < screenW || y + h < screenH
  {
    hide LineStart;
    var pixel := (y + (h - 1)) * screenW + x + (w - 1);
    LastPixel(screenW, screenH, w, h, x, y);
    LinePlus(screenW, bytes, x, y + (h - 1), w - 1);
    EndOfPixel(pixel, screenW * screenH, bytes);
  }

  lemma LinePlus(screenW: nat, bytes: nat, x: nat, row: nat, k: nat)
    ensures LineStart(screenW, bytes, x, row) + k * bytes == (row * screenW + x + k) * bytes
  {
    Distrib(row * screenW + x, k, bytes);
  }

  lemma LastPixel(screenW: nat, screenH: nat, w: nat, h: nat, x: nat, y: nat)
    requires x + w <= screenW && y + h <= screenH && w > 0 && h > 0
    ensures var pixel := (y + (h - 1)) * screenW + x + (w - 1);
            pixel < screenW * screenH && (pixel + 1 < screenW * screenH <==> x + w < screenW || y + h < screenH)
  {
    var above := (y + (h - 1)) * screenW;
    Distrib(y + (h - 1), 1, screenW);
    assert (y + (h - 1) + 1) * screenW == above + screenW;
    if y + h < screenH {
      MulLe(y + h + 1, screenH, screenW);
      Distrib(y + h, 1, screenW);
    }
    assert screenW * screenH == screenH * screenW;
  }

  lemma EndOfPixel(pixel: nat, pixels: nat, bytes: nat)
    requires bytes >= 1 && pixel < pixels
    ensures pixel * bytes + 2 <= pixels * bytes <==> bytes >= 2 || pixel + 1 < pixels
  {
    MulLe(pixel + 1, pixels, bytes);
    Distrib(pixel, 1, bytes);
    if pixel + 1 < pixels {
      MulLe(pixel + 2, pixels, bytes);
      Distrib(pixel, 2, bytes);
    }
  }

  /** A byte of the rectangle's rows. */
  predicate InRect(base: nat, stride: nat, len: nat, n: nat, p: nat) {
    exists i :: 0 <= i < n && base + RowStart(i, stride) <= p < base + RowStart(i, stride) + len
  }

  /** Filling changes no byte outside the rectangle, whatever the buffer holds. */
  ghost predicate FillsInside(size: nat, base: nat, stride: nat, bytes: nat, width: nat, n: nat)
    requires FillFits(size, base, stride, bytes, width, n)
  {
    forall fb: seq<Byte>, color: seq<Byte>, p: nat ::
      |fb| == size && |color| == 2 && p < size && !InRect(base, stride, RowStart(width, bytes), n, p) ==>
        Filled(fb, base, stride, bytes, color, width, n)[p] == fb[p]
  }

  /** That takes two bytes a pixel: with one, the last store of a row spills into the next pixel. */
  lemma FillsInsideIff(size: nat, base: nat, stride: nat, bytes: nat, width: nat, n: nat)
    requires bytes >= 1 && FillFits(size, base, stride, bytes, width, n) && RowStart(width, bytes) <= stride
    ensures FillsInside(size, base, stride, bytes, width, n) <==> bytes >= 2 || width == 0 || n == 0
  {
    if bytes >= 2 || width == 0 || n == 0 {
      hide Filled, RowStart, FillFits, InRect, Untouched;
      forall fb: seq<Byte>, color: seq<Byte>, p: nat
        | |fb| == size && |color| == 2 && p < size && !InRect(base, stride, RowStart(width, bytes), n, p)
        ensures Filled(fb, base, stride, bytes, color, width, n)[p] == fb[p]
      {
        OutsideIsUntouched(base, stride, bytes, width, n, p);
        FilledElsewhere(fb, base, stride, bytes, color, width, n, p);
      }
    } else {
      hide Filled, RowStart, FillFits, InRect, Untouched;
      var fb, color: seq<Byte>, p := seq(size, _ => 0), [0, 1], base + RowStart(n - 1, stride) + width;
      Spill(fb, base, stride, color, width, n);
      AfterLastRow(base, stride, width, n);
    }
  }

  lemma OutsideIsUntouched(base: nat, stride: nat, bytes: nat, width: nat, n: nat, p: nat)
    requires !InRect(base, stride, RowStart(width, bytes), n, p) && (bytes >= 2 || width == 0 || n == 0)
    ensures Untouched(base, stride, bytes, width, n, p)
  {
    hide RowStart;
    forall i, k | 0 <= i < n && 0 <= k < width
      ensures !(base + RowStart(i, stride) + RowStart(k, bytes) <= p
                < base + RowStart(i, stride) + RowStart(k, bytes) + 2)
    {
      RowsApart(k, width, bytes);
    }
  }

  lemma AfterLastRow(base: nat, stride: nat, width: nat, n: nat)
    requires n > 0 && RowStart(width, 1) <= stride
    ensures !InRect(base, stride, RowStart(width, 1), n, base + RowStart(n - 1, stride) + width)
  {
    hide RowStart;
    RowStartIsProduct(width, 1);
    forall i | 0 <= i < n - 1 ensures RowStart(i, stride) + stride <= RowStart(n - 1, stride) {
      RowsApart(i, n - 1, stride);
    }
  }

  lemma Spill(fb: seq<Byte>, base: nat, stride: nat, color: seq<Byte>, width: nat, n: nat)
    requires |color| == 2 && FillFits(|fb|, base, stride, 1, width, n) && width > 0 && n > 0
    ensures base + RowStart(n - 1, stride) + width < |fb|
    ensures Filled(fb, base, stride, 1, color, width, n)[base + RowStart(n - 1, stride) + width] == color[1]
  {
    hide *;
    var line := base + RowStart(n - 1, stride);
    FilledStep(fb, base, stride, 1, color, width, n, n);
    SpillRow(Filled(fb, base, stride, 1, color, width, n - 1), line, color, width);
  }

  lemma SpillRow(fb: seq<Byte>, line: nat, color: seq<Byte>, width: nat)
    requires |color| == 2 && StoresFit(|fb|, line, 1, width) && width > 0
    ensures line + width < |fb| && FilledRow(fb, line, 1, color, width)[line + width] == color[1]
  {
    hide FilledRow, RowStart, StoresFit;
    RowStartIsProduct(width - 1, 1);
    FilledRowStep(fb, line, 1, color, width, width);
  }
}
