/** Reading a bitmap: what `read_bmp` makes of a file, and what the bitmap format means by it. */
module BitmapFile {
  import opened Rows

  // --- Reading a bitmap ---

  /** The code's idea of a padded row: the width in pixels, rounded up to a multiple of four. */
  function PaddedRow(width: nat, bytes: nat): nat {
    4 * ((width + 3) / 4) * bytes
  }

  /** The bitmap format's padded row: the width in bytes, rounded up to a multiple of four. */
  function FormatRow(width: nat, bytes: nat): nat {
    4 * ((width * bytes + 3) / 4)
  }

  /** They are the least multiples: of four pixels that hold the width, and of four bytes that hold the pixels. */
  lemma RowsAre(width: nat, bytes: nat)
    ensures exists pixels: nat ::
              pixels % 4 == 0 && width <= pixels < width + 4 && PaddedRow(width, bytes) == pixels * bytes
    ensures FormatRow(width, bytes) % 4 == 0 && width * bytes <= FormatRow(width, bytes) < width * bytes + 4
  {
    var pixels := 4 * ((width + 3) / 4);
    assert pixels % 4 == 0 && width <= pixels < width + 4 && PaddedRow(width, bytes) == pixels * bytes;
  }

  /** The two agree exactly for whole groups of four pixels, for one-byte pixels, and, below four bytes a
      pixel, when one pixel is missing. */
  lemma PaddingIff(width: nat, bytes: nat)
    requires 1 <= bytes <= 4
    ensures PaddedRow(width, bytes) == FormatRow(width, bytes)
            <==> bytes == 1 || width % 4 == 0 || (width % 4 == 3 && bytes < 4)
  {
    hide PaddedRow, FormatRow;
    PaddingOf1(width);
    PaddingOf2(width);
    PaddingOf3(width);
    PaddingOf4(width);
  }

  /** The number of quarters in 4 * a + r + 3, for a small remainder. */
  lemma Quarters(a: nat, r: nat)
    requires r <= 12
    ensures (4 * a + r + 3) / 4 == a + (if r == 0 then 0 else if r <= 4 then 1 else if r <= 8 then 2 else 3)
  {
  }

  lemma PaddingOf1(width: nat)
    ensures PaddedRow(width, 1) == FormatRow(width, 1)
  {
  }

  lemma PaddingOf2(width: nat)
    ensures PaddedRow(width, 2) == FormatRow(width, 2) <==> width % 4 == 0 || width % 4 == 3
  {
    var q, r := width / 4, width % 4;
    Quarters(q, r);
    Quarters(2 * q, 2 * r);
    assert width + 3 == 4 * q + r + 3 && width * 2 + 3 == 4 * (2 * q) + 2 * r + 3;
  }

  lemma PaddingOf3(width: nat)
    ensures PaddedRow(width, 3) == FormatRow(width, 3) <==> width % 4 == 0 || width % 4 == 3
  {
    var q, r := width / 4, width % 4;
    Quarters(q, r);
    Quarters(3 * q, 3 * r);
    assert width + 3 == 4 * q + r + 3 && width * 3 + 3 == 4 * (3 * q) + 3 * r + 3;
  }

  lemma PaddingOf4(width: nat)
    ensures PaddedRow(width, 4) == FormatRow(width, 4) <==> width % 4 == 0
  {
    var q, r := width / 4, width % 4;
    Quarters(q, r);
    Quarters(width, 0);
    assert width + 3 == 4 * q + r + 3 && width * 4 + 3 == 4 * width + 0 + 3;
  }

  /** A format row holds a row of pixels. */
  lemma FormatRowHolds(width: nat, bytes: nat)
    ensures width * bytes <= FormatRow(width, bytes)
  {
  }

  /** What `fread` at `pos` makes of memory that held `was`: a file that ends early leaves the rest. */
  function Fread(file: seq<Byte>, pos: nat, was: seq<Byte>): (r: seq<Byte>)
    ensures |r| == |was|
  {
    if pos + |was| <= |file| then file[pos..pos + |was|]
    else if pos <= |file| then file[pos..] + was[|file| - pos..]
    else was
  }

  /** `height` rows of `len` bytes in a file, `padded` apart, from `offset` on. */
  datatype Bitmap = Bitmap(file: seq<Byte>, offset: nat, padded: nat, len: nat, height: nat) {
    function Start(i: nat): nat {
      offset + RowStart(i, padded)
    }

    /** The first `n` file rows, stacked upwards into memory that held `was`. */
    function Stacked(n: nat, was: seq<Byte>): (r: seq<Byte>)
      requires |was| == RowStart(n, len)
      ensures |r| == |was|
    {
      if n == 0 then []
      else Fread(file, Start(n - 1), was[..len]) + Stacked(n - 1, was[len..])
    }
  }

  /** The bitmap as the code reads it; a pixel size other than the screen's gives an empty one. */
  function FromHeader(file: seq<Byte>, offset: nat, width: nat, height: nat, bytes: nat, screenBytes: nat): Bitmap {
    if bytes != screenBytes then Bitmap(file, offset, 0, 0, 0)
    else Bitmap(file, offset, PaddedRow(width, bytes), width * bytes, height)
  }

  /** Row `k` of the stacked image is what was read of the file's row `k` from the end. */
  lemma {:induction false} StackedRow(b: Bitmap, n: nat, k: nat, was: seq<Byte>)
    requires k < n && |was| == RowStart(n, b.len)
    ensures RowStart(k, b.len) + b.len <= |was|
    ensures Slice(b.Stacked(n, was), RowStart(k, b.len), b.len)
            == Fread(b.file, b.Start(n - 1 - k), Slice(was, RowStart(k, b.len), b.len))
    decreases n
  {
    hide Fread, Bitmap.Start, Bitmap.Stacked, RowStart, Slice;
    RowsApart(k, n, b.len);
    RowStartStep(n, b.len);
    StackedStep(b, n, was);
    var top, rest := Fread(b.file, b.Start(n - 1), was[..b.len]), b.Stacked(n - 1, was[b.len..]);
    if k > 0 {
      StackedRow(b, n - 1, k - 1, was[b.len..]);
      RowStartStep(k, b.len);
      SliceAfter(top, rest, RowStart(k - 1, b.len), b.len);
      SliceAfter(was[..b.len], was[b.len..], RowStart(k - 1, b.len), b.len);
    } else {
      RowStartStep(0, b.len);
      SliceBefore(top, rest);
      SliceBefore(was[..b.len], was[b.len..]);
    }
    assert was[..b.len] + was[b.len..] == was;
  }

  lemma StackedStep(b: Bitmap, n: nat, was: seq<Byte>)
    requires 0 < n && |was| == RowStart(n, b.len)
    ensures b.len <= |was| && |was[b.len..]| == RowStart(n - 1, b.len)
    ensures b.Stacked(n, was) == Fread(b.file, b.Start(n - 1), was[..b.len]) + b.Stacked(n - 1, was[b.len..])
  {
  }

  /** `read_bmp`, given the file and the fields of its header: file rows go into the image from its last
      row up. `was` is what the allocated memory happened to hold. */
  method ReadBmp(file: seq<Byte>, offset: nat, width: nat, height: nat, bytes: nat, screenBytes: nat)
    returns (pixels: array<Byte>, w: nat, h: nat, ghost was: seq<Byte>)
    ensures fresh(pixels)
    ensures (w, h) == if bytes == screenBytes then (width, height) else (0, 0)
    ensures pixels.Length == h * w * bytes
    ensures var b := FromHeader(file, offset, width, height, bytes, screenBytes);
            |was| == RowStart(b.height, b.len) && pixels[..] == b.Stacked(b.height, was)
  {
    ghost var b := FromHeader(file, offset, width, height, bytes, screenBytes);
    if bytes != screenBytes {
      pixels, w, h := new Byte[0], 0, 0;
      was := [];
      return;
    }
    w, h := width, height;
    var len := width * bytes;
    RowStartIsProduct(height, len);
    Assoc(height, width, bytes);
    pixels := new Byte[height * len];
    was := pixels[..];
    ReadRows(pixels, Bitmap(file, offset, PaddedRow(width, bytes), len, height));
  }

  /** The loop of `read_bmp`. */
  method ReadRows(pixels: array<Byte>, b: Bitmap)
    requires pixels.Length == RowStart(b.height, b.len)
    modifies pixels
    ensures pixels[..] == b.Stacked(b.height, old(pixels[..]))
  {
    hide *;
    ghost var was := pixels[..];
    var i := 0;
    var current: nat := pixels.Length;
    RowStartStep(0, b.len);
    while i < b.height
      invariant i <= b.height && current + RowStart(i, b.len) == |was| == pixels.Length
      invariant pixels[..current] == was[..current]
      invariant pixels[current..] == b.Stacked(i, was[current..])
    {
      ghost var before := pixels[..];
      RowsApart(i, b.height, b.len);
      RowStartStep(i + 1, b.len);
      SeekIsStart(b, i);
      current := current - b.len;
      FreadInto(pixels, current, b.len, b.file, Seek(b.offset, i, b.padded));
      WriteParts(before, current, b.len, Fread(b.file, b.Start(i), was[current..current + b.len]), was);
      StackedOn(b, i, was, current);
      i := i + 1;
    }
    assert current == 0 && was[0..] == was && pixels[0..] == pixels[..];
  }

  /** Where the code seeks to for row `i`. */
  function Seek(offset: nat, i: nat, padded: nat): nat {
    offset + i * padded
  }

  lemma SeekIsStart(b: Bitmap, i: nat)
    ensures b.Start(i) == Seek(b.offset, i, b.padded)
  {
    RowStartIsProduct(i, b.padded);
  }

  lemma StackedOn(b: Bitmap, i: nat, was: seq<Byte>, at: nat)
    requires at + b.len <= |was| && |was| == at + RowStart(i + 1, b.len)
    ensures |was[at + b.len..]| == RowStart(i, b.len)
    ensures b.Stacked(i + 1, was[at..])
            == Fread(b.file, b.Start(i), was[at..at + b.len]) + b.Stacked(i, was[at + b.len..])
  {
    hide Bitmap.Stacked, Fread, RowStart, Bitmap.Start;
    StackedStep(b, i + 1, was[at..]);
    assert was[at..][..b.len] == was[at..at + b.len] && was[at..][b.len..] == was[at + b.len..];
  }

  /** fseek and fread. */
  method FreadInto(dst: array<Byte>, at: nat, len: nat, file: seq<Byte>, pos: nat)
    requires at + len <= dst.Length
    modifies dst
    ensures dst[..] == Write(old(dst[..]), at, Fread(file, pos, old(dst[at..at + len])))
  {
    ghost var d := dst[..];
    assert d[at..at + len] == dst[at..at + len];
    var part := if pos >= |file| then [] else if pos + len <= |file| then file[pos..pos + len] else file[pos..];
    WriteFread(d, at, len, file, pos, part);
    hide *;
    Copy(dst, at, part);
  }

  lemma WriteFread(d: seq<Byte>, at: nat, len: nat, file: seq<Byte>, pos: nat, part: seq<Byte>)
    requires at + len <= |d|
    requires part == if pos >= |file| then [] else if pos + len <= |file| then file[pos..pos + len] else file[pos..]
    ensures |part| <= len && Write(d, at, part) == Write(d, at, Fread(file, pos, d[at..at + len]))
  {
    var was := d[at..at + len];
    assert Fread(file, pos, was) == part + was[|part|..];
    hide Fread;
    assert was[|part|..] + d[at + len..] == d[at + |part|..];
  }

  // --- What the format means ---

  /** The file holds all the padded rows of the format. */
  predicate FormatComplete(file: seq<Byte>, offset: nat, width: nat, height: nat, bytes: nat) {
    offset + RowStart(height, FormatRow(width, bytes)) <= |file|
  }

  /** Row `i` of the picture in the file, as the format has it. */
  function FormatPixels(file: seq<Byte>, offset: nat, width: nat, bytes: nat, i: nat): seq<Byte> {
    Slice(file, offset + RowStart(i, FormatRow(width, bytes)), width * bytes)
  }

  /** The image holds the picture, its rows from last to first. */
  predicate Shows(image: seq<Byte>, file: seq<Byte>, offset: nat, width: nat, height: nat, bytes: nat) {
    forall k :: 0 <= k < height ==>
      Slice(image, RowStart(k, width * bytes), width * bytes)
      == FormatPixels(file, offset, width, bytes, height - 1 - k)
  }

  /** The image read from this file into this memory. */
  function ImageOf(file: seq<Byte>, offset: nat, width: nat, height: nat, bytes: nat, was: seq<Byte>): seq<Byte>
    requires |was| == RowStart(height, width * bytes)
  {
    FromHeader(file, offset, width, height, bytes, bytes).Stacked(height, was)
  }

  /** Every complete file of this shape is read right, whatever memory held. */
  ghost predicate ReadsRight(offset: nat, width: nat, height: nat, bytes: nat) {
    forall file: seq<Byte>, was: seq<Byte> ::
      FormatComplete(file, offset, width, height, bytes) && |was| == RowStart(height, width * bytes) ==>
        Shows(ImageOf(file, offset, width, height, bytes, was), file, offset, width, height, bytes)
  }

  /** The rows the code looks for are where the format has them, as far as there are any. */
  predicate SameRows(width: nat, height: nat, bytes: nat) {
    PaddedRow(width, bytes) == FormatRow(width, bytes) || height <= 1 || width == 0
  }

  /** `read_bmp` reads every complete file right exactly when the two row lengths agree, there is at most
      one row, or no pixel in a row. */
  lemma ReadsRightIff(offset: nat, width: nat, height: nat, bytes: nat)
    requires bytes >= 1
    ensures ReadsRight(offset, width, height, bytes) <==> SameRows(width, height, bytes)
  {
    hide SameRows, Shows, ImageOf, FormatComplete;
    if SameRows(width, height, bytes) {
      forall file: seq<Byte>, was: seq<Byte>
        | FormatComplete(file, offset, width, height, bytes) && |was| == RowStart(height, width * bytes)
        ensures Shows(ImageOf(file, offset, width, height, bytes, was), file, offset, width, height, bytes)
      {
        ReadRight(file, offset, width, height, bytes, was);
      }
    } else {
      var file, was := Misread(offset, width, height, bytes);
    }
  }

  lemma ReadRight(file: seq<Byte>, offset: nat, width: nat, height: nat, bytes: nat, was: seq<Byte>)
    requires SameRows(width, height, bytes) && FormatComplete(file, offset, width, height, bytes)
    requires |was| == RowStart(height, width * bytes)
    ensures Shows(ImageOf(file, offset, width, height, bytes, was), file, offset, width, height, bytes)
  {
    var len := width * bytes;
    hide ImageOf, FormatComplete, FormatPixels, SameRows;
    forall k | 0 <= k < height
      ensures Slice(ImageOf(file, offset, width, height, bytes, was), RowStart(k, len), len)
              == FormatPixels(file, offset, width, bytes, height - 1 - k)
    {
      RowRight(file, offset, width, height, bytes, was, k);
    }
  }

  lemma RowRight(file: seq<Byte>, offset: nat, width: nat, height: nat, bytes: nat, was: seq<Byte>, k: nat)
    requires SameRows(width, height, bytes) && FormatComplete(file, offset, width, height, bytes)
    requires |was| == RowStart(height, width * bytes) && k < height
    ensures Slice(ImageOf(file, offset, width, height, bytes, was), RowStart(k, width * bytes), width * bytes)
            == FormatPixels(file, offset, width, bytes, height - 1 - k)
  {
    FormatRowHolds(width, bytes);
    var b := FromHeader(file, offset, width, height, bytes, bytes);
    hide RowStart, PaddedRow, FormatRow, Bitmap.Stacked, Slice;
    RowAt(b, FormatRow(width, bytes), k, was);
  }

  lemma RowAt(b: Bitmap, row: nat, k: nat, was: seq<Byte>)
    requires k < b.height && |was| == RowStart(b.height, b.len)
    requires b.offset + RowStart(b.height, row) <= |b.file| && b.len <= row
    requires b.padded == row || b.height <= 1 || b.len == 0
    ensures Slice(b.Stacked(b.height, was), RowStart(k, b.len), b.len)
            == Slice(b.file, b.offset + RowStart(b.height - 1 - k, row), b.len)
  {
    var i := b.height - 1 - k;
    hide RowStart, Bitmap.Stacked, Bitmap.Start, Fread, Slice;
    RowsApart(i, b.height, row);
    StackedRow(b, b.height, k, was);
    if b.len == 0 {
      assert |Slice(was, RowStart(k, 0), 0)| == 0;
    } else {
      StartIs(b, row, i);
      FreadWhole(b.file, b.Start(i), Slice(was, RowStart(k, b.len), b.len));
    }
  }

  lemma StartIs(b: Bitmap, row: nat, i: nat)
    requires b.padded == row || i == 0
    ensures b.Start(i) == b.offset + RowStart(i, row)
  {
    RowStartStep(0, row);
    RowStartStep(0, b.padded);
  }

  lemma FreadWhole(file: seq<Byte>, pos: nat, was: seq<Byte>)
    requires pos + |was| <= |file|
    ensures Fread(file, pos, was) == Slice(file, pos, |was|)
  {
  }

  /** A complete file that is not: one byte in its second row, which the code looks for further on. */
  lemma Misread(offset: nat, width: nat, height: nat, bytes: nat) returns (file: seq<Byte>, was: seq<Byte>)
    requires bytes >= 1 && !SameRows(width, height, bytes)
    ensures FormatComplete(file, offset, width, height, bytes) && |was| == RowStart(height, width * bytes)
    ensures !Shows(ImageOf(file, offset, width, height, bytes, was), file, offset, width, height, bytes)
  {
    hide RowStart, FormatRow, PaddedRow, Bitmap.Stacked, Shows, Slice;
    var len, row := width * bytes, FormatRow(width, bytes);
    AtLeast(width, bytes);
    FormatRowHolds(width, bytes);
    file := Marked(offset + RowStart(height, row), offset + row);
    was := Marked(RowStart(height, len), RowStart(height, len));
    var b := FromHeader(file, offset, width, height, bytes, bytes);
    MarkMissed(b, row, was);
    NotShown(b.Stacked(height, was), file, offset, width, height, bytes);
  }

  /** All zero but for one byte, if that is inside. */
  function Marked(size: nat, at: nat): (r: seq<Byte>)
    ensures |r| == size && forall j :: 0 <= j < size ==> r[j] == if j == at then 1 else 0
  {
    seq(size, j requires 0 <= j => if j == at then 1 else 0)
  }

  lemma MarkMissed(b: Bitmap, row: nat, was: seq<Byte>)
    requires b.height >= 2 && 0 < b.len <= row && b.padded != row
    requires b.file == Marked(b.offset + RowStart(b.height, row), b.offset + row)
    requires was == Marked(RowStart(b.height, b.len), RowStart(b.height, b.len))
    ensures Slice(b.Stacked(b.height, was), RowStart(b.height - 2, b.len), b.len)
            != Slice(b.file, b.offset + RowStart(1, row), b.len)
  {
    hide RowStart, Bitmap.Stacked, Fread, Marked;
    RowsApart(1, b.height, row);
    OneStart(row);
    OneStart(b.padded);
    StackedRow(b, b.height, b.height - 2, was);
    assert b.Start(1) == b.offset + b.padded;
    var at := RowStart(b.height - 2, b.len);
    ZeroRead(b.file, b.offset + b.padded, Slice(was, at, b.len), b.offset + row);
    assert Slice(b.file, b.offset + row, b.len)[0] == 1;
  }

  /** Reading from another place than the only set byte. */
  lemma ZeroRead(file: seq<Byte>, pos: nat, was: seq<Byte>, marked: nat)
    requires forall j :: 0 <= j < |file| && j != marked ==> file[j] == 0
    requires forall j :: 0 <= j < |was| ==> was[j] == 0
    requires pos != marked && |was| > 0
    ensures Fread(file, pos, was)[0] == 0
  {
  }

  lemma NotShown(image: seq<Byte>, file: seq<Byte>, offset: nat, width: nat, height: nat, bytes: nat)
    requires height >= 2
    requires Slice(image, RowStart(height - 2, width * bytes), width * bytes)
             != FormatPixels(file, offset, width, bytes, 1)
    ensures !Shows(image, file, offset, width, height, bytes)
  {
    assert height - 1 - (height - 2) == 1;
  }

  lemma OneStart(stride: nat)
    ensures RowStart(1, stride) == stride
  {
    assert RowStart(0, stride) == 0;
  }

  lemma AtLeast(width: nat, bytes: nat)
    requires width >= 1 && bytes >= 1
    ensures width * bytes >= 1
  {
  }

  /** The smallest such picture, one pixel wide and two high at two bytes a pixel: the image's first row is
      whatever memory held, and right only if that was so by chance. */
  lemma ShortFileShowsMemory(header: seq<Byte>, was: seq<Byte>)
    requires |was| == 4
    ensures var file := header + [1, 2, 0, 0, 3, 4, 0, 0];
            FormatComplete(file, |header|, 1, 2, 2) && RowStart(2, 1 * 2) == 4
            && ImageOf(file, |header|, 1, 2, 2, was) == was[..2] + [1, 2]
            && (Shows(ImageOf(file, |header|, 1, 2, 2, was), file, |header|, 1, 2, 2) <==> was[..2] == [3, 4])
  {
    hide RowStart, Slice, Fread, Bitmap.Stacked, FormatPixels, Shows;
    var n := |header|;
    var file := header + [1, 2, 0, 0, 3, 4, 0, 0];
    assert |file| == n + 8;
    ThreeStarts(2);
    ThreeStarts(4);
    var b := Bitmap(file, n, 8, 2, 2);
    assert FromHeader(file, n, 1, 2, 2, 2) == b;
    SliceOf(header, [1, 2, 0, 0, 3, 4, 0, 0], 0, 2);
    SliceOf(header, [1, 2, 0, 0, 3, 4, 0, 0], 4, 2);
    ShortStack(b, was);
    TwoRows(was[..2], file, n);
  }

  lemma SliceOf(a: seq<Byte>, s: seq<Byte>, at: nat, len: nat)
    requires at + len <= |s|
    ensures Slice(a + s, |a| + at, len) == s[at..at + len]
  {
    SliceAfter(a, s, at, len);
  }

  lemma ShortStack(b: Bitmap, was: seq<Byte>)
    requires |was| == 4 && |b.file| == b.offset + 8 && b.padded == 8 && b.len == 2
    requires Slice(b.file, b.offset, 2) == [1, 2]
    ensures RowStart(2, 2) == 4 && b.Stacked(2, was) == was[..2] + [1, 2]
  {
    ThreeStarts(2);
    ThreeStarts(8);
    hide RowStart, Bitmap.Stacked;
    StackedStep(b, 2, was);
    StackedStep(b, 1, was[2..]);
    assert b.Stacked(0, was[2..][2..]) == [];
    assert was[..2] + ([1, 2] + []) == was[..2] + [1, 2];
  }

  lemma TwoRows(upper: seq<Byte>, file: seq<Byte>, offset: nat)
    requires |upper| == 2 && Slice(file, offset, 2) == [1, 2] && Slice(file, offset + 4, 2) == [3, 4]
    ensures Shows(upper + [1, 2], file, offset, 1, 2, 2) <==> upper == [3, 4]
  {
    ThreeStarts(2);
    ThreeStarts(4);
    assert FormatRow(1, 2) == 4;
    hide RowStart, FormatRow;
    var image := upper + [1, 2];
    SliceBefore(upper, [1, 2]);
    SliceOf(upper, [1, 2], 0, 2);
    hide Slice;
    assert FormatPixels(file, offset, 1, 2, 1) == [3, 4] && FormatPixels(file, offset, 1, 2, 0) == [1, 2];
    hide FormatPixels;
    if upper == [3, 4] {
      forall k | 0 <= k < 2 ensures Slice(image, RowStart(k, 1 * 2), 1 * 2) == FormatPixels(file, offset, 1, 2, 1 - k) {
        assert k == 0 || k == 1;
      }
    } else {
      assert Slice(image, RowStart(0, 1 * 2), 1 * 2) != FormatPixels(file, offset, 1, 2, 1 - 0);
    }
  }

  lemma ThreeStarts(stride: nat)
    ensures RowStart(0, stride) == 0 && RowStart(1, stride) == stride && RowStart(2, stride) == 2 * stride
  {
    assert RowStart(1, stride) == stride;
  }
}
