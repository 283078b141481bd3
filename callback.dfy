/** The callback sample: the pixel-format tables it uses, and the preview callback
    that brightens the middle of every frame in place. */
module CallbackSample {
  import opened Sdk

  /** GetBytesPerPixel: whole bytes per pixel, 0 for formats the switch does not list
      (among them the 12-bit packed formats). */
  function GetBytesPerPixel(f: PixelFormat): (r: nat)
    ensures r != 0 ==> StorageBits(f) == Some(8 * r)
    ensures r == 0 <==> StorageBits(f).None? || StorageBits(f) == Some(12)
  {
    match f
    case Mono8 | Bayer8Grbg | Bayer8Rggb | Bayer8Gbrg | Bayer8Bggr => 1
    case Mono16 | Yuv422 | Bayer16Grbg | Bayer16Rggb | Bayer16Gbrg | Bayer16Bggr => 2
    case Rgb24 | Rgb24NonDib => 3
    case Rgb48 => 6
    case _ => 0
  }

  const UNKNOWN_FORMAT: string := "Unknown data format"

  /** GetPixelFormatAsString: the name of the constant for the listed formats. */
  function GetPixelFormatAsString(f: PixelFormat): (s: string)
    ensures s == UNKNOWN_FORMAT <==> StorageBits(f).None? || StorageBits(f) == Some(12)
    ensures s != UNKNOWN_FORMAT ==> |s| > 13 && s[..13] == "PIXEL_FORMAT_"
  {
    match f
    case Mono8 => "PIXEL_FORMAT_MONO8"
    case Mono16 => "PIXEL_FORMAT_MONO16"
    case Yuv422 => "PIXEL_FORMAT_YUV422"
    case Bayer8Grbg => "PIXEL_FORMAT_BAYER8_GRBG"
    case Bayer16Grbg => "PIXEL_FORMAT_BAYER16_GRBG"
    case Rgb24 => "PIXEL_FORMAT_RGB24"
    case Rgb48 => "PIXEL_FORMAT_RGB48"
    case Bayer8Rggb => "PIXEL_FORMAT_BAYER8_RGGB"
    case Bayer8Gbrg => "PIXEL_FORMAT_BAYER8_GBRG"
    case Bayer8Bggr => "PIXEL_FORMAT_BAYER8_BGGR"
    case Bayer16Rggb => "PIXEL_FORMAT_BAYER16_RGGB"
    case Bayer16Gbrg => "PIXEL_FORMAT_BAYER16_GBRG"
    case Bayer16Bggr => "PIXEL_FORMAT_BAYER16_BGGR"
    case Rgb24NonDib => "PIXEL_FORMAT_RGB24_NON_DIB"
    case _ => UNKNOWN_FORMAT
  }

  /** The two tables list the same formats: a format has a name exactly when it has a
      size in whole bytes. */
  lemma NamedExactlyWhenSized(f: PixelFormat)
    ensures GetPixelFormatAsString(f) != UNKNOWN_FORMAT <==> GetBytesPerPixel(f) != 0
  {
  }

  const SATURATED: U8 := 0xff

  /** `b + b/5` stored back into a byte, as the callback does it: the comparison that
      should catch the overflow is made after promotion to int, where it never holds,
      so a sum above 255 wraps. */
  function BrightenAsWritten(b: U8): (r: U8)
    ensures b + b / 5 <= 255 ==> r == b + b / 5
    ensures b + b / 5 > 255 ==> r == b + b / 5 - 256
  {
    var promoted: int := b;
    if promoted > promoted + promoted / 5 then SATURATED else (promoted + promoted / 5) % 256
  }

  /** The wrap shows: a byte of 250 becomes 44, darker than before. */
  lemma BrightenAsWrittenWraps()
    ensures BrightenAsWritten(250) == 44
    ensures forall b: U8 :: b >= 214 ==> BrightenAsWritten(b) < b
  {
  }

  /** `b + b/5`, fully saturated when it does not fit in a byte: what the comment
      beside the comparison describes. */
  function BrightenSaturating(b: U8): (r: U8)
    ensures b <= r
    ensures r == if b + b / 5 <= 255 then b + b / 5 else 255
  {
    if b + b / 5 > SATURATED then SATURATED else b + b / 5
  }

  /** The saturating brighten agrees with the as-written one exactly where no overflow
      happens, and never darkens a byte. */
  lemma SaturatingAgreesBelowOverflow(b: U8)
    ensures b + b / 5 <= 255 <==> BrightenSaturating(b) == BrightenAsWritten(b)
    ensures BrightenSaturating(b) >= BrightenAsWritten(b)
  {
  }

  /** Rows and columns two fifths to three fifths of the way across: the integer part
      of `(size / 5.0) * 2.0` and `(size / 5.0) * 3.0`. */
  function TwoFifths(size: nat): nat { size * 2 / 5 }
  function ThreeFifths(size: nat): nat { size * 3 / 5 }

  /** The region the callback brightens: rows `startRow` to `endRow` and columns
      `startCol` to `endCol` of a `width`-pixel-wide frame of `bpp`-byte pixels. */
  datatype Region = Region(bpp: nat, width: nat, startRow: nat, endRow: nat, startCol: nat, endCol: nat)

  predicate WellFormed(g: Region) {
    g.startRow <= g.endRow && g.startCol <= g.endCol <= g.width
  }

  /** The first and one-past-last byte of row `row`'s part of the region. */
  function SpanStart(g: Region, row: nat): nat { g.bpp * (row * g.width + g.startCol) }
  function SpanEnd(g: Region, row: nat): nat { g.bpp * (row * g.width + g.endCol) }

  /** Byte `idx` lies in the region part of one of the rows `from` to `to - 1`. */
  predicate InRows(g: Region, idx: nat, from: nat, to: nat)
    decreases to
  {
    from < to && (InRows(g, idx, from, to - 1) || SpanStart(g, to - 1) <= idx < SpanEnd(g, to - 1))
  }

  predicate InRegion(g: Region, idx: nat) {
    InRows(g, idx, g.startRow, g.endRow)
  }

  lemma MulMono(a: nat, b: nat, c: nat)
    requires b <= c
    ensures a * b <= a * c
  {
    assert a * c == a * b + a * (c - b);
  }

  lemma MulStep(a: nat, b: nat)
    ensures a * (b + 1) == a * b + a
  {
  }

  /** Row `r`'s span ends no later than a later row `row`'s span starts. */
  lemma RowsOrdered(width: nat, startCol: nat, endCol: nat, r: nat, row: nat)
    requires startCol <= endCol <= width && r < row
    ensures r * width + endCol <= row * width + startCol
  {
    MulStep(width, r);
    MulMono(width, r + 1, row);
    assert width * r == r * width && width * row == row * width;
  }

  /** Spans of earlier rows end before the span of row `row` starts. */
  lemma {:induction false} EarlierRowsComeFirst(g: Region, idx: nat, from: nat, row: nat)
    requires WellFormed(g) && InRows(g, idx, from, row)
    ensures idx < SpanStart(g, row)
    decreases row
  {
    var r := row - 1;
    RowsOrdered(g.width, g.startCol, g.endCol, r, row);
    MulMono(g.bpp, r * g.width + g.endCol, row * g.width + g.startCol);
    if InRows(g, idx, from, r) {
      EarlierRowsComeFirst(g, idx, from, r);
      MulMono(g.bpp, r * g.width + g.startCol, r * g.width + g.endCol);
    }
  }

  /** Every span of a row below `height` lies inside a `width` x `height` frame. */
  lemma SpanInFrame(g: Region, row: nat, height: nat)
    requires WellFormed(g) && row < height
    ensures SpanEnd(g, row) <= g.bpp * g.width * height
  {
    RowsOrdered(g.width, 0, g.endCol, row, height);
    MulMono(g.bpp, row * g.width + g.endCol, height * g.width);
    assert g.bpp * (height * g.width) == g.bpp * g.width * height;
  }

  /** Byte `idx` between `b * lo` and `b * hi` belongs to element `idx / b`, which
      lies between `lo` and `hi`. */
  lemma ElementOfByte(b: nat, lo: nat, hi: nat, idx: nat)
    requires b * lo <= idx < b * hi
    ensures b > 0 && lo <= idx / b < hi && idx == b * (idx / b) + idx % b
  {
    var e := idx / b;
    if e < lo {
      MulStep(b, e);
      MulMono(b, e + 1, lo);
    }
    if e >= hi {
      MulMono(b, hi, e);
    }
  }

  /** A byte of a row's span is byte `k` of the pixel in column `col` of that row, at
      offset `bpp * (row * width + col) + k`, with `col` between the region's columns. */
  lemma SpanByteIsPixelByte(g: Region, row: nat, idx: nat)
    requires WellFormed(g) && SpanStart(g, row) <= idx < SpanEnd(g, row)
    ensures g.bpp > 0
    ensures var col := idx / g.bpp - row * g.width;
            g.startCol <= col < g.endCol && idx == g.bpp * (row * g.width + col) + idx % g.bpp
  {
    ElementOfByte(g.bpp, row * g.width + g.startCol, row * g.width + g.endCol, idx);
  }

  /** The j and k loops of the brighten block for one row: from byte `bpp * (base +
      startCol)` on, `endCol - startCol` pixels of `bpp` bytes each are replaced by `op`
      of themselves; nothing else changes. */
  method BrightenSpan(data: array<U8>, bpp: nat, base: nat, startCol: nat, endCol: nat, op: U8 -> U8)
    requires startCol <= endCol && bpp * (base + endCol) <= data.Length
    modifies data
    ensures forall idx :: 0 <= idx < data.Length ==>
              data[idx] == if bpp * (base + startCol) <= idx < bpp * (base + endCol)
                           then op(old(data[idx])) else old(data[idx])
  {
    var pPixel := bpp * (base + startCol);
    var j := startCol;
    while j < endCol
      invariant startCol <= j <= endCol
      invariant pPixel == bpp * (base + j)
      invariant forall idx :: 0 <= idx < data.Length ==>
                  data[idx] == if bpp * (base + startCol) <= idx < pPixel then op(old(data[idx])) else old(data[idx])
    {
      MulStep(bpp, base + j);
      MulMono(bpp, base + j + 1, base + endCol);
      var k := 0;
      while k < bpp
        invariant 0 <= k <= bpp
        invariant forall idx :: 0 <= idx < data.Length ==>
                    data[idx] == if bpp * (base + startCol) <= idx < pPixel + k
                                 then op(old(data[idx])) else old(data[idx])
      {
        data[pPixel + k] := op(data[pPixel + k]);
        k := k + 1;
      }
      pPixel := pPixel + bpp;
      j := j + 1;
    }
  }

  /** The brighten block of CallbackFormatPreview, with the byte operation `op` as a
      parameter: every byte of every pixel in the region is replaced by `op` of itself,
      and no other byte changes. */
  method BrightenRegion(data: array<U8>, g: Region, height: nat, op: U8 -> U8)
    requires WellFormed(g) && g.endRow <= height && data.Length >= g.bpp * g.width * height
    modifies data
    ensures forall idx :: 0 <= idx < data.Length ==>
              data[idx] == if InRegion(g, idx) then op(old(data[idx])) else old(data[idx])
  {
    var i := g.startRow;
    while i < g.endRow
      invariant g.startRow <= i <= g.endRow
      invariant forall idx :: 0 <= idx < data.Length ==>
                  data[idx] == if InRows(g, idx, g.startRow, i) then op(old(data[idx])) else old(data[idx])
    {
      SpanInFrame(g, i, height);
      ghost var before := data[..];
      BrightenSpan(data, g.bpp, i * g.width, g.startCol, g.endCol, op);
      forall idx | 0 <= idx < data.Length
        ensures data[idx] == if InRows(g, idx, g.startRow, i + 1) then op(old(data[idx])) else old(data[idx])
      {
        if InRows(g, idx, g.startRow, i) {
          EarlierRowsComeFirst(g, idx, g.startRow, i);
        }
        assert before[idx] == if InRows(g, idx, g.startRow, i) then op(old(data[idx])) else old(data[idx]);
      }
      i := i + 1;
    }
  }

  /** CallbackFormatPreview: brightens the middle fifth of the frame, in both
      directions, by the as-written byte operation, and reports success. */
  method CallbackFormatPreview(data: array<U8>, f: PixelFormat, width: nat, height: nat) returns (rc: ReturnCode)
    requires data.Length >= GetBytesPerPixel(f) * width * height
    modifies data
    ensures rc == ApiSuccess
    ensures var g := Region(GetBytesPerPixel(f), width, TwoFifths(height), ThreeFifths(height),
                            TwoFifths(width), ThreeFifths(width));
            forall idx :: 0 <= idx < data.Length ==>
              data[idx] == if InRegion(g, idx) then BrightenAsWritten(old(data[idx])) else old(data[idx])
  {
    var startRow := TwoFifths(height);
    var endRow := ThreeFifths(height);
    var startCol := TwoFifths(width);
    var endCol := ThreeFifths(width);
    var bytesPerPixel := GetBytesPerPixel(f);
    BrightenRegion(data, Region(bytesPerPixel, width, startRow, endRow, startCol, endCol), height, BrightenAsWritten);
    return ApiSuccess;
  }
}
