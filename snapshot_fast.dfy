/** The snapshot helpers of the fastMotionVideo sample: the raw image size with its
    alignment check on the ROI, and a single frame grab. Pixel sizes are counted in
    half bytes, so that the 1.5 bytes of the 12-bit packed formats are exact. The
    sample's U32 quantities are 32-bit words, whose arithmetic wraps as C's unsigned
    arithmetic does. */
module FastSnapshots {
  import opened Sdk
  import opened Retries

  /** getPixelSize, in half bytes: 8-bit formats 1 byte, 16-bit formats and YUV422 2,
      12-bit packed formats 1.5, RGB24 3, RGB48 6, and 0 for the rest. */
  function GetPixelSizeHalves(f: PixelFormat): (r: nat)
    ensures r != 0 ==> StorageBits(f) == Some(4 * r)
    ensures r == 0 <==> StorageBits(f).None? || f == Rgb24NonDib
    ensures r == 0 || r >= 2
  {
    match f
    case Mono8 | Bayer8Grbg | Bayer8Rggb | Bayer8Gbrg | Bayer8Bggr => 2
    case Yuv422 | Mono16 | Bayer16Grbg | Bayer16Rggb | Bayer16Gbrg | Bayer16Bggr => 4
    case Mono12Packed | Bayer12GrbgPacked | Bayer12RggbPacked | Bayer12GbrgPacked | Bayer12BggrPacked => 3
    case Rgb24 => 6
    case Rgb48 => 12
    case _ => 0
  }

  /** `~(paX - 1)` on 32-bit words. */
  function MaskOf(paX: U32): bv32 {
    !((paX as bv32) - 1)
  }

  /** The alignment check as written: the mask clears no bit of `dim`. */
  predicate MaskAccepts(dim: U32, paX: U32) {
    (dim as bv32) & MaskOf(paX) == dim as bv32
  }

  /** The alignment check as intended: `dim` is a whole number of `paX`-pixel blocks. */
  predicate Aligned(dim: U32, paX: U32) {
    paX != 0 && dim % paX == 0
  }

  /** What determineRawImageSize learns from the camera: each feature query's return
      code and the values it reports (ROI width and height, the pixel-addressing value,
      the pixel format). */
  datatype SizeQueries = SizeQueries(roiRc: ReturnCode, roiWidth: U32, roiHeight: U32,
                                     addressingRc: ReturnCode, paX: U32,
                                     formatRc: ReturnCode, format: PixelFormat)

  predicate QueriesSucceed(q: SizeQueries) {
    Succeeded(q.roiRc) && Succeeded(q.addressingRc) && Succeeded(q.formatRc)
  }

  /** The pixels left of a `width` x `height` ROI when `paX` x `paY` blocks become one
      pixel, in U32 arithmetic; `paY` is read from the same parameter as `paX`. */
  function PixelCount(width: U32, height: U32, paX: U32): (r: U32)
    requires paX != 0
  {
    var paY := paX;
    var blocksAcross: nat := width / paX;
    var blocksDown: nat := height / paY;
    ToU32(blocksAcross * blocksDown)
  }

  /** Sizes, in half bytes, below which single-precision arithmetic is exact: a float
      holds every multiple of 0.5 below 2^23, and every pixel count below 2^24. */
  const FLOAT_EXACT_HALVES: nat := 0x100_0000

  /** `(U32)((float)numPixels * pixelSize)`: the pixel count times the pixel size,
      truncated to whole bytes. The product is taken exactly; the source's float agrees
      with it while the size stays below 2^23 bytes. */
  function ScaledSize(numPixels: U32, f: PixelFormat): (r: U32)
    ensures GetPixelSizeHalves(f) == 0 ==> r == 0
    ensures numPixels * GetPixelSizeHalves(f) < FLOAT_EXACT_HALVES ==> r == numPixels * GetPixelSizeHalves(f) / 2
  {
    if GetPixelSizeHalves(f) == 0 then 0 else ToU32(numPixels * GetPixelSizeHalves(f) / 2)
  }

  /** determineRawImageSize as written: 0 as soon as a query fails or the mask check
      rejects the width or the height, otherwise the scaled size. The division is
      reached with a zero pixel-addressing value only for a 0 x 0 ROI, which the source
      does not guard against. */
  function DetermineRawImageSize(q: SizeQueries): (r: U32)
    requires QueriesSucceed(q) && MaskAccepts(q.roiWidth, q.paX) && MaskAccepts(q.roiHeight, q.paX) ==> q.paX != 0
    ensures !QueriesSucceed(q) ==> r == 0
    ensures !MaskAccepts(q.roiWidth, q.paX) || !MaskAccepts(q.roiHeight, q.paX) ==> r == 0
    ensures r != 0 ==> GetPixelSizeHalves(q.format) != 0
  {
    if !Succeeded(q.roiRc) then 0
    else if !Succeeded(q.addressingRc) then 0
    else if !Succeeded(q.formatRc) then 0
    else if !MaskAccepts(q.roiWidth, q.paX) || !MaskAccepts(q.roiHeight, q.paX) then 0
    else ScaledSize(PixelCount(q.roiWidth, q.roiHeight, q.paX), q.format)
  }

  /** determineRawImageSize with the alignment check it means to make. */
  function DetermineRawImageSizeAligned(q: SizeQueries): (r: U32)
    ensures !QueriesSucceed(q) ==> r == 0
    ensures !Aligned(q.roiWidth, q.paX) || !Aligned(q.roiHeight, q.paX) ==> r == 0
    ensures r != 0 ==> GetPixelSizeHalves(q.format) != 0
  {
    if !QueriesSucceed(q) then 0
    else if !Aligned(q.roiWidth, q.paX) || !Aligned(q.roiHeight, q.paX) then 0
    else ScaledSize(PixelCount(q.roiWidth, q.roiHeight, q.paX), q.format)
  }

  /** The mask check is a test for multiples of the power-of-two pixel-addressing
      values 1, 2, 4 and 8, on 32-bit words. */
  lemma MaskTestsPowersOfTwo(dim: bv32)
    ensures dim & !(1 - 1) == dim
    ensures dim & !(2 - 1) == dim <==> dim % 2 == 0
    ensures dim & !(4 - 1) == dim <==> dim % 4 == 0
    ensures dim & !(8 - 1) == dim <==> dim % 8 == 0
  {
    MaskTestsTwo(dim);
    MaskTestsFour(dim);
    MaskTestsEight(dim);
  }

  lemma MaskTestsTwo(dim: bv32)
    ensures dim & !(2 - 1) == dim <==> dim % 2 == 0
  {
  }

  lemma MaskTestsFour(dim: bv32)
    ensures dim & !(4 - 1) == dim <==> dim % 4 == 0
  {
  }

  lemma MaskTestsEight(dim: bv32)
    ensures dim & !(8 - 1) == dim <==> dim % 8 == 0
  {
  }

  /** For the pixel-addressing values 3 and 6 the mask check is wrong both ways: a 6 x 6
      ROI, two 3-pixel blocks each way, gets size 0 instead of 4; a 1000-pixel width,
      not a whole number of 3-pixel blocks, is accepted; a 12-pixel width is refused
      for 6. */
  lemma MaskWrongForThreeAndSix()
    ensures var q := SizeQueries(ApiSuccess, 6, 6, ApiSuccess, 3, ApiSuccess, Mono8);
            DetermineRawImageSize(q) == 0 && DetermineRawImageSizeAligned(q) == 4
    ensures MaskAccepts(1000, 3) && !Aligned(1000, 3)
    ensures !MaskAccepts(12, 6) && Aligned(12, 6)
  {
    assert !MaskAccepts(6, 3);
    assert PixelCount(6, 6, 3) == 4;
  }

  /** What the aligned check guarantees: an accepted ROI is covered exactly by the
      blocks, so the pixel count drops no column and no row, and while the float
      product is exact the size is the pixel count times the pixel size. */
  lemma AlignedSizeCoversRoi(q: SizeQueries)
    requires DetermineRawImageSizeAligned(q) != 0
    ensures (q.roiWidth / q.paX) * q.paX == q.roiWidth
    ensures (q.roiHeight / q.paX) * q.paX == q.roiHeight
    ensures var pixels := (q.roiWidth / q.paX) * (q.roiHeight / q.paX);
            pixels * GetPixelSizeHalves(q.format) < FLOAT_EXACT_HALVES ==>
              DetermineRawImageSizeAligned(q) == pixels * GetPixelSizeHalves(q.format) / 2
  {
    assert QueriesSucceed(q) && Aligned(q.roiWidth, q.paX) && Aligned(q.roiHeight, q.paX);
    WholeBlocks(q.roiWidth, q.paX);
    WholeBlocks(q.roiHeight, q.paX);
    var halves := GetPixelSizeHalves(q.format);
    assert halves >= 2;
    var scaled := (q.roiWidth / q.paX) * (q.roiHeight / q.paX) * halves;
    if scaled < FLOAT_EXACT_HALVES {
      assert scaled / 2 < U32_LIMIT;
      PixelCountFits(q.roiWidth, q.roiHeight, q.paX, halves);
    }
  }

  /** When the scaled size fits in U32, the pixel count does too and is not truncated. */
  lemma PixelCountFits(width: U32, height: U32, paX: U32, halves: nat)
    requires paX != 0 && halves >= 2
    requires (width / paX) * (height / paX) * halves / 2 < U32_LIMIT
    ensures PixelCount(width, height, paX) == (width / paX) * (height / paX)
  {
    var blocksAcross: nat := width / paX;
    var blocksDown: nat := height / paX;
    NoTruncation(blocksAcross * blocksDown, halves);
  }

  /** A count whose scaled size fits in U32 fits in U32 itself. */
  lemma NoTruncation(pixels: nat, halves: nat)
    requires halves >= 2 && pixels * halves / 2 < U32_LIMIT
    ensures ToU32(pixels) == pixels
  {
    AtLeastOneByte(pixels, halves);
  }

  lemma WholeBlocks(dim: nat, paX: nat)
    requires paX != 0 && dim % paX == 0
    ensures (dim / paX) * paX == dim
  {
  }

  lemma AtLeastOneByte(pixels: nat, halves: nat)
    requires halves >= 2
    ensures pixels <= pixels * halves / 2
  {
    assert pixels * halves >= pixels * 2;
  }

  /** getRawImage: one grab with `uSize` set to `sizeof(FRAME_DESC)`; SUCCESS only for
      the plain success code, so a success that carries a warning is a failure here. */
  method GetRawImage(desc: FrameDesc, frameDescSize: nat, rc: ReturnCode, sizeWritten: nat)
    returns (status: Status, presented: nat)
    modifies desc
    ensures status == Success <==> rc == ApiSuccess
    ensures presented == frameDescSize && desc.size == sizeWritten
  {
    desc.size := frameDescSize;
    presented := desc.size;
    var retVal := rc;
    desc.size := sizeWritten;
    status := if retVal == ApiSuccess then Success else Failure;
  }

  /** getSnapshot, up to saving: the raw size is determined from the camera's answers
      `q`; a size of 0 (a failed query, a rejected ROI, a format without a size) fails
      before anything is allocated or grabbed; otherwise SUCCESS needs the allocation,
      the grab, the encoding and the file write to succeed. `encodeStatus` and
      `saveStatus` are the answers of the encoding and file-writing steps. */
  method GetSnapshot(q: SizeQueries, allocationSucceeds: bool, desc: FrameDesc, frameDescSize: nat,
                     rc: ReturnCode, sizeWritten: nat, encodeStatus: Status, saveStatus: Status)
    returns (retVal: Status, bufferAllocated: bool, grabbed: bool)
    requires QueriesSucceed(q) && MaskAccepts(q.roiWidth, q.paX) && MaskAccepts(q.roiHeight, q.paX) ==> q.paX != 0
    modifies desc
    ensures DetermineRawImageSize(q) == 0 ==> retVal == Failure && !bufferAllocated && !grabbed
    ensures bufferAllocated <==> DetermineRawImageSize(q) != 0
    ensures grabbed <==> bufferAllocated && allocationSucceeds
    ensures retVal == Success <==>
              DetermineRawImageSize(q) != 0 && allocationSucceeds && rc == ApiSuccess
              && encodeStatus == Success && saveStatus == Success
  {
    var rawImageSize := DetermineRawImageSize(q);
    retVal, bufferAllocated, grabbed := Failure, false, false;
    if rawImageSize == 0 {
      return;
    }
    bufferAllocated := true;
    if allocationSucceeds {
      grabbed := true;
      desc.size := frameDescSize;
      var raw, _ := GetRawImage(desc, frameDescSize, rc, sizeWritten);
      if raw == Success {
        if encodeStatus == Success {
          if saveStatus == Success {
            retVal := Success;
          }
        }
      }
    }
  }
}
