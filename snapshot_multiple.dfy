/** The snapshot helpers of the getMultipleSnapshots sample: the size of a raw image
    from the camera's ROI, pixel addressing and pixel format, and a frame grab that
    retries up to four times. */
module MultipleSnapshots {
  import opened Sdk
  import opened Retries

  /** GetPixelSize: whole bytes per pixel for the formats the switch lists; 0 for the
      others, which include RGB24_NON_DIB and the 12-bit packed formats. */
  function GetPixelSize(f: PixelFormat): (r: U32)
    ensures r != 0 ==> StorageBits(f) == Some(8 * r)
    ensures r == 0 <==> StorageBits(f).None? || StorageBits(f) == Some(12) || f == Rgb24NonDib
  {
    match f
    case Mono8 | Bayer8Grbg | Bayer8Rggb | Bayer8Gbrg | Bayer8Bggr => 1
    case Yuv422 | Mono16 | Bayer16Grbg | Bayer16Rggb | Bayer16Gbrg | Bayer16Bggr => 2
    case Rgb24 => 3
    case Rgb48 => 6
    case _ => 0
  }

  /** DetermineRawImageSize, given what the three feature queries report (their return
      codes are not checked): the whole pixels left after pixel addressing, times the
      pixel size, in U32 arithmetic. The source divides by the pixel-addressing value
      without checking it. */
  function DetermineRawImageSize(roiWidth: U32, roiHeight: U32, pixelAddressingValue: U32, f: PixelFormat): (r: U32)
    requires pixelAddressingValue != 0
    ensures GetPixelSize(f) == 0 ==> r == 0
    ensures var exact := (roiWidth / pixelAddressingValue) * (roiHeight / pixelAddressingValue) * GetPixelSize(f);
            exact < U32_LIMIT ==> r == exact
  {
    var pixels := (roiWidth / pixelAddressingValue) * (roiHeight / pixelAddressingValue);
    var numPixels := ToU32(pixels);
    NoWrapBeforeScaling(roiWidth / pixelAddressingValue, roiHeight / pixelAddressingValue, GetPixelSize(f));
    ToU32(numPixels * GetPixelSize(f))
  }

  /** When the scaled product fits in U32, so does the pixel count, unless the scale
      is 0. */
  lemma NoWrapBeforeScaling(a: nat, b: nat, scale: nat)
    ensures scale == 0 ==> ToU32(ToU32(a * b) * scale) == 0
    ensures a * b * scale < U32_LIMIT ==> ToU32(ToU32(a * b) * scale) == a * b * scale
  {
    if scale == 0 {
      assert ToU32(a * b) * scale == 0;
    } else if a * b * scale < U32_LIMIT {
      assert a * b <= a * b * scale;
    }
  }

  const MAX_NUM_TRIES: nat := 4

  /** GetNextFrame: up to four camera calls, stopping at the first success; `uSize` is
      set to `sizeof(FRAME_DESC)` (here `frameDescSize`) before every call. Returns the
      code and the `uSize` each call was given. */
  method GetNextFrame(desc: FrameDesc, frameDescSize: nat, answer: nat -> ReturnCode, sizeWritten: nat -> nat)
    returns (rc: ReturnCode, presented: seq<nat>)
    modifies desc
    ensures var o := RetryOutcome(answer, Succeeded, MAX_NUM_TRIES);
            rc == o.rc && |presented| == o.calls
    ensures forall k :: 0 <= k < |presented| ==> presented[k] == frameDescSize
    ensures |presented| > 0 && desc.size == sizeWritten(|presented| - 1)
  {
    rc := ApiUnknownError;
    presented := [];
    var numTries := 0;
    while numTries < MAX_NUM_TRIES
      invariant 0 <= numTries <= MAX_NUM_TRIES
      invariant RetryFrom(answer, Succeeded, numTries, MAX_NUM_TRIES, rc) == RetryOutcome(answer, Succeeded, MAX_NUM_TRIES)
      invariant |presented| == numTries && !Succeeded(rc)
      invariant forall k :: 0 <= k < numTries ==> presented[k] == frameDescSize
      invariant numTries > 0 ==> desc.size == sizeWritten(numTries - 1)
    {
      desc.size := frameDescSize;
      presented := presented + [desc.size];
      rc := answer(numTries);
      desc.size := sizeWritten(numTries);
      if Succeeded(rc) {
        break;
      }
      numTries := numTries + 1;
    }
  }

  /** The grab succeeds exactly when one of the first four answers is a success; it
      then returns the first of them, and otherwise the fourth failure. */
  lemma GetNextFrameOutcome(answer: nat -> ReturnCode)
    ensures var o := RetryOutcome(answer, Succeeded, MAX_NUM_TRIES);
            && 1 <= o.calls <= MAX_NUM_TRIES
            && (Succeeded(o.rc) <==> exists k :: 0 <= k < MAX_NUM_TRIES && Succeeded(answer(k)))
            && (forall j :: 0 <= j < o.calls - 1 ==> !Succeeded(answer(j)))
            && o.rc == answer(o.calls - 1)
            && (!Succeeded(o.rc) ==> o.calls == MAX_NUM_TRIES)
  {
    RetryOutcomeMeans(answer, Succeeded, MAX_NUM_TRIES);
    SucceedsIffSomeAnswerSucceeds(answer, Succeeded, MAX_NUM_TRIES);
  }

  /** GetRawImage: SUCCESS exactly when the retrying grab returns a success code,
      including one that carries a warning. */
  method GetRawImage(desc: FrameDesc, frameDescSize: nat, answer: nat -> ReturnCode, sizeWritten: nat -> nat)
    returns (status: Status)
    modifies desc
    ensures status == Success <==> Succeeded(RetryOutcome(answer, Succeeded, MAX_NUM_TRIES).rc)
  {
    var retVal, _ := GetNextFrame(desc, frameDescSize, answer, sizeWritten);
    status := if Succeeded(retVal) then Success else Failure;
  }

  /** GetSnapshot, up to saving: a zero raw size fails before anything is allocated or
      grabbed. Otherwise a buffer is allocated (which may fail), an image grabbed into
      it, encoded and saved; SUCCESS needs every step to succeed. `encodeStatus` and
      `saveStatus` are the answers of the encoding and file-writing steps. */
  method GetSnapshot(roiWidth: U32, roiHeight: U32, pixelAddressingValue: U32, f: PixelFormat,
                     allocationSucceeds: bool, desc: FrameDesc, frameDescSize: nat,
                     answer: nat -> ReturnCode, sizeWritten: nat -> nat,
                     encodeStatus: Status, saveStatus: Status)
    returns (retVal: Status, bufferAllocated: bool, grabbed: bool)
    requires pixelAddressingValue != 0
    modifies desc
    ensures DetermineRawImageSize(roiWidth, roiHeight, pixelAddressingValue, f) == 0 ==>
              retVal == Failure && !bufferAllocated && !grabbed
    ensures grabbed <==> bufferAllocated && allocationSucceeds
    ensures retVal == Success <==>
              && DetermineRawImageSize(roiWidth, roiHeight, pixelAddressingValue, f) != 0
              && allocationSucceeds
              && Succeeded(RetryOutcome(answer, Succeeded, MAX_NUM_TRIES).rc)
              && encodeStatus == Success && saveStatus == Success
  {
    retVal, bufferAllocated, grabbed := Failure, false, false;
    var rawImageSize := DetermineRawImageSize(roiWidth, roiHeight, pixelAddressingValue, f);
    if rawImageSize == 0 {
      return;
    }
    bufferAllocated := true;
    if allocationSucceeds {
      grabbed := true;
      var raw := GetRawImage(desc, frameDescSize, answer, sizeWritten);
      if raw == Success {
        if encodeStatus == Success {
          if saveStatus == Success {
            retVal := Success;
          }
        }
      }
    }
  }

  /** An unlisted pixel format, or a 12-bit packed one, always gives a raw size of 0. */
  lemma UnknownFormatHasNoSize(roiWidth: U32, roiHeight: U32, pixelAddressingValue: U32, f: PixelFormat)
    requires pixelAddressingValue != 0
    requires StorageBits(f).None? || StorageBits(f) == Some(12)
    ensures DetermineRawImageSize(roiWidth, roiHeight, pixelAddressingValue, f) == 0
  {
  }
}
