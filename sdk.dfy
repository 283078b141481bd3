/** Vocabulary shared with the PixeLINK SDK (PixeLINKApi.h is not part of this model).
    The SDK's numeric constants are modelled as constructors of datatypes, so that
    distinct constants are distinct values by construction. */
module Sdk {

  datatype Option<+T> = None | Some(value: T)

  /** PXL_RETURN_CODE: success, success with a warning, or one of the error codes the
      samples name, with a catch-all for the other errors. */
  datatype ReturnCode =
    | ApiSuccess
    | ApiSuccessWithWarning(warning: nat)
    | ApiUnknownError
    | ApiStreamStopped
    | ApiNoCameraAvailableError
    | ApiNoCameraError
    | ApiCameraTimeoutError
    | ApiOtherError(code: nat)

  /** API_SUCCESS(rc): success codes, including the ones that carry a warning. */
  predicate Succeeded(rc: ReturnCode) {
    rc.ApiSuccess? || rc.ApiSuccessWithWarning?
  }

  /** PIXEL_FORMAT_*: the formats the samples switch on, and any other code. */
  datatype PixelFormat =
    | Mono8 | Mono16 | Yuv422
    | Bayer8Grbg | Bayer8Rggb | Bayer8Gbrg | Bayer8Bggr
    | Bayer16Grbg | Bayer16Rggb | Bayer16Gbrg | Bayer16Bggr
    | Mono12Packed | Bayer12GrbgPacked | Bayer12RggbPacked | Bayer12GbrgPacked | Bayer12BggrPacked
    | Rgb24 | Rgb24NonDib | Rgb48
    | UnlistedFormat(code: nat)

  /** The bits one pixel of a format occupies in a frame buffer, as the format's name
      says; none for a code the samples do not list. */
  function StorageBits(f: PixelFormat): Option<nat> {
    match f
    case Mono8 | Bayer8Grbg | Bayer8Rggb | Bayer8Gbrg | Bayer8Bggr => Some(8)
    case Mono16 | Yuv422 | Bayer16Grbg | Bayer16Rggb | Bayer16Gbrg | Bayer16Bggr => Some(16)
    case Mono12Packed | Bayer12GrbgPacked | Bayer12RggbPacked | Bayer12GbrgPacked | Bayer12BggrPacked => Some(12)
    case Rgb24 | Rgb24NonDib => Some(24)
    case Rgb48 => Some(48)
    case UnlistedFormat(_) => None
  }

  /** The samples' local SUCCESS / FAILURE return values. */
  datatype Status = Success | Failure

  const U32_LIMIT: int := 0x1_0000_0000

  /** U8: the values an unsigned byte holds. */
  type U8 = x: int | 0 <= x < 256

  /** U32: the values an unsigned 32-bit integer holds. */
  type U32 = x: int | 0 <= x < U32_LIMIT

  /** Conversion of an integer to U32: reduction modulo 2^32. */
  function ToU32(x: int): (r: nat)
    ensures r < U32_LIMIT
    ensures 0 <= x < U32_LIMIT ==> r == x
  {
    x % U32_LIMIT
  }
}
