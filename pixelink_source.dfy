/** The Pixelink producer: a video source over one camera that accepts only BAYER8,
    presents its frames as UYVY, and fills the caller's frame from its grab buffer.
    The camera is an oracle: the image size it reports, and for each grab a return
    code and the bytes it delivers. */
module PixelinkSource {
  import opened Sdk
  import opened VideoFrames
  import opened Rois

  /** The colour space requested at construction: BAYER8, or any other format. */
  datatype RequestedFormat = Bayer8 | OtherFormat(code: nat)

  const FULL_FRAME: Roi := Roi(1920, 1080)
  const FRAME_RATE: real := 30.0

  class VideoSourcePixelink {
    var colour: Option<ColourSpace>   // unset when the constructor returned early
    var flags: set<RequestedFormat>   // the colour spaces OR-ed into the flag word
    var full: Roi
    var roi: Roi
    var buffer: array?<bv8>
    var imageSize: nat
    var daemonStarted: bool

    /** The grab buffer holds exactly `imageSize` bytes and exists once a colour space
        was accepted, and the ROI has a size a frame can carry. */
    ghost predicate Valid()
      reads this
    {
      (buffer == null ==> imageSize == 0 && colour == None)
      && (buffer != null ==> buffer.Length == imageSize)
      && roi.width >= 0 && roi.height >= 0
    }

    /** The constructor. A format other than BAYER8 is refused: nothing else is set up
        and no frames are ever delivered. For BAYER8 the source presents UYVY, records
        the format in its flags, sizes its buffer from the camera, takes the full
        1920x1080 frame as ROI, grabs one test frame, and starts broadcasting only if
        that grab succeeded. `reportedSize` is the camera's image size; `testRc` and
        `testBytes` are the outcome of the test grab. */
    constructor (format: RequestedFormat, reportedSize: nat, testRc: ReturnCode, testBytes: seq<bv8>)
      requires |testBytes| == reportedSize
      ensures Valid()
      ensures format != Bayer8 ==>
                colour == None && flags == {} && buffer == null && imageSize == 0 && !daemonStarted
      ensures format == Bayer8 ==>
                && colour == Some(UYVY) && flags == {Bayer8}
                && full == FULL_FRAME && roi == FULL_FRAME
                && imageSize == reportedSize && fresh(buffer)
                && (daemonStarted <==> Succeeded(testRc))
                && (Succeeded(testRc) ==> buffer[..] == testBytes)
    {
      colour := None;
      flags := {};
      full := Roi(0, 0);
      roi := Roi(0, 0);
      buffer := null;
      imageSize := 0;
      daemonStarted := false;
      new;
      if format != Bayer8 {
        return;
      }
      colour := Some(UYVY);
      flags := flags + {format};
      imageSize := reportedSize;
      buffer := new bv8[reportedSize];
      full := FULL_FRAME;
      GetFullFrame();
      var frame := new VideoFrame.OfColour(UYVY, false);
      var ok := GetFrame(frame, testRc, testBytes);
      if !ok {
        return;
      }
      daemonStarted := true;
    }

    /** get_frame_dimensions: always succeeds and reports the ROI's size. */
    method GetFrameDimensions() returns (ok: bool, width: int, height: int)
      ensures ok && width == roi.width && height == roi.height
    {
      return true, roi.width, roi.height;
    }

    /** get_frame. A frame of another colour space is refused and nothing is grabbed.
        Otherwise the SDK grabs into the buffer, which afterwards holds `grabbed`
        whether or not the grab succeeded (a non-owning frame handed out earlier sees
        those bytes too). Only on success is the frame initialised from the buffer with
        the image size and the ROI's width and height: an owning frame copies them, a
        non-owning frame points at the buffer itself. */
    method GetFrame(frame: VideoFrame, rc: ReturnCode, grabbed: seq<bv8>) returns (ok: bool)
      requires Valid() && |grabbed| == imageSize
      modifies frame, buffer
      ensures Valid()
      ensures ok <==> colour == Some(frame.colour) && Succeeded(rc)
      ensures colour != Some(old(frame.colour)) ==>
                unchanged(frame) && (buffer != null ==> buffer[..] == old(buffer[..]))
      ensures colour == Some(old(frame.colour)) ==> buffer != null && buffer[..] == grabbed
      ensures !ok ==> unchanged(frame)
      ensures ok ==>
                && frame.Valid() && frame.colour == old(frame.colour) && frame.manage == old(frame.manage)
                && frame.length == imageSize && frame.cols == roi.width && frame.rows == roi.height
                && frame.Bytes() == grabbed
                && (!frame.manage ==> frame.data == buffer)
                && (frame.manage ==> fresh(frame.data))
    {
      if colour != Some(frame.colour) {
        return false;
      }
      forall i | 0 <= i < buffer.Length {
        buffer[i] := grabbed[i];
      }
      if !Succeeded(rc) {
        return false;
      }
      frame.InitFromPointer(buffer, imageSize, roi.width, roi.height);
      assert buffer[..imageSize] == buffer[..];
      return true;
    }

    /** get_frame_rate: a constant 30 frames per second. */
    method GetFrameRate() returns (rate: real)
      ensures rate == FRAME_RATE
    {
      return FRAME_RATE;
    }

    /** set_sub_frame: accepted and ignored; the ROI stays as it was. */
    method SetSubFrame(x: int, y: int, width: int, height: int)
      ensures roi == old(roi) && full == old(full)
    {
    }

    /** get_full_frame: the ROI becomes the full frame's width and height. */
    method GetFullFrame()
      requires full.width >= 0 && full.height >= 0
      modifies this
      ensures roi == full
      ensures colour == old(colour) && flags == old(flags) && full == old(full)
      ensures buffer == old(buffer) && imageSize == old(imageSize) && daemonStarted == old(daemonStarted)
    {
      roi := Roi(full.width, full.height);
    }
  }

  /** A non-owning frame shares the source's buffer, so the next successful grab changes
      what it shows; an owning frame keeps the bytes of the grab that filled it. */
  method NextGrabShowsThroughAlias(source: VideoSourcePixelink, alias: VideoFrame, owner: VideoFrame,
                                   rc: ReturnCode, first: seq<bv8>, second: seq<bv8>)
    requires source.Valid() && source.colour.Some? && Succeeded(rc)
    requires |first| == source.imageSize && |second| == source.imageSize && source.imageSize > 0
    requires alias.colour == source.colour.value && !alias.manage
    requires owner.colour == source.colour.value && owner.manage
    requires alias != owner
    modifies source.buffer, alias, owner
    ensures alias.Valid() && alias.Bytes() == second
    ensures owner.Valid() && owner.Bytes() == first
  {
    var ok := source.GetFrame(owner, rc, first);
    ok := source.GetFrame(alias, rc, first);
    ghost var ownerData := owner.data;
    assert ownerData != source.buffer;
    ok := source.GetFrame(alias, rc, second);
    assert alias.data == source.buffer;
  }

  /** A failed grab still writes into the shared buffer: a non-owning frame from an
      earlier successful grab then shows whatever the failed grab left there. */
  method FailedGrabShowsThroughAlias(source: VideoSourcePixelink, alias: VideoFrame, other: VideoFrame,
                                     rc: ReturnCode, failRc: ReturnCode, first: seq<bv8>, leftOver: seq<bv8>)
    requires source.Valid() && source.colour.Some? && Succeeded(rc) && !Succeeded(failRc)
    requires |first| == source.imageSize && |leftOver| == source.imageSize && source.imageSize > 0
    requires alias.colour == source.colour.value && !alias.manage
    requires other.colour == source.colour.value
    requires alias != other
    modifies source.buffer, alias, other
    ensures alias.Valid() && alias.Bytes() == leftOver
  {
    var ok := source.GetFrame(alias, rc, first);
    ok := source.GetFrame(other, failRc, leftOver);
    assert !ok;
    assert alias.data == source.buffer;
  }
}
