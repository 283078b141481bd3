/** The consumer side: the file-type check every file writer runs on its destination
    path, and the notification entry point that hands a frame to `append`. */
module VideoTargets {
  import opened VideoFrames

  /** Outcome of a check: pass, or the error a VideoTargetError would carry. */
  datatype Check = Pass | Fail(message: string)

  const EMPTY_PATH_MESSAGE: string := "Empty filepath specified"
  const SHORT_PATH_MESSAGE: string := "Filepath not long enough to deduce output format"

  function UnsupportedMessage(filepath: string, filetype: string): string {
    "Filetype of " + filepath + " not supported, use *." + filetype + " instead"
  }

  predicate EndsWith(s: string, suffix: string) {
    |suffix| <= |s| && s[|s| - |suffix|..] == suffix
  }

  /** check_filetype_support: the three rejections, in the order they are tested. */
  function CheckFiletypeSupport(filepath: string, filetype: string): (r: Check)
    ensures filepath == [] ==> r == Fail(EMPTY_PATH_MESSAGE)
    ensures filepath != [] && |filepath| <= |filetype| + 1 ==> r == Fail(SHORT_PATH_MESSAGE)
    ensures (|filepath| > |filetype| + 1 && !EndsWith(filepath, filetype))
            ==> r == Fail(UnsupportedMessage(filepath, filetype))
    ensures r.Pass? <==> filepath != [] && |filepath| > |filetype| + 1 && EndsWith(filepath, filetype)
  {
    if filepath == [] then Fail(EMPTY_PATH_MESSAGE)
    else if |filepath| <= |filetype| + 1 then Fail(SHORT_PATH_MESSAGE)
    else if filepath[|filepath| - |filetype|..] != filetype then Fail(UnsupportedMessage(filepath, filetype))
    else Pass
  }

  /** The rejection of a wrong suffix names both the path and the required type. */
  lemma UnsupportedMessageNamesPathAndType(filepath: string, filetype: string)
    requires |filepath| > |filetype| + 1 && !EndsWith(filepath, filetype)
    ensures CheckFiletypeSupport(filepath, filetype).Fail?
    ensures var m := CheckFiletypeSupport(filepath, filetype).message;
            |m| == 12 + |filepath| + 22 + |filetype| + 8
            && m[12..12 + |filepath|] == filepath
            && m[12 + |filepath| + 22..12 + |filepath| + 22 + |filetype|] == filetype
  {
    var m := UnsupportedMessage(filepath, filetype);
    assert m == "Filetype of " + filepath + (" not supported, use *." + filetype + " instead");
    assert |"Filetype of "| == 12 && |" not supported, use *."| == 22 && |" instead"| == 8;
    assert m[12..12 + |filepath|] == filepath;
    var rest := " not supported, use *." + filetype + " instead";
    assert m[12 + |filepath|..] == rest;
    assert rest[22..22 + |filetype|] == filetype;
  }

  /** Only the suffix is compared: the character before it need not be a dot. */
  lemma DotNotRequired()
    ensures CheckFiletypeSupport("videomp4", "mp4") == Pass
    ensures CheckFiletypeSupport("video.mp4", "mp4") == Pass
    ensures CheckFiletypeSupport(".mp4", "mp4") == Fail(SHORT_PATH_MESSAGE)
  {
    assert "videomp4"[5..] == "mp4";
    assert "video.mp4"[6..] == "mp4";
  }

  /** What a target writes out for one appended frame. */
  datatype FrameRecord = FrameRecord(bytes: seq<bv8>, cols: nat, rows: nat)

  /** A file writer, seen through what it has appended so far. The concrete writers
      (encoders, file formats) are not part of this model: `Append` records the frame
      or refuses it when its colour space is not the writer's. */
  class VideoTarget {
    var colour: ColourSpace
    var written: seq<FrameRecord>

    constructor (c: ColourSpace)
      ensures colour == c && written == []
    {
      colour := c;
      written := [];
    }

    /** `append` is pure virtual in the interface; this stands for a writer that fails
        only on a colour-space mismatch. The failures of a concrete writer (a full disk,
        an encoder error) are not modelled. */
    method Append(frame: VideoFrame) returns (r: Check)
      requires frame.Valid()
      modifies this
      ensures colour == old(colour)
      ensures r.Pass? <==> frame.colour == colour
      ensures r.Pass? ==> written == old(written) + [FrameRecord(frame.Bytes(), frame.cols, frame.rows)]
      ensures r.Fail? ==> written == old(written)
    {
      if frame.colour != colour {
        r := Fail("colour space mismatch");
      } else {
        written := written + [FrameRecord(frame.Bytes(), frame.cols, frame.rows)];
        r := Pass;
      }
    }

    /** The notification entry point: exactly `Append(frame)`. */
    method Update(frame: VideoFrame) returns (r: Check)
      requires frame.Valid()
      modifies this
      ensures colour == old(colour)
      ensures r.Pass? <==> frame.colour == colour
      ensures r.Pass? ==> written == old(written) + [FrameRecord(frame.Bytes(), frame.cols, frame.rows)]
      ensures r.Fail? ==> written == old(written)
    {
      r := Append(frame);
    }
  }
}
