/** The simple GUI's camera wrapper: it remembers the stream state and the preview
    state it last asserted, and play / pause / stop bring the camera to the requested
    state with SDK calls that may fail. The SDK's answers are parameters: one return
    code per call that is checked. */
module SimpleGuiCamera {
  import opened Sdk
  import opened CStrings

  datatype StreamState = StartStream | PauseStream | StopStream
  datatype PreviewState = StartPreview | PausePreview | StopPreview

  /** The SDK calls the wrapper issues, in order. */
  datatype CameraCall =
    | Initialize(serial: U32)
    | SetPreviewSettings(title: string)
    | SetStreamState(stream: StreamState)
    | SetPreviewState(preview: PreviewState)

  /** The two recorded states. */
  datatype CameraState = CameraState(stream: StreamState, preview: PreviewState)

  /** What one operation does: the recorded states afterwards, the code it returns and
      the SDK calls it made. */
  datatype Outcome = Outcome(state: CameraState, rc: ReturnCode, calls: seq<CameraCall>)

  /** play: start the stream unless it is recorded as started, then start the preview.
      If the preview cannot start, the stream is asked back to the state it was in and
      is recorded as stopped. */
  function PlayOutcome(s: CameraState, streamRc: ReturnCode, previewRc: ReturnCode): Outcome {
    var streamCalls := if s.stream != StartStream then [SetStreamState(StartStream)] else [];
    if s.stream != StartStream && !Succeeded(streamRc) then Outcome(s, streamRc, streamCalls)
    else if !Succeeded(previewRc) then
      Outcome(s.(stream := StopStream), previewRc,
              streamCalls + [SetPreviewState(StartPreview), SetStreamState(s.stream)])
    else Outcome(CameraState(StartStream, StartPreview), ApiSuccess, streamCalls + [SetPreviewState(StartPreview)])
  }

  /** pause: pause the preview, then the stream; the recorded states change only when
      both succeed. */
  function PauseOutcome(s: CameraState, previewRc: ReturnCode, streamRc: ReturnCode): Outcome {
    if !Succeeded(previewRc) then Outcome(s, previewRc, [SetPreviewState(PausePreview)])
    else if !Succeeded(streamRc) then
      Outcome(s, streamRc, [SetPreviewState(PausePreview), SetStreamState(PauseStream)])
    else Outcome(CameraState(PauseStream, PausePreview), ApiSuccess,
                 [SetPreviewState(PausePreview), SetStreamState(PauseStream)])
  }

  /** stop: stop the preview; once it has stopped, the stream is recorded as stopped
      whatever the stream call returns, and that code is the result. */
  function StopOutcome(s: CameraState, previewRc: ReturnCode, streamRc: ReturnCode): Outcome {
    if !Succeeded(previewRc) then Outcome(s, previewRc, [SetPreviewState(StopPreview)])
    else Outcome(CameraState(StopStream, StopPreview), streamRc,
                 [SetPreviewState(StopPreview), SetStreamState(StopStream)])
  }

  /** The preview window's title: `sprintf("%d")` of the 32-bit serial, which prints its
      bits as a signed int. */
  function PreviewTitle(serial: U32): string {
    "Preview - Camera " + IntText(AsInt32(serial))
  }

  /** The number in the title reads back as the serial, and it is negative exactly for
      serials of 2^31 or more. */
  lemma PreviewTitleShowsSerial(serial: U32)
    ensures var title := PreviewTitle(serial);
            && |title| > 17 && title[..17] == "Preview - Camera "
            && ToU32(CAtoi(title[17..])) == serial
            && (title[17] == '-' <==> serial > INT_MAX)
  {
    var text := IntText(AsInt32(serial));
    assert PreviewTitle(serial)[17..] == text;
    CAtoiIntText(AsInt32(serial));
  }

  class PxLCamera {
    var serialNum: U32
    var streamState: StreamState
    var previewState: PreviewState
    var calls: seq<CameraCall>

    /** The part of the constructor after a successful initialisation. */
    constructor Opened(serial: U32)
      ensures serialNum == serial
      ensures streamState == StopStream && previewState == StopPreview
      ensures calls == [Initialize(serial), SetPreviewSettings(PreviewTitle(serial))]
    {
      serialNum := serial;
      streamState := StopStream;
      previewState := StopPreview;
      calls := [Initialize(serial), SetPreviewSettings(PreviewTitle(serial))];
    }

    function State(): CameraState
      reads this
    {
      CameraState(streamState, previewState)
    }

    method Play(streamRc: ReturnCode, previewRc: ReturnCode) returns (rc: ReturnCode)
      modifies this
      ensures var o := PlayOutcome(old(State()), streamRc, previewRc);
              State() == o.state && rc == o.rc && calls == old(calls) + o.calls
      ensures serialNum == old(serialNum)
    {
      var currentStreamState := streamState;
      if currentStreamState != StartStream {
        calls := calls + [SetStreamState(StartStream)];
        if !Succeeded(streamRc) {
          return streamRc;
        }
      }
      calls := calls + [SetPreviewState(StartPreview)];
      if !Succeeded(previewRc) {
        calls := calls + [SetStreamState(currentStreamState)];
        streamState := StopStream;
        return previewRc;
      }
      streamState := StartStream;
      previewState := StartPreview;
      return ApiSuccess;
    }

    method Pause(previewRc: ReturnCode, streamRc: ReturnCode) returns (rc: ReturnCode)
      modifies this
      ensures var o := PauseOutcome(old(State()), previewRc, streamRc);
              State() == o.state && rc == o.rc && calls == old(calls) + o.calls
      ensures serialNum == old(serialNum)
    {
      calls := calls + [SetPreviewState(PausePreview)];
      if !Succeeded(previewRc) {
        return previewRc;
      }
      calls := calls + [SetStreamState(PauseStream)];
      if !Succeeded(streamRc) {
        return streamRc;
      }
      streamState := PauseStream;
      previewState := PausePreview;
      return ApiSuccess;
    }

    method Stop(previewRc: ReturnCode, streamRc: ReturnCode) returns (rc: ReturnCode)
      modifies this
      ensures var o := StopOutcome(old(State()), previewRc, streamRc);
              State() == o.state && rc == o.rc && calls == old(calls) + o.calls
      ensures serialNum == old(serialNum)
    {
      calls := calls + [SetPreviewState(StopPreview)];
      if !Succeeded(previewRc) {
        return previewRc;
      }
      previewState := StopPreview;
      calls := calls + [SetStreamState(StopStream)];
      streamState := StopStream;
      return streamRc;
    }
  }

  /** The constructor's outcome: a camera, or the PxLError carrying the failing code. */
  datatype OpenResult = Camera(camera: PxLCamera) | PxLError(rc: ReturnCode)

  /** The constructor: initialisation either fails, and the error carries its code,
      or the camera records its serial number and starts stopped. */
  method Open(serial: U32, initRc: ReturnCode) returns (r: OpenResult)
    ensures r.PxLError? <==> !Succeeded(initRc)
    ensures r.PxLError? ==> r.rc == initRc
    ensures r.Camera? ==> fresh(r.camera) && r.camera.serialNum == serial
                          && r.camera.State() == CameraState(StopStream, StopPreview)
  {
    if !Succeeded(initRc) {
      return PxLError(initRc);
    }
    var c := new PxLCamera.Opened(serial);
    return Camera(c);
  }

  /** play starts the stream only when it is not recorded as started; otherwise its
      first call is the one that starts the preview. */
  lemma PlayStartsStreamOnlyWhenNeeded(s: CameraState, streamRc: ReturnCode, previewRc: ReturnCode)
    ensures var o := PlayOutcome(s, streamRc, previewRc);
            (s.stream == StartStream ==> o.calls[0] == SetPreviewState(StartPreview))
            && (s.stream != StartStream ==> o.calls[0] == SetStreamState(StartStream))
  {
  }

  /** A failed play never records the preview as changed; the stream is recorded either
      as before (the stream could not start) or as stopped (the preview could not start),
      even when it had been paused. */
  lemma PlayFailure(s: CameraState, streamRc: ReturnCode, previewRc: ReturnCode)
    ensures var o := PlayOutcome(s, streamRc, previewRc);
            !Succeeded(o.rc) ==> o.state.preview == s.preview && (o.state.stream == s.stream || o.state.stream == StopStream)
    ensures s.stream == PauseStream && Succeeded(streamRc) && !Succeeded(previewRc) ==>
            var o := PlayOutcome(s, streamRc, previewRc);
            o.state == CameraState(StopStream, s.preview) && o.rc == previewRc
            && o.calls == [SetStreamState(StartStream), SetPreviewState(StartPreview), SetStreamState(PauseStream)]
  {
  }

  /** Success codes of play, pause and stop mean the requested state was reached. */
  lemma SuccessReachesRequestedState(s: CameraState, rc1: ReturnCode, rc2: ReturnCode)
    ensures Succeeded(PlayOutcome(s, rc1, rc2).rc) ==> PlayOutcome(s, rc1, rc2).state == CameraState(StartStream, StartPreview)
    ensures Succeeded(PauseOutcome(s, rc1, rc2).rc) ==> PauseOutcome(s, rc1, rc2).state == CameraState(PauseStream, PausePreview)
    ensures Succeeded(StopOutcome(s, rc1, rc2).rc) ==> StopOutcome(s, rc1, rc2).state == CameraState(StopStream, StopPreview)
  {
  }

  /** Once the preview stops, stop records both states as stopped even if the stream
      call fails; a failed pause leaves the recorded states as they were. */
  lemma StopAndPauseFailures(s: CameraState, previewRc: ReturnCode, streamRc: ReturnCode)
    ensures Succeeded(previewRc) ==> StopOutcome(s, previewRc, streamRc).state == CameraState(StopStream, StopPreview)
    ensures !Succeeded(previewRc) ==> StopOutcome(s, previewRc, streamRc).state == s
    ensures !Succeeded(PauseOutcome(s, previewRc, streamRc).rc) ==> PauseOutcome(s, previewRc, streamRc).state == s
  {
  }
}
