# GIFT-Grab's Pixelink path and SDK samples, in Dafny

GIFT-Grab moves video frames from producers (frame grabbers, cameras, files) to
consumers (file writers, network streamers) through an observer chain. This project
models the sequential logic around that chain on the Pixelink side:

- the I420 frame buffer and its ownership rule: a frame either owns a copy of its bytes
  or aliases the caller's storage, and copy-assignment always produces an owning copy;
- the file-type check every video target runs on its destination path, and `update`
  delegating to `append`;
- the Pixelink video source: its colour-space gate, `get_frame`, and its ROI and
  frame-rate bookkeeping, with the camera as an oracle;
- the vendor SDK samples that ship with it:
  - the feature-poll registry;
  - the simple GUI's camera state machine and its camera-select combo;
  - the probe-and-populate loops behind the pixel-format, pixel-addressing and ROI
    controls of captureOEMLite;
  - its image-capture file naming;
  - the retrying `PxLGetNextFrame` wrappers;
  - the raw-image size arithmetic, with its bit-mask alignment check;
  - the pixel-format tables;
  - the brighten loop of the callback sample;
  - the two command-line parsers of the fast- and slow-motion video samples;
  - the decoders of the getCameraFeature sample.

Layout, one module per file:

- `sdk.dfy` (`Sdk`): the SDK's return codes, pixel formats and colour spaces;
- `cstrings.dfy` (`CStrings`): C's `atoi`, `strlen`, `strncpy` and `strncat`;
- `lists.dfy` (`Lists`): list helpers (filter, map, search, ranges);
- `videoframe.dfy`, `videotarget.dfy`, `pixelink_source.dfy`: the GIFT-Grab API side;
- the remaining files: one SDK sample each.

What the model does not see is a parameter:

- camera answers are functions from the attempt number or the candidate to a return code
  or a verdict;
- the values of the SDK's header constants are records of codes with a distinctness
  predicate;
- the working directory, a chosen folder, and the bytes a grab delivers are plain values.

Integer widths are explicit:

- `U32` and `U8` values wrap with `% 2^32` and `% 256`, as C's conversions do;
- `atoi` is glibc's `strtol`, clamped to `long` and then cut to 32 bits;
- `sprintf("%d")` of a 32-bit ULONG serial prints its bits as a signed int, and reading it back converts `atoi`'s int to the 32-bit ULONG again;
- a call whose C behaviour is undefined (a string routine writing past its buffer) yields None;
- the 12-bit packed formats' 1.5 bytes per pixel are counted in half bytes.

## Model

| member | source | states |
|---|---|---|
| VideoFrames.VideoFrame.EmptyI420 | src/api/videoframe_i420.cpp:7-11 | an empty I420 frame holds no data and keeps the requested ownership flag |
| VideoFrames.VideoFrame.OfColour | src/pixelink_sdk/pixelinksdk_video_source.cpp:29 | an empty frame of the given colour space with the given ownership flag |
| VideoFrames.VideoFrame.I420FromPointer | src/api/videoframe_i420.cpp:13-19 | the data constructor reaches the same state as the empty constructor followed by `init_from_pointer`: an owned fresh copy or the caller's pointer itself |
| VideoFrames.VideoFrame.InitFromPointer | src/api/videoframe_i420.cpp:28-43 | length, columns and rows are recorded as given, unchecked; an owning frame gets fresh storage holding the source's first `length` bytes; a non-owning one stores the caller's pointer |
| VideoFrames.VideoFrame.Assign | src/api/videoframe_i420.cpp:21-26 | after copy-assignment the target owns fresh storage with the right-hand side's bytes, length, columns and rows, even when that side was an alias |
| VideoFrames.CopyOutlivesSource | src/api/videoframe_i420.cpp:21-43 | a write to the aliased storage shows through the alias and leaves an assigned copy unchanged |
| VideoTargets.CheckFiletypeSupport | src/api/ivideotarget.h:64-87 | an empty path, then a path no longer than the type plus one, then a wrong suffix are rejected with their own messages; the check passes exactly when none applies |
| VideoTargets.UnsupportedMessageNamesPathAndType | src/api/ivideotarget.h:72-83 | the wrong-suffix message contains both the path and the required type |
| VideoTargets.DotNotRequired | src/api/ivideotarget.h:70-75 | only the suffix is compared: "videomp4" passes for "mp4", while ".mp4" is too short |
| VideoTargets.VideoTarget.Append | src/api/ivideotarget.h:29-39 | a frame of the target's colour space is written after the earlier ones; any other frame is refused and nothing is written (`append` is pure virtual; a writer that fails only on a colour mismatch stands in for the concrete ones) |
| VideoTargets.VideoTarget.Update | src/api/ivideotarget.h:48-51 | `update` has exactly the outcome and effect of `append` |
| PixelinkSource.VideoSourcePixelink.constructor | src/pixelink_sdk/pixelinksdk_video_source.cpp:7-60 | only BAYER8 is accepted: it becomes UYVY with the colour flag set and the ROI set to the 1920x1080 full frame; any other request leaves the source unset |
| PixelinkSource.VideoSourcePixelink.GetFrameDimensions | src/pixelink_sdk/pixelinksdk_video_source.cpp:69-74 | always succeeds and reports the ROI's width and height |
| PixelinkSource.VideoSourcePixelink.GetFrame | src/pixelink_sdk/pixelinksdk_video_source.cpp:76-108 | succeeds exactly when the frame's colour is the source's and the grab succeeds; a frame of another colour is refused before any grab, leaving frame and buffer untouched; otherwise the buffer holds what the grab left there even when it fails; only a successful grab initialises the frame, with the grabbed bytes and the ROI's dimensions |
| PixelinkSource.VideoSourcePixelink.GetFrameRate | src/pixelink_sdk/pixelinksdk_video_source.cpp:144-150 | the frame rate is the constant 30 |
| PixelinkSource.VideoSourcePixelink.SetSubFrame | src/pixelink_sdk/pixelinksdk_video_source.cpp:152-169 | the ROI and full frame are unchanged |
| PixelinkSource.VideoSourcePixelink.GetFullFrame | src/pixelink_sdk/pixelinksdk_video_source.cpp:171-177 | the ROI becomes the full frame and nothing else changes |
| PixelinkSource.NextGrabShowsThroughAlias | src/pixelink_sdk/pixelinksdk_video_source.cpp:76-108 | a non-owning frame shares the grab buffer, so the next grab changes its bytes, while an owning frame keeps the first grab |
| PixelinkSource.FailedGrabShowsThroughAlias | src/pixelink_sdk/pixelinksdk_video_source.cpp:84-90 | the grab writes the buffer before its return code is tested, so a non-owning frame from an earlier grab shows what a failed grab left behind |
| FeaturePolling.SamePollFunctions | src/pixelink_sdk/samples/captureOEMLite/featurePoller.cpp:33-37 | two entries compare equal exactly when both function pointers are equal |
| FeaturePolling.FeaturePoller.constructor | src/pixelink_sdk/samples/captureOEMLite/featurePoller.cpp:41-49 | the list starts empty and the polls per update are the update interval divided by 200, rounded down |
| FeaturePolling.FeaturePoller.PollAdd | src/pixelink_sdk/samples/captureOEMLite/featurePoller.cpp:60-67 | the list becomes the add-if-absent list, and nothing else changes |
| FeaturePolling.FeaturePoller.PollRemove | src/pixelink_sdk/samples/captureOEMLite/featurePoller.cpp:69-77 | the list becomes the list with its first equal entry erased, and nothing else changes |
| FeaturePolling.FeaturePoller.UpdateFeatureControls | src/pixelink_sdk/samples/captureOEMLite/featurePoller.cpp:79-91 | each entry's update function is called exactly once, in list order |
| FeaturePolling.AddedKeepsOrder | src/pixelink_sdk/samples/captureOEMLite/featurePoller.cpp:64-66 | the old list is a prefix of the new one, which is unchanged when the entry was present and one longer otherwise |
| FeaturePolling.AddedIdempotent | src/pixelink_sdk/samples/captureOEMLite/featurePoller.cpp:64-66 | adding twice is adding once |
| FeaturePolling.AddedNoDuplicates | src/pixelink_sdk/samples/captureOEMLite/featurePoller.cpp:64-66 | adding keeps the list free of duplicates |
| FeaturePolling.RemovedDeletes | src/pixelink_sdk/samples/captureOEMLite/featurePoller.cpp:73-76 | in a duplicate-free list, removal leaves no equal entry, keeps every other entry and adds no duplicate |
| FeaturePolling.RemovedSize | src/pixelink_sdk/samples/captureOEMLite/featurePoller.cpp:73-76 | removal erases exactly one entry when one is present and is a no-op otherwise |
| FeaturePolling.AddThenRemove | src/pixelink_sdk/samples/captureOEMLite/featurePoller.cpp:60-77 | adding a new entry and removing it gives back the original list |
| SimpleGuiCamera.Open | src/pixelink_sdk/samples/simpleGui/camera.cpp:42-63 | the constructor fails with the initialisation code exactly when initialisation fails; otherwise a fresh camera with that serial number |
| SimpleGuiCamera.PxLCamera.Opened | src/pixelink_sdk/samples/simpleGui/camera.cpp:42-63 | after a successful initialisation the 32-bit serial number is recorded, both states are stopped, and the preview settings are applied with the title that `%d` of the serial gives |
| SimpleGuiCamera.PreviewTitleShowsSerial | src/pixelink_sdk/samples/simpleGui/camera.cpp:60 | the preview title is "Preview - Camera " followed by `%d` of the serial: `atoi` reads the serial back, and the number is negative exactly for serials of 2^31 or more |
| SimpleGuiCamera.PxLCamera.Play | src/pixelink_sdk/samples/simpleGui/camera.cpp:70-94 | the recorded states, the calls issued and the code returned are those of `play`'s outcome for the previous states and the two answers |
| SimpleGuiCamera.PxLCamera.Pause | src/pixelink_sdk/samples/simpleGui/camera.cpp:96-112 | the same for `pause` |
| SimpleGuiCamera.PxLCamera.Stop | src/pixelink_sdk/samples/simpleGui/camera.cpp:114-126 | the same for `stop` |
| SimpleGuiCamera.PlayStartsStreamOnlyWhenNeeded | src/pixelink_sdk/samples/simpleGui/camera.cpp:73-80 | `play` issues a stream start exactly when the stream is not recorded as started |
| SimpleGuiCamera.PlayFailure | src/pixelink_sdk/samples/simpleGui/camera.cpp:70-94 | a failed stream start changes no state; a failed preview start records the stream as stopped, even a paused one, and leaves the preview state alone |
| SimpleGuiCamera.SuccessReachesRequestedState | src/pixelink_sdk/samples/simpleGui/camera.cpp:70-126 | a success code from play, pause or stop means both states are the requested ones |
| SimpleGuiCamera.StopAndPauseFailures | src/pixelink_sdk/samples/simpleGui/camera.cpp:96-126 | once the preview stops, `stop` records both as stopped even if the stream stop fails; a failed preview stop or a failed pause changes nothing |
| CameraSelect.CameraSelectCombo.constructor | src/pixelink_sdk/samples/simpleGui/cameraSelectCombo.cpp:16-28 | every list is empty, no camera is selected or requested, and no rebuild is in progress |
| CameraSelect.CameraSelectCombo.GetSelectedCamera | src/pixelink_sdk/samples/simpleGui/cameraSelectCombo.cpp:38-45 | 0 for the "No Camera" row or no active row; otherwise `atoi` of the active row's text, converted to a 32-bit ULONG, which is the camera listed in that row for every 32-bit serial |
| CameraSelect.CameraSelectCombo.ScanForCameras | src/pixelink_sdk/samples/simpleGui/cameraSelectCombo.cpp:47-75 | the connected list is replaced by the reported serial numbers, or emptied when a query fails; the failing code is returned |
| CameraSelect.CameraSelectCombo.IsConnected | src/pixelink_sdk/samples/simpleGui/cameraSelectCombo.cpp:77-88 | true exactly when the serial number is in the connected list |
| CameraSelect.CameraSelectCombo.Rebuild | src/pixelink_sdk/samples/simpleGui/cameraSelectCombo.cpp:109-193 | afterwards the selected camera is the requested one; a partial or a full rebuild is chosen as the source does; the rows show the resulting list |
| CameraSelect.AppendOthers | src/pixelink_sdk/samples/simpleGui/cameraSelectCombo.cpp:140-146 | every connected camera other than the requested one is appended to the list, in order, and its serial text to the rows |
| CameraSelect.RemoveNonActiveRows | src/pixelink_sdk/samples/simpleGui/cameraSelectCombo.cpp:134-137 | removing rows from the last down to row 2 leaves the first two rows |
| CameraSelect.CameraSelectCombo.RebuildRowsAfterSelected | src/pixelink_sdk/samples/simpleGui/cameraSelectCombo.cpp:128-146 | the partial branch on the combo: the list becomes the selected camera and the other connected cameras, the rows stay aligned, the active row and the selection are kept |
| CameraSelect.CameraSelectCombo.RebuildAllRows | src/pixelink_sdk/samples/simpleGui/cameraSelectCombo.cpp:147-175 | the full branch on the combo: the list is rebuilt from the requested camera, which becomes the selected one, and its row (or "No Camera") becomes active |
| CameraSelect.RowsAfterSelected | src/pixelink_sdk/samples/simpleGui/cameraSelectCombo.cpp:128-146 | the kept "No Camera" and selected-camera rows, followed by the new rows, are exactly the rows of the new list |
| CameraSelect.PartialRebuild | src/pixelink_sdk/samples/simpleGui/cameraSelectCombo.cpp:128-146 | the list becomes the selected camera followed by the other connected cameras, and the rows stay aligned with it |
| CameraSelect.FullRebuild | src/pixelink_sdk/samples/simpleGui/cameraSelectCombo.cpp:147-175 | the list becomes the requested camera (if any) followed by the other connected cameras; the requested row, or "No Camera", is active |
| CameraSelect.CameraSelectCombo.NewCameraSelected | src/pixelink_sdk/samples/simpleGui/cameraSelectCombo.cpp:263-304 | ignored during a rebuild; otherwise the requested camera becomes the selection |
| CameraSelect.RequestedListedOnce | src/pixelink_sdk/samples/simpleGui/cameraSelectCombo.cpp:128-175 | in both rebuilds no entry after the first is the requested camera |
| CameraSelect.ListedCameras | src/pixelink_sdk/samples/simpleGui/cameraSelectCombo.cpp:128-175 | both rebuilds list exactly the connected cameras and the requested one |
| CameraSelect.RowsReadBack | src/pixelink_sdk/samples/simpleGui/cameraSelectCombo.cpp:38-45 | glibc's `atoi` of an aligned row's `%d` text, converted to a 32-bit ULONG, gives back the camera it was built from, including serials that `%d` shows as negative |
| CameraSelect.HighSerialShownNegative | src/pixelink_sdk/samples/simpleGui/cameraSelectCombo.cpp:144 | `%d` of a ULONG serial shows a minus sign exactly when the serial is 2^31 or more |
| CameraSelect.SerialTextsAt | src/pixelink_sdk/samples/simpleGui/cameraSelectCombo.cpp:144 | the text of each row is `%d` of its serial number: its 32 bits as a signed int, in decimal |
| NextFrameSample.GetNextFrame | src/pixelink_sdk/samples/getNextFrame/getNextFrame.cpp:83-114 | returns the retry outcome that stops on a success, a stopped stream or no camera; `uSize` is restored before every call; the last call's size is kept |
| NextFrameSample.WrapperPromises | src/pixelink_sdk/samples/getNextFrame/getNextFrame.cpp:91-113 | at most the given number of calls; the first success or stop code is returned at once; with zero tries ApiUnknownError is returned and the camera is not called |
| Retries.RetryFromMeans | src/pixelink_sdk/samples/getNextFrame/getNextFrame.cpp:91-113 | a retry loop from any attempt stops at the first answer that ends retries, or returns the last answer when the tries run out |
| Retries.RetryOutcomeMeans | src/pixelink_sdk/samples/getNextFrame/getNextFrame.cpp:91-113 | the call count is at most the tries; the returned code is the answer to the last call; every earlier answer was retried |
| Retries.SucceedsIffSomeAnswerSucceeds | src/pixelink_sdk/samples/getNextFrame/getNextFrame.cpp:91-113 | a loop stopping on success returns a success exactly when some answer within the tries is one |
| MultipleSnapshots.GetPixelSize | src/pixelink_sdk/samples/getMultipleSnapshots/getsnapshot.c:168-205 | the bytes per pixel match each listed format's storage size; 0 exactly for unlisted formats, the 12-bit packed ones and RGB24_NON_DIB, which the switch does not list |
| MultipleSnapshots.DetermineRawImageSize | src/pixelink_sdk/samples/getMultipleSnapshots/getsnapshot.c:123-161 | (w/pa)(h/pa) times the pixel size, cut to 32 bits; 0 for a format without a size |
| MultipleSnapshots.NoWrapBeforeScaling | src/pixelink_sdk/samples/getMultipleSnapshots/getsnapshot.c:150-160 | when the whole product fits in 32 bits, the two-step truncation gives the exact size |
| MultipleSnapshots.UnknownFormatHasNoSize | src/pixelink_sdk/samples/getMultipleSnapshots/getsnapshot.c:155-160 | an unlisted or 12-bit packed format gives a raw size of 0 |
| MultipleSnapshots.GetNextFrame | src/pixelink_sdk/samples/getMultipleSnapshots/getsnapshot.c:98-115 | at most four calls, stopping at the first success, with `uSize` reset before each |
| MultipleSnapshots.GetNextFrameOutcome | src/pixelink_sdk/samples/getMultipleSnapshots/getsnapshot.c:105-114 | the grab succeeds exactly when one of the first four answers is a success; otherwise the fourth failure is returned |
| MultipleSnapshots.GetRawImage | src/pixelink_sdk/samples/getMultipleSnapshots/getsnapshot.c:68-91 | SUCCESS exactly when the retrying grab returns a success code |
| MultipleSnapshots.GetSnapshot | src/pixelink_sdk/samples/getMultipleSnapshots/getsnapshot.c:16-59 | a raw size of 0 fails before allocating; otherwise success exactly when allocation, grab, encoding and saving succeed |
| FastSnapshots.GetPixelSizeHalves | src/pixelink_sdk/samples/fastMotionVideo/getsnapshot.cpp:171-216 | the pixel size in half bytes matches each listed format's storage size, 12-bit packed formats included; 0 otherwise |
| FastSnapshots.ScaledSize | src/pixelink_sdk/samples/fastMotionVideo/getsnapshot.cpp:163 | the pixel count times the pixel size, truncated to whole bytes, which the float product gives exactly while the size stays below 2^23 bytes; 0 for a format without a size |
| FastSnapshots.DetermineRawImageSize | src/pixelink_sdk/samples/fastMotionVideo/getsnapshot.cpp:108-164 | 0 when a query fails or the mask check rejects the width or height; a nonzero size implies a sized format |
| FastSnapshots.DetermineRawImageSizeAligned | src/pixelink_sdk/samples/fastMotionVideo/getsnapshot.cpp:150-161 | the same, with the alignment check meant: width and height must be whole multiples of the factor |
| FastSnapshots.MaskTestsPowersOfTwo | src/pixelink_sdk/samples/fastMotionVideo/getsnapshot.cpp:150-157 | for the factors 1, 2, 4 and 8 the mask check is exactly a divisibility test |
| FastSnapshots.MaskWrongForThreeAndSix | src/pixelink_sdk/samples/fastMotionVideo/getsnapshot.cpp:156-159 | for the factors 3 and 6 the mask check is wrong both ways: a 6x6 ROI at 3 is rejected, 1000 at 3 passes, 12 at 6 is rejected |
| FastSnapshots.AlignedSizeCoversRoi | src/pixelink_sdk/samples/fastMotionVideo/getsnapshot.cpp:150-163 | an ROI the aligned check accepts is covered exactly by whole blocks, and while the float product is exact the size is the block count times the pixel size |
| FastSnapshots.GetRawImage | src/pixelink_sdk/samples/fastMotionVideo/getsnapshot.cpp:82-100 | SUCCESS only for ApiSuccess itself; warnings count as failure |
| FastSnapshots.GetSnapshot | src/pixelink_sdk/samples/fastMotionVideo/getsnapshot.cpp:32-71 | the raw size is determineRawImageSize of the camera's answers; a size of 0 (a failed query, an ROI the mask check rejects, a format without a size) fails before allocating; otherwise success exactly when allocation, grab, encoding and saving succeed |
| CallbackSample.GetBytesPerPixel | src/pixelink_sdk/samples/callback/callback.cpp:251-276 | each listed format's bytes per pixel match its storage size; 0 exactly for unlisted and 12-bit packed formats |
| CallbackSample.GetPixelFormatAsString | src/pixelink_sdk/samples/callback/callback.cpp:226-249 | a listed format gets a "PIXEL_FORMAT_" name; "Unknown data format" exactly for the others |
| CallbackSample.NamedExactlyWhenSized | src/pixelink_sdk/samples/callback/callback.cpp:226-276 | the two tables list the same formats |
| CallbackSample.BrightenRegion | src/pixelink_sdk/samples/callback/callback.cpp:165-186 | exactly the bytes of the pixels in the region's rows and columns go through the byte operation; every other byte is unchanged |
| CallbackSample.BrightenSpan | src/pixelink_sdk/samples/callback/callback.cpp:170-184 | one row's span of bytes goes through the byte operation and nothing else changes |
| CallbackSample.CallbackFormatPreview | src/pixelink_sdk/samples/callback/callback.cpp:141-191 | the middle fifth of the frame, rows and columns from two fifths to three fifths, is brightened as written; the callback returns success |
| CallbackSample.SpanByteIsPixelByte | src/pixelink_sdk/samples/callback/callback.cpp:165-186 | a byte of a row's span is a byte of a pixel in that row within the region's columns |
| CallbackSample.BrightenAsWritten | src/pixelink_sdk/samples/callback/callback.cpp:173-179 | `b + b/5` stored back into a byte: exact up to 255, wrapped by 256 above |
| CallbackSample.BrightenAsWrittenWraps | src/pixelink_sdk/samples/callback/callback.cpp:173-179 | a byte of 250 becomes 44, and every byte from 214 up gets darker |
| CallbackSample.BrightenSaturating | src/pixelink_sdk/samples/callback/callback.cpp:173-179 | never darker: `b + b/5`, or 255 when that does not fit |
| CallbackSample.SaturatingAgreesBelowOverflow | src/pixelink_sdk/samples/callback/callback.cpp:173-179 | the saturating and as-written operations agree exactly when there is no overflow |
| CStrings.ToInt32 | src/pixelink_sdk/samples/fastMotionVideo/fastMotionVideo.cpp:326 | the conversion to a 32-bit int that ends `atoi`: always within the int range, the identity on it, and the same low 32 bits |
| CStrings.CAtoi | src/pixelink_sdk/samples/fastMotionVideo/fastMotionVideo.cpp:326 | `atoi` as glibc computes it: within the int range, and equal to the decimal value of the text whenever that fits |
| CStrings.AtoiDecimal | src/pixelink_sdk/samples/simpleGui/cameraSelectCombo.cpp:44 | reading back the decimal text of a number gives the number |
| CStrings.CAtoiIntText | src/pixelink_sdk/samples/simpleGui/cameraSelectCombo.cpp:44 | glibc's `atoi` reads back any int that `sprintf("%d")` printed |
| CStrings.AsInt32 | src/pixelink_sdk/samples/simpleGui/cameraSelectCombo.cpp:144 | an unsigned 32-bit value passed to `%d` is read as the int with the same bits: within the int range, unchanged below 2^31, and converting back to 32 bits restores it |
| CStrings.AtoiNoNumber | src/pixelink_sdk/samples/fastMotionVideo/fastMotionVideo.cpp:326 | text that starts with neither white space, a sign nor a digit reads as 0 |
| CStrings.Strlen | src/pixelink_sdk/samples/slowMotionVideo/slowMotionVideo.cpp:338 | the index of the buffer's first NUL, or none when it holds no NUL |
| CStrings.Strncpy | src/pixelink_sdk/samples/slowMotionVideo/slowMotionVideo.cpp:337 | the first n characters of the source, NUL-padded when it is shorter; the rest of the buffer is unchanged |
| CStrings.Strncat | src/pixelink_sdk/samples/slowMotionVideo/slowMotionVideo.cpp:338 | defined exactly when the buffer is terminated and has room for the appended characters and the NUL |
| CStrings.CStringOfTerminated | src/pixelink_sdk/samples/slowMotionVideo/slowMotionVideo.cpp:337-338 | a NUL-free text followed by a NUL reads back as that text |
| FastMotionArgs.Scan | src/pixelink_sdk/samples/fastMotionVideo/fastMotionVideo.cpp:320-353 | the option loop keeps the checked settings checked: record time, decimation and frame rate at least 1 |
| FastMotionArgs.Parse | src/pixelink_sdk/samples/fastMotionVideo/fastMotionVideo.cpp:296-376 | 2 to 10 arguments; accepted settings are checked, the record time is at least the image period, and the file name is the last argument |
| FastMotionArgs.ScanOptions | src/pixelink_sdk/samples/fastMotionVideo/fastMotionVideo.cpp:320-353 | the option loop stops with an error exactly where `Scan` refuses a value or a token, and otherwise ends with the settings `Scan` yields from the defaults |
| FastMotionArgs.GetParameters | src/pixelink_sdk/samples/fastMotionVideo/fastMotionVideo.cpp:296-376 | the loop with its manually advanced index yields what `Parse` accepts; A_OK exactly then, otherwise an error |
| FastMotionArgs.DefaultsWithoutOptions | src/pixelink_sdk/samples/fastMotionVideo/fastMotionVideo.cpp:34-39 | with only a file name, the defaults 300, 5, 10 and 25 are kept |
| FastMotionArgs.LaterOptionWins | src/pixelink_sdk/samples/fastMotionVideo/fastMotionVideo.cpp:320-353 | an option overrides whatever an earlier occurrence of it set |
| FastMotionArgs.OptionValueMayBeTheFileName | src/pixelink_sdk/samples/fastMotionVideo/fastMotionVideo.cpp:340-359 | the value of `-i` may be the last argument, which then also becomes the file name |
| FastMotionArgs.NegativeImagePeriodRefused | src/pixelink_sdk/samples/fastMotionVideo/fastMotionVideo.cpp:340-364 | `-i` checks nothing, but a negative value wraps to a huge period and fails the final check |
| SlowMotionArgs.Scan | src/pixelink_sdk/samples/slowMotionVideo/slowMotionVideo.cpp:296-323 | the option loop keeps the settings checked: record time and frame rate at least 1, bit rate at least 1000 |
| SlowMotionArgs.Parse | src/pixelink_sdk/samples/slowMotionVideo/slowMotionVideo.cpp:273-340 | 2 to 8 arguments; accepted settings are checked, and the last argument does not start with '-' |
| SlowMotionArgs.ScanOptions | src/pixelink_sdk/samples/slowMotionVideo/slowMotionVideo.cpp:296-323 | the option loop stops with an error exactly where `Scan` refuses a value or a token, and otherwise ends with the settings `Scan` yields from the defaults |
| SlowMotionArgs.GetParameters | src/pixelink_sdk/samples/slowMotionVideo/slowMotionVideo.cpp:273-340 | yields what `Parse` accepts, with A_OK exactly then; the caller's zero-filled buffer is untouched on failure and on success holds what `strncpy` and `strncat` over the whole 256 bytes write, which is undefined (None) for a name of 252 characters or more |
| SlowMotionArgs.DefaultsWithoutOptions | src/pixelink_sdk/samples/slowMotionVideo/slowMotionVideo.cpp:39-41 | with only a video name, record time 20, a third of the default bit rate and 25 frames per second are kept |
| SlowMotionArgs.LaterOptionWins | src/pixelink_sdk/samples/slowMotionVideo/slowMotionVideo.cpp:296-323 | an option overrides whatever an earlier occurrence of it set |
| SlowMotionArgs.AviFileAsWrittenOverflows | src/pixelink_sdk/samples/slowMotionVideo/slowMotionVideo.cpp:337-338 | the copy and append stay inside the 256-byte buffer exactly when the name is shorter than 252; the buffer then holds the name and ".avi" |
| SlowMotionArgs.AppendAvi | src/pixelink_sdk/samples/slowMotionVideo/slowMotionVideo.cpp:338 | appending ".avi" after a NUL-free text with four characters to spare writes the extension and a NUL, and the buffer then reads as the text with ".avi" |
| SlowMotionArgs.AviFileAlwaysFits | src/pixelink_sdk/samples/slowMotionVideo/slowMotionVideo.cpp:337-338 | with the copy bounded, the writes always fit, whatever the name |
| SlowMotionArgs.AviFileFits | src/pixelink_sdk/samples/slowMotionVideo/slowMotionVideo.cpp:337-338 | the bounded buffer holds the name, cut to 251 characters, and ".avi" |
| PixelAddressing.TruncateToInt | src/pixelink_sdk/samples/captureOEMLite/pixelAddress.h:88 | C's float-to-int conversion: the fraction is dropped towards zero |
| PixelAddressing.ModeToApi | src/pixelink_sdk/samples/captureOEMLite/pixelAddress.h:98-108 | a mode's API constant, a whole number |
| PixelAddressing.ModeFromApi | src/pixelink_sdk/samples/captureOEMLite/pixelAddress.h:86-96 | the mode whose constant equals the truncated argument; decimation for any other value |
| PixelAddressing.ValueToApi | src/pixelink_sdk/samples/captureOEMLite/pixelAddress.h:125-137 | the factor of each value: 1 for none, then 2, 3, 4, 6 and 8 |
| PixelAddressing.ValueFromApi | src/pixelink_sdk/samples/captureOEMLite/pixelAddress.h:110-123 | the value whose factor equals the truncated argument; none for 0, 1 and every unlisted number |
| PixelAddressing.ValueRoundTrip | src/pixelink_sdk/samples/captureOEMLite/pixelAddress.h:110-137 | every value survives the trip to the API and back |
| PixelAddressing.ModeRoundTrip | src/pixelink_sdk/samples/captureOEMLite/pixelAddress.h:86-108 | with distinct constants, every mode survives the trip to the API and back |
| PixelAddressing.ProbeRange | src/pixelink_sdk/samples/captureOEMLite/pixelAddress.cpp:81-104 | a probing loop tries every candidate strictly between the bounds, keeps the accepted ones in order, and flags a restore exactly when one differs from the current setting |
| PixelAddressing.PopulateAddress | src/pixelink_sdk/samples/captureOEMLite/pixelAddress.cpp:65-127 | the two entry lists and the camera calls are those the specification functions give |
| PixelAddressing.PixelAddressControl.constructor | src/pixelink_sdk/samples/captureOEMLite/pixelAddress.cpp:13-17 | the constructor only stores the two combo widgets, so both lists start empty with no active rows, as the widgets come from the UI description |
| PixelAddressing.PixelAddressControl.Initialize | src/pixelink_sdk/samples/captureOEMLite/pixelAddress.cpp:33-146 | the lists are cleared and stay empty without a camera or support; otherwise they are filled by probing, and the current mode and value become active when listed |
| PixelAddressing.AcceptedAreProbedInOrder | src/pixelink_sdk/samples/captureOEMLite/pixelAddress.cpp:81-104 | the intermediate values and modes are exactly the accepted candidates between min and max, probed in the current mode or with the maximum value, in increasing order |
| PixelAddressing.EntriesRunFromMinToMax | src/pixelink_sdk/samples/captureOEMLite/pixelAddress.cpp:65-127 | both lists start with the minimum and end with the maximum exactly when it exceeds the minimum |
| PixelAddressing.RestoreComesLast | src/pixelink_sdk/samples/captureOEMLite/pixelAddress.cpp:85-110 | the current mode and value are set back, as the last call, exactly when an accepted candidate differs from them |
| PixelAddressing.ModeSelected | src/pixelink_sdk/samples/captureOEMLite/pixelAddress.cpp:148-166 | acts exactly with a camera, two selected rows and a value other than none, and sets the selected mode and value |
| PixelAddressing.ValueSelected | src/pixelink_sdk/samples/captureOEMLite/pixelAddress.cpp:168-185 | acts exactly with a camera and two selected rows, a value of none included |
| PixelFormatControl.ScanFormats | src/pixelink_sdk/samples/captureOEMLite/pixelFormat.cpp:48-78 | the entries start with the minimum's, never repeat, and a restore is needed exactly when a candidate was added |
| PixelFormatControl.ProbeFormats | src/pixelink_sdk/samples/captureOEMLite/pixelFormat.cpp:57-78 | the candidate loop yields the scan over every candidate strictly between min and max |
| PixelFormatControl.PixelFormatChooser.constructor | src/pixelink_sdk/samples/captureOEMLite/pixelFormat.cpp:14-17 | the constructor only stores the combo widget, so there are no entries and no active row, as the widget comes from the UI description |
| PixelFormatControl.PixelFormatChooser.Initialize | src/pixelink_sdk/samples/captureOEMLite/pixelFormat.cpp:31-101 | the list is cleared and stays empty without a camera or support; otherwise it holds the probed entries, and the first entry equal to the current format becomes active |
| PixelFormatControl.FormatEntriesDistinct | src/pixelink_sdk/samples/captureOEMLite/pixelFormat.cpp:52-90 | the final list, maximum included, never holds an entry twice and starts with the minimum's |
| PixelFormatControl.ScanMembers | src/pixelink_sdk/samples/captureOEMLite/pixelFormat.cpp:57-76 | an entry is listed exactly when it is the minimum's or that of an accepted candidate |
| PixelFormatControl.RestoreIffAccepted | src/pixelink_sdk/samples/captureOEMLite/pixelFormat.cpp:70-78 | the current format is set back, as the last call, exactly when a candidate was accepted |
| Rois.RoiEquals | src/pixelink_sdk/samples/captureOEMLite/roi.h:21 | two ROIs are equal exactly when widths and heights are |
| Rois.RoiDiffers | src/pixelink_sdk/samples/captureOEMLite/roi.h:22 | exactly the negation of equality |
| Rois.RoiEntries | src/pixelink_sdk/samples/captureOEMLite/roi.cpp:88-119 | the list is never empty and its last entry is the maximum ROI |
| Rois.AnyDiffersMeans | src/pixelink_sdk/samples/captureOEMLite/roi.cpp:91-134 | the restore test means some accepted ROI differs from the current one |
| Rois.RoiControl.constructor | src/pixelink_sdk/samples/captureOEMLite/roi.cpp:31-34 | no entries, no rows, no active row |
| Rois.RoiControl.GreyAll | src/pixelink_sdk/samples/captureOEMLite/roi.cpp:41-45 | the combo loses its rows and nothing else changes |
| Rois.RoiControl.Initialize | src/pixelink_sdk/samples/captureOEMLite/roi.cpp:48-147 | the list is cleared and stays empty without a camera or ROI feature; otherwise it holds the probed ROIs and the maximum, row i shows entry i, and the current ROI becomes active when listed |
| Rois.PopulateRois | src/pixelink_sdk/samples/captureOEMLite/roi.cpp:86-144 | the entries, rows and camera calls are those the specification functions give |
| Rois.ProbeStandardRois | src/pixelink_sdk/samples/captureOEMLite/roi.cpp:86-105 | every standard ROI is tried in order; the accepted ones are listed in order; a restore is flagged exactly when one differs from the current ROI |
| Rois.InsertRow | src/pixelink_sdk/samples/captureOEMLite/roi.cpp:98-101 | inserting at the position equal to the entry count keeps row i showing entry i |
| Rois.ProbedAreAcceptedStandard | src/pixelink_sdk/samples/captureOEMLite/roi.cpp:88-103 | the probed entries are exactly the accepted standard ROIs, and only when both dimensions have a range |
| Rois.RestoreCallsComeLast | src/pixelink_sdk/samples/captureOEMLite/roi.cpp:91-134 | without a restore every call probes a standard ROI; with one, the calls end with the current ROI and then the frame-rate setting |
| Rois.FixedCameraNeedsNoRestore | src/pixelink_sdk/samples/captureOEMLite/roi.cpp:111-125 | a camera at its maximum with no range lists only the maximum and receives no call |
| ImageCapture.ExtensionShape | src/pixelink_sdk/samples/captureOEMLite/imageCapture.h:27-34 | every extension of the table starts with its only '.' and holds no NUL |
| ImageCapture.LastIndexOf | src/pixelink_sdk/samples/captureOEMLite/imageCapture.cpp:72 | `strrchr`: none exactly when the character is absent, otherwise its last position |
| ImageCapture.DefaultName | src/pixelink_sdk/samples/captureOEMLite/imageCapture.cpp:28-43 | the working directory followed by "/image.bmp", or empty exactly when the directory is unknown |
| ImageCapture.SelectorName | src/pixelink_sdk/samples/captureOEMLite/imageCapture.cpp:108-114 | the folder followed by "/image" and the type's extension |
| ImageCapture.RetypeName | src/pixelink_sdk/samples/captureOEMLite/imageCapture.cpp:70-83 | a replacement happens exactly when a known extension begins the text from the last dot; the result is the retyped name |
| ImageCapture.CaptureControls.constructor | src/pixelink_sdk/samples/captureOEMLite/imageCapture.cpp:14-20 | the constructor only stores the four widgets; their initial state (the entry's given name, no folder or type chosen, controls enabled) comes from the UI description, not from the C++ |
| ImageCapture.CaptureControls.GreyAll | src/pixelink_sdk/samples/captureOEMLite/imageCapture.cpp:23-44 | the controls are disabled with no type selected, and the entry shows the default name |
| ImageCapture.CaptureControls.EnableCaptures | src/pixelink_sdk/samples/captureOEMLite/imageCapture.cpp:47-54 | the controls follow the flag, and BMP is selected exactly when enabling |
| ImageCapture.CaptureControls.NewImageCaptureTypeSelected | src/pixelink_sdk/samples/captureOEMLite/imageCapture.cpp:56-85 | without a camera or a type nothing changes; otherwise the name is retyped |
| ImageCapture.CaptureControls.FileSelectorButtonPressed | src/pixelink_sdk/samples/captureOEMLite/imageCapture.cpp:98-115 | without a camera or a type nothing changes; otherwise the name is the chosen folder's image name |
| ImageCapture.LastDotOfDotLed | src/pixelink_sdk/samples/captureOEMLite/imageCapture.cpp:72 | the last dot of a name ending in an extension is the extension's own |
| ImageCapture.RetypeLastChoiceWins | src/pixelink_sdk/samples/captureOEMLite/imageCapture.cpp:70-83 | choosing one type and then another gives the name that choosing the second alone gives |
| ImageCapture.NoDotNoChange | src/pixelink_sdk/samples/captureOEMLite/imageCapture.cpp:72-75 | a name without a dot is left as written |
| ImageCapture.ExtensionIsPrefixTest | src/pixelink_sdk/samples/captureOEMLite/imageCapture.cpp:73-80 | a known extension followed by dot-free text is still replaced, the text dropped |
| ImageCapture.RetypedDefaultIsSelectorName | src/pixelink_sdk/samples/captureOEMLite/imageCapture.cpp:28-114 | retyping the default name gives what choosing the working directory would |
| CameraFeatures.DecodeFeatureFlags | src/pixelink_sdk/samples/getCameraFeature/camerafeatures.c:298-331 | the decoded lines end with an empty line |
| CameraFeatures.DecodeReportsSetFlagsInOrder | src/pixelink_sdk/samples/getCameraFeature/camerafeatures.c:298-331 | the decoded lines are the messages of the set flags, in the fixed order, then the empty line |
| CameraFeatures.ReportedFlagsAreTheSetOnes | src/pixelink_sdk/samples/getCameraFeature/camerafeatures.c:298-331 | a flag is reported exactly when its bit is set, and at most once |
| CameraFeatures.DecodeTriggerType | src/pixelink_sdk/samples/getCameraFeature/camerafeatures.c:239-248 | each known type's name exactly for its code, with distinct codes; the unknown text exactly for other codes |
| CameraFeatures.DecodePolarity | src/pixelink_sdk/samples/getCameraFeature/camerafeatures.c:250-259 | "negative polarity" exactly for 0, "positive polarity" exactly for 1, the unknown text otherwise |
| CameraFeatures.ParameterLinesAt | src/pixelink_sdk/samples/getCameraFeature/camerafeatures.c:41-45 | parameter i is reported in lines 3i to 3i+2: its index, minimum and maximum |
| CameraFeatures.PrintCameraFeature | src/pixelink_sdk/samples/getCameraFeature/camerafeatures.c:29-47 | the loop prints the feature's report |
| CameraFeatures.FeatureReportShape | src/pixelink_sdk/samples/getCameraFeature/camerafeatures.c:29-47 | an absent feature gets the single not-supported line; a present one gets its flags and each parameter's limits in order |
| CameraFeatures.FeatureIndex | src/pixelink_sdk/samples/getCameraFeature/camerafeatures.c:114-143 | the position of the first feature with the id, or -1 exactly when none has it |
| CameraFeatures.FindFeature | src/pixelink_sdk/samples/getCameraFeature/camerafeatures.c:132-137 | the search loop stops at the first match and yields that position or -1 |
| CameraFeatures.PrintFeatureParameterInfo2 | src/pixelink_sdk/samples/getCameraFeature/camerafeatures.c:109-151 | prints the report of the requested feature or says it was not found; the buffer is still held on return exactly when the list was read and lacks the id |
| CameraFeatures.PrintFeatureParameterInfo2Freed | src/pixelink_sdk/samples/getCameraFeature/camerafeatures.c:109-151 | the same lines, and the buffer is never held on return |
| CameraFeatures.MissingFeatureKeepsBuffer | src/pixelink_sdk/samples/getCameraFeature/camerafeatures.c:140-143 | an empty feature list makes the sample print "not found" and keep its buffer |

## Left out

- The frame-broadcast machinery (`BroadcastDaemon`, `IObservable`) is not part of this model. Neither are the poll thread of the feature poller, the scan thread of the camera-select combo, or the locks. Their point is concurrency.
- VideoFrames.VideoFrame.Assign: the old owned buffer is not freed first, and the leak is not modelled. `init_from_specs` of the unseen base frame class is assumed to behave like `init_from_pointer`.
- PixelinkSource.VideoSourcePixelink.constructor: the camera's initialisation, and the test frame it takes, are oracle inputs. The test frame is assumed not to own its data.
- The commented-out OpenCV Bayer conversion in the Pixelink source is dead code and is left out.
- PixeLINKApi.h is not part of this model. These constants of it are parameters with only a distinctness assumption:
  - the return codes beyond the few named ones;
  - `PIXEL_ADDRESSING_MODE_*`;
  - `FEATURE_FLAG_*`;
  - `TRIGGER_TYPE_*`;
  - `CLIP_PLAYBACK_BITRATE_DEFAULT`.
- PixelFormatControl.ScanFormats: pixelFormat.h is not part of this model, so the mapping of API values to entries is a parameter.
- GTK calls are dropped, and combo rows are modelled as the values they show. Insert positions are kept only for the ROI control.
- The float-typed probe candidates take whole values and are modelled as integers.
- PixelAddressing.ModeFromApi and ValueFromApi see the truncated argument. Float rounding of the API values is not modelled.
- CallbackSample.CallbackFormatPreview: the integer fifths are exact. The sample's own float arithmetic for the region bounds is not modelled.
- `NewPixelFormatSelected` and `NewRoiSelected` are left out. They only pass the selected entry on to the camera, and the pixel-format handler indexes its list without a guard.
- ImageCapture: the `FILENAME_MAX` buffers are not modelled, and names are assumed to fit. `ImageCaptureButtonPressed` is left out: it is camera capture and file I/O.
- CameraFeatures: the other `PrintFeature*` routines are left out. They wrap `PxLGetFeature` and printing around the same decoders. The debug asserts that check the returned sizes are left out too.
- Every `assert(0)` default branch is treated as in a release build, where it falls through to the value that follows.
- The `printf` lines of CameraFeatures are kept as returned lines, with numbers as values rather than formatted text. All other `printf` output is dropped:
  - CallbackSample.CallbackFormatPreview: the four lines about the callback's arguments (callback.cpp:147-151);
  - FastMotionArgs.GetParameters and SlowMotionArgs.GetParameters: the "Incorrect number of parameters" message (fastMotionVideo.cpp:312, slowMotionVideo.cpp:288);
  - NextFrameSample.GetNextFrame: the message about a failed attempt (getNextFrame.cpp:104);
  - CameraSelect.CameraSelectCombo.NewCameraSelected: the "Releasing", "Released" and "Grabbed" messages and the exception text (cameraSelectCombo.cpp:280-299).
- MultipleSnapshots.DetermineRawImageSize: a pixel-addressing value of 0 is excluded by its precondition, and so by those of GetSnapshot and UnknownFormatHasNoSize. The source divides by it unchecked (getsnapshot.c:150), which is undefined behaviour in C.
- FastSnapshots.DetermineRawImageSize: a pixel-addressing value of 0 that reaches the division (only with a 0 x 0 ROI, which the mask check lets through) is excluded by its precondition, and so by that of GetSnapshot. The source divides by it unchecked (getsnapshot.cpp:161), which is undefined behaviour in C.
- FastSnapshots.ScaledSize: the float product `(float)numPixels * pixelSize` is computed exactly and wrapped to 32 bits. It agrees with the source while the size stays below 2^23 bytes, which is all its contract and AlignedSizeCoversRoi promise. Above that, float rounding is not modelled, nor is the undefined cast of a product of 2^32 or more.
- CameraSelect.CameraSelectCombo.GetSelectedCamera: ULONG is taken to be 32 bits wide, the width of the SDK's serial numbers; SimpleGuiCamera's serial and preview title make the same assumption. The SDK's type header is not part of this model. With a 64-bit ULONG, the int that `atoi` returns would be sign-extended, and serials of 2^31 or more would not read back.
- VideoTargets.VideoTarget.Append: `append` is pure virtual. The model stands for a writer that fails only on a colour-space mismatch, and the failures of concrete writers are not modelled.
- FastSnapshots.DetermineRawImageSize: the vertical factor is read from the same parameter as the horizontal one, as the source does, so the model has a single factor.
- The `i+1 >= argc` guards in both option loops are omitted. The loop stops before the last argument, so they can never fire; the verified index `argv[i + 1]` in both loops relies on exactly that.
- The `main`s of the samples, image encoding and saving, terminal I/O, clocks and the frame-rate arithmetic of the video samples are left out. They are foreign calls or floating point.

## Findings

| source | as written | input that shows it | evidently intended | confidence | as-written member | corrected member |
|---|---|---|---|---|---|---|
| src/pixelink_sdk/samples/callback/callback.cpp:173-179 | the saturation test `b > b + b/5` is made after promotion to int, where it never holds, and `b + b/5` is then stored into a byte, so bright bytes wrap | a byte of 250 becomes 44 | bytes saturate at 255 | not executed | CallbackSample.BrightenAsWritten | CallbackSample.BrightenSaturating |
| src/pixelink_sdk/samples/fastMotionVideo/getsnapshot.cpp:156-159 | alignment is checked with the mask `~(paX-1)`, which is a multiple test only for powers of two | pixel addressing 3 on a 6x6 ROI gives size 0; 1000 passes for 3 | width and height must be multiples of the factor, which includes 3 and 6 | not executed | FastSnapshots.DetermineRawImageSize | FastSnapshots.DetermineRawImageSizeAligned |
| src/pixelink_sdk/samples/slowMotionVideo/slowMotionVideo.cpp:337-338 | `strncpy` and `strncat` are bounded by the whole 256-byte buffer, not by the room left | a last argument of 252 or more characters writes past the buffer | the copy leaves room for ".avi" and the NUL | not executed | SlowMotionArgs.AviFileAsWritten | SlowMotionArgs.AviFile |
| src/pixelink_sdk/samples/getCameraFeature/camerafeatures.c:140-143 | the not-found path returns before the feature list is freed at line 147 | a successful read of a list that lacks the requested id | the list is freed on every path | not executed | CameraFeatures.PrintFeatureParameterInfo2 | CameraFeatures.PrintFeatureParameterInfo2Freed |
