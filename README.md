# DirectShow camera session — a Dafny model

This project models the sequential logic inside `DSCameraSession`, the Qt
camera back end that drives a DirectShow capture graph on Windows. It does not
model the COM calls themselves. The outcome of each one becomes an input
value (an "oracle"): a `bool`, an `Option`, or a small record of them.

The model covers:

- **The frame gate and the frame queue.** The sample grabber callback
  (`BufferCB`) keeps one sample while `mCaptureNextFrame` is set, then closes
  the gate. `capture()` reopens it. `captureFrame` takes the oldest sample off
  the queue and decodes it.
- **Pixel decoding.** The RGB24 path flips the rows and swaps blue and red.
  The YUY2/YUYV path expands each 4-byte macropixel into two RGB pixels with
  `yuv2rgb`, then flips the rows.
- **The format catalogue and negotiation.** `updateProperties` records
  capture subtypes as surface formats with an integer frame rate.
  `setProperties` maps a requested format back to a capture subtype, a
  sample-grabber subtype and an optional decoder. It then offers each
  capability of matching size to the device until one is accepted.
- **Device selection.** This covers the device listing and the description
  lookup. It also covers the constructor's choice of device and the rule
  `createFilterGraph` uses to bind a capture filter.
- **The lifecycle flags** `graph`, `opened` and `active`, and how the stream
  operations move them.
- **The camera-control setters.** Each one chooses an Auto or Manual flag and
  a target property.

Modules and files:

- `media.dfy` (`MediaTypes`): value types and C integer division.
- `pixels.dfy` (`PixelConvert`): `yuv2rgb`, the YUY2 loop (corrected, and its
  accesses as written), and the RGB24 flip and swap.
- `formats.dfy` (`FormatCatalogue`): the subtype and pixel-format mappings,
  the frame rate, the catalogue and the negotiation.
- `devices.dfy` (`DeviceRegistry`): listing, description lookup, device
  choice and the binding loops.
- `controls.dfy` (`CameraControls`): the property setters.
- `lifecycle.dfy` (`SessionFlags`): the flag transitions, as pure functions.
- `session.dfy` (`CameraSession`): the `Session` class and the
  `SampleGrabberCallback` class. Their methods are specified by the functions
  above.

Source cells below name `dscamerasession.cpp` and `dscamerasession.h` at the
root of the repository.

## Model

| member | source | states |
|---|---|---|
| MediaTypes.TruncDiv | dscamerasession.cpp:666 | C integer division truncates toward zero. For a non-negative dividend the quotient is the floor; for a negative one it is the ceiling. |
| PixelConvert.Level | dscamerasession.cpp:367-373 | A channel is clamped to [0,255] and scaled by `*220/256`. The result is at most 219: it is 219 from 255 upward, 0 at or below 0, and `x*220/256` in between. |
| PixelConvert.Yuv2Rgb | dscamerasession.cpp:357-377 | The packed pixel is 4 bytes. Byte 3 is 0 and every colour channel lies in [0,219]. |
| PixelConvert.NeutralChroma | dscamerasession.cpp:363-373 | With u = v = 128, every channel is exactly `y*220/256` and byte 3 is 0. |
| PixelConvert.MidGray | dscamerasession.cpp:363-374 | `yuv2rgb(128,128,128)` is (110,110,110,0). |
| PixelConvert.Yuy2ToRgb | dscamerasession.cpp:327-342 | The decoded YUY2 image has exactly the requested number of bytes. |
| PixelConvert.Yuy2ByteOf | dscamerasession.cpp:336-341 | Output byte 6k+c is byte c of macropixel k. Bytes 0-2 are the conversion of (Y0,U,V); bytes 3-5 are the conversion of (Y1,U,V), read from sample bytes 4k..4k+3. The conversion is a parameter; `captureFrame` uses `yuv2rgb`. |
| PixelConvert.Yuy2MacropixelAt | dscamerasession.cpp:336-341 | The same per-macropixel layout, stated for each byte of the whole decoded image. |
| PixelConvert.Yuy2CoversImage | dscamerasession.cpp:327-336 | A sample of 2·W·H bytes (W·H even) provides a full macropixel for every byte of the W·H·3 image. |
| PixelConvert.StoreMacropixel | dscamerasession.cpp:339-340 | Storing one macropixel writes bytes 6k..6k+5 that lie inside the image with its two pixels, and no other byte. |
| PixelConvert.Yuy2ByteBeyond | dscamerasession.cpp:336 | Image bytes past the last complete macropixel of the sample are never written, so they keep the allocation's value (0 in this model; see Left out). |
| PixelConvert.DecodeYuy2 | dscamerasession.cpp:327-342 | The decode loop, bounded by both buffers, fills a W·H·3 array equal to `Yuy2ToRgb` of the sample, for any conversion that yields a 3-byte pixel. |
| PixelConvert.Yuy2AccessesAsWritten | dscamerasession.cpp:335-342 | The loop as written makes ⌈length/4⌉ passes. It reads up to offset 4·passes−1 and stores up to offset 6·passes. |
| PixelConvert.Yuy2StoreOverrun | dscamerasession.cpp:327-342 | For a 2·W·H-byte sample, the loop as written stores at offset W·H·3 or beyond. That is past the end of the image; it is exactly at W·H·3 when W·H is even. |
| PixelConvert.Yuy2ReadOverrun | dscamerasession.cpp:336-339 | Unless the length is a multiple of 4, the last pass reads past the end of the sample. |
| PixelConvert.Yuy2OverrunExample | dscamerasession.cpp:327-342 | A 2×1 image from a 4-byte sample: the loop stores at offset 6 of a 6-byte buffer. |
| PixelConvert.FlipVertical | dscamerasession.cpp:311 | Flipping the rows keeps the length. |
| PixelConvert.FlipVerticalAt | dscamerasession.cpp:311 | Row i of the flipped image is row H−1−i of the input, byte for byte. |
| PixelConvert.FlipVerticalInvolution | dscamerasession.cpp:311 | Flipping twice gives back the input. |
| PixelConvert.SwapRBAt | dscamerasession.cpp:312 | Channel c of each 3-byte pixel becomes channel 2−c. |
| PixelConvert.SwapRBInvolution | dscamerasession.cpp:312 | Swapping twice gives back the input. |
| PixelConvert.ConvertRgb24 | dscamerasession.cpp:310-312 | The RGB24 output has W·H·3 bytes and is read from the first W·H·3 bytes of the sample. |
| PixelConvert.FlipPixelAt | dscamerasession.cpp:311 | In a flipped W×H image of 3-byte pixels, byte k of pixel (row, col) is byte k of pixel (H−1−row, col). |
| PixelConvert.Rgb24PixelAt | dscamerasession.cpp:306-312 | Output pixel (row, col), channel c, equals input pixel (H−1−row, col), channel 2−c. |
| PixelConvert.FrameImage | dscamerasession.cpp:298-352 | Corrected (Findings, dscamerasession.cpp:351): an image is emitted exactly for RGB24, YUY2 and YUYV. It has the connected width and height and W·H·3 bytes. |
| PixelConvert.FrameImageAsWritten | dscamerasession.cpp:303-351 | As written, the RGB24 branch emits the converted image. |
| PixelConvert.Yuy2EmitsEmptyAsWritten | dscamerasession.cpp:321-351 | As written, the YUY2/YUYV branch emits the empty `dst` for every non-empty frame, not the decoded image. |
| FormatCatalogue.SurfaceFormatOf | dscamerasession.cpp:664-696 | Seven subtypes are recorded as surface formats. YUYV, H.263 and unknown subtypes are not (iff). |
| FormatCatalogue.PlanFor | dscamerasession.cpp:913-940 | An unknown format fails (iff). Otherwise the format maps back to the subtype it was recorded from (both directions). A decoder is needed exactly for MJPG and I420, and then the grabber gets RGB24; otherwise the grabber gets the input subtype. |
| FormatCatalogue.CDiv | dscamerasession.cpp:666 | Integer division truncating toward zero, for either sign of divisor: q·b is within one abs(b) of a, on the side of zero (q·b ≤ a < q·b + abs(b) for a ≥ 0, q·b − abs(b) < a ≤ q·b for a < 0), and q has the sign of a·b. |
| FormatCatalogue.FrameRateDivisor | dscamerasession.cpp:666 | `AvgTimePerFrame/10000` is zero exactly when the interval is under 1 ms in magnitude. Otherwise it is the interval in whole milliseconds, truncated toward zero for either sign. |
| FormatCatalogue.FrameRate | dscamerasession.cpp:666 | For an interval of d ≥ 1 whole ms, the rate is the largest r with r·d ≤ 1000 (so 0 ≤ r ≤ 1000). For d ≤ −1 it is the truncated negative quotient: −1000 ≤ r ≤ 0, r·d ≤ 1000 < (r−1)·d. |
| FormatCatalogue.CommonFrameRates | dscamerasession.cpp:666 | 333333, 400000 and 666666 (100 ns units) give 30, 25 and 15 frames per second. |
| FormatCatalogue.FrameRateUndefinedBelowOneMs | dscamerasession.cpp:666 | A non-negative interval below 10000 makes the divisor zero. |
| FormatCatalogue.EntryOf | dscamerasession.cpp:664-691 | A recorded entry keeps the capability's width and height, and its format maps back to the capability's subtype. |
| FormatCatalogue.Catalogue | dscamerasession.cpp:654-696 | The catalogue has at most one entry per capability. |
| FormatCatalogue.CatalogueSound | dscamerasession.cpp:656-696 | Every catalogue entry comes from a readable video/VideoInfo capability with a recorded subtype. |
| FormatCatalogue.CatalogueComplete | dscamerasession.cpp:656-696 | Every such capability has its entry in the catalogue. |
| FormatCatalogue.CatalogueRoundTrip | dscamerasession.cpp:913-951 | A format taken from the catalogue maps back to a capture subtype. Some capability has that subtype and that exact size, so it can be negotiated. |
| FormatCatalogue.FirstAcceptedFrom | dscamerasession.cpp:943-966 | Returns the first index from `from` on with a matching-size video capability that the device accepts. When there is none, no such index exists. |
| FormatCatalogue.MatchingBelow | dscamerasession.cpp:948-956 | Lists the indices below n whose capability is video/VideoInfo with the requested size, and only those. |
| FormatCatalogue.Negotiate | dscamerasession.cpp:942-975 | The loop stops at the first accepted capability. The pin is set to it with the planned input subtype. Exactly the matching-size capabilities up to that index are offered. |
| FormatCatalogue.PropertiesOutcome | dscamerasession.cpp:883-986 | Success implies that a pin type and a grabber type were set. An unknown format fails with nothing created or set. |
| FormatCatalogue.PropertiesSucceedIff | dscamerasession.cpp:894-981 | `setProperties` succeeds iff all of these hold: the configuration is readable, the format is known, the needed decoder is created, some matching-size capability accepts, and the grabber accepts its type. |
| FormatCatalogue.PropertiesSetPlannedTypes | dscamerasession.cpp:954-978 | On success the pin has the planned input subtype and the requested size, and the grabber has the planned output subtype. |
| FormatCatalogue.DecoderKeptOnFailure | dscamerasession.cpp:920-975 | A decoder created for MJPG or I420 stays in place when the negotiation then fails. |
| DeviceRegistry.Contains | dscamerasession.cpp:491 | Substring test: the empty string always occurs, and a hit is no longer than the text. |
| DeviceRegistry.ContainsIff | dscamerasession.cpp:624 | `Contains(s, q)` holds iff q occurs at some offset of s. |
| DeviceRegistry.Listed | dscamerasession.cpp:581-598 | Only monikers from the enumeration whose display name can be read are listed. |
| DeviceRegistry.ListedSingle | dscamerasession.cpp:581-598 | One moniker is listed exactly when its display name can be read. |
| DeviceRegistry.ListedAppend | dscamerasession.cpp:581-598 | Listing keeps enumeration order and multiplicity: the listing of a run of monikers followed by another is the first listing followed by the second. |
| DeviceRegistry.DeviceIds | dscamerasession.cpp:583-586 | One id per listed moniker. |
| DeviceRegistry.DeviceDescriptions | dscamerasession.cpp:588-597 | One description per listed moniker. |
| DeviceRegistry.ListingLockstep | dscamerasession.cpp:583-597 | Ids and descriptions have the same length and come from the same moniker. The description falls back to the display name when the friendly name cannot be read. |
| DeviceRegistry.ListingComplete | dscamerasession.cpp:581-586 | Every readable display name is listed. |
| DeviceRegistry.ListedHas | dscamerasession.cpp:581-586 | Every moniker with a readable display name is in the listing. |
| DeviceRegistry.EmptyCategoryUsesNullEnumerator | dscamerasession.cpp:573-576 | For an empty category, the test as written walks an enumerator that does not exist. The corrected test does not. |
| DeviceRegistry.EnumerateDevices | dscamerasession.cpp:558-607 | The two lists are exactly the ids and descriptions of the category's monikers, in lockstep. |
| DeviceRegistry.AvailableDevices | dscamerasession.cpp:609-615 | Returns the ids of a fresh enumeration. Each is the display name of a moniker in the category. |
| DeviceRegistry.FirstContaining | dscamerasession.cpp:622-628 | Returns the first index whose id contains the query, and none when no id does. |
| DeviceRegistry.DeviceDescription | dscamerasession.cpp:617-630 | The description of the first id containing the query, and "" when there is none. |
| DeviceRegistry.DescriptionFoundForListedId | dscamerasession.cpp:622-627 | Querying with a listed id always finds a description. |
| DeviceRegistry.ChooseDevice | dscamerasession.cpp:196-201 | The requested id is kept iff it is an exact member of the list; otherwise the choice is "default". |
| DeviceRegistry.NameLoopFirst | dscamerasession.cpp:485-500 | The name loop binds the first moniker whose name occurs in the device id and whose object binds. |
| DeviceRegistry.NameLoopNone | dscamerasession.cpp:485-500 | When nothing binds by name, `pCap` is null if a bind was tried, and otherwise unchanged. |
| DeviceRegistry.DefaultLoopFirst | dscamerasession.cpp:506-529 | The default loop takes the first moniker whose storage and object both bind, and nothing when there is none. |
| DeviceRegistry.BindRuleFallback | dscamerasession.cpp:502-531 | When nothing binds by name, the fallback applies iff the id contains "default". |
| DeviceRegistry.BindCaptureFilter | dscamerasession.cpp:480-531 | The two loops leave `pCap` as the binding rule says. |
| CameraControls.FlagFor | dscamerasession.cpp:788 | Auto (1) iff `aut`, Manual (2) iff not. |
| CameraControls.RequestFor | dscamerasession.cpp:786-880 | A setter forwards the value unchanged with the chosen flag. The seven camera setters go to IAMCameraControl and the rest to IAMVideoProcAmp, each to its own property. |
| CameraControls.TargetsDistinct | dscamerasession.cpp:786-880 | No two setters write the same property of the same interface. |
| SessionFlags.CloseFlags | dscamerasession.cpp:1108-1170 | `active` is untouched. `opened` drops once StopWhenReady succeeds. `graph` drops only after the full teardown. Coherence is kept. |
| SessionFlags.OpenFlags | dscamerasession.cpp:988-1106 | Returns true at once when open. Otherwise success needs a graph, every wiring call and the connected type. `opened` and `active` are never changed. |
| SessionFlags.StopStreamFlags | dscamerasession.cpp:1218-1241 | A failed Stop changes nothing. A successful one clears `active`, and then closes the stream (`CloseFlags`) exactly when it was open. |
| SessionFlags.StartActivatesOnlyAfterRun | dscamerasession.cpp:1172-1215 | Success implies that Run succeeded and the stream is active, open and in a graph. Every failure leaves `active` unchanged. |
| SessionFlags.StartSucceedsDespiteFailedProperties | dscamerasession.cpp:1179-1214 | A failed `setProperties` followed by a successful close and reopen still lets `startStream` succeed. |
| SessionFlags.StartOpensTwiceAfterRetry | dscamerasession.cpp:1179-1190 | After a failed `setProperties`, the retry's `openStream` can succeed without opening the stream. `startStream` then calls `openStream` again. |
| SessionFlags.StopClosesStream | dscamerasession.cpp:286-294 | `stop` always leaves the stream not open and is a no-op when it was not open. `active` drops iff Stop succeeds. |
| SessionFlags.ResumeAsWrittenDeactivates | dscamerasession.cpp:1265-1285 | As written, a successful resume clears `active` exactly as a suspend does. The corrected resume sets it. |
| SessionFlags.SuspendResumeRoundTrip | dscamerasession.cpp:1243-1285 | Suspend then (corrected) resume of a running stream gives back its flags. |
| SessionFlags.AllKeepCoherent | dscamerasession.h:168-170 | Every transition keeps "opened implies graph". |
| CameraSession.FormatsAfterUpdate | dscamerasession.cpp:640-654 | An unreadable configuration leaves `m_formats` unchanged. Otherwise the new list has at most one entry per capability. |
| CameraSession.CloseResources | dscamerasession.cpp:1108-1170 | `closeStream` releases the capture filter and the decoder only after the full teardown; the formats and the connected type are kept. |
| CameraSession.OpenResources | dscamerasession.cpp:988-1106 | `openStream` keeps the decoder; when a graph exists or the stream is open it keeps the filter and formats; the connected type changes only when the stream was not open and wiring succeeds. |
| CameraSession.ConfiguredResources | dscamerasession.cpp:1176-1179 | The start of `startStream` keeps the connected type, leaves the decoder `setProperties` leaves, and rebinds the filter and formats only when there was no graph. |
| CameraSession.StartResources | dscamerasession.cpp:1172-1215 | After `startStream` the decoder is the one `setProperties` leaves, unless it failed and the retry's `closeStream` tore the graph down, which releases it. |
| CameraSession.FilterAfterBuild | dscamerasession.cpp:473-534 | `pCap` is untouched unless the builders exist and the category enumerator is S_OK. |
| CameraSession.Session.constructor | dscamerasession.cpp:180-212 | Sets the gate open, the queue empty and the image id 0. The device lists come from an enumeration, and the device is chosen from them. `graph` is the build result; `opened` and `active` are false. |
| CameraSession.Session.CreateFilterGraph | dscamerasession.cpp:434-556 | Returns true iff the builders and grabber are created. Binds `pCap` by the binding rule and refreshes the formats. |
| CameraSession.Session.UpdateProperties | dscamerasession.cpp:632-701 | `m_formats` becomes the catalogue of the capabilities, or stays as it was when the configuration is unreadable. |
| CameraSession.Session.SetProperties | dscamerasession.cpp:883-986 | The result and the decoder left behind are those of `PropertiesOutcome` for the current format. |
| CameraSession.Session.SetFormat | dscamerasession.cpp:261-264 | Stores the requested format. |
| CameraSession.Session.OpenStream | dscamerasession.cpp:988-1106 | The flags move as `OpenFlags` says and the other fields as `OpenResources` says: the connected type is recorded on success, and the graph is built only when missing. |
| CameraSession.Session.CloseStream | dscamerasession.cpp:1108-1170 | The flags move as `CloseFlags` says and the other fields as `CloseResources` says: the filters are released only after a full teardown. |
| CameraSession.Session.StartStream | dscamerasession.cpp:1172-1215 | The flags and result move as `StartFlags` says, given whether `setProperties` succeeds, and the filter, formats, decoder and connected type as `StartResources` says. |
| CameraSession.Session.Configure | dscamerasession.cpp:1176-1179 | A graph is built only when there is none (`graph` becomes the build result); the result is `setProperties`' outcome, and the fields move as `ConfiguredResources` says. `setProperties` runs even after a failed build; the null `pBuild`/`pSG` it then uses is left out. |
| CameraSession.Session.RetryOpen | dscamerasession.cpp:1179-1186 | After a failed `setProperties`, the flags, result and fields move as `closeStream` followed by `openStream` (`RetryFlags`, `CloseResources`, `OpenResources`); otherwise no field changes. |
| CameraSession.Session.OpenAndRun | dscamerasession.cpp:1188-1215 | The flags and result move as `RunFlags` says: `opened` takes `openStream`'s result when not open, and `active` is set only after Run succeeds. The other fields move as that `openStream` moves them (`OpenResources`). |
| CameraSession.Session.StopStream | dscamerasession.cpp:1218-1241 | The flags move as `StopStreamFlags` says. A failed Stop changes no field; a successful Stop on an open stream releases the filter and decoder as `closeStream` does (`CloseResources`). |
| CameraSession.Session.Stop | dscamerasession.cpp:286-294 | The flags move as `StopFlags` says. Nothing changes when the stream is not open; otherwise the filter and decoder move as in `stopStream`. |
| CameraSession.Session.SuspendStream | dscamerasession.cpp:1243-1263 | `active` drops iff Pause succeeds. |
| CameraSession.Session.Pause | dscamerasession.cpp:281-284 | Same as `suspendStream`. |
| CameraSession.Session.ResumeStream | dscamerasession.cpp:1265-1285 | Corrected: `active` is set iff Run succeeds. |
| CameraSession.Session.CaptureImage | dscamerasession.cpp:232-239 | Starts the stream when it is not active, with the flags and fields of `startStream`, and changes nothing when it is active. Always returns 0. |
| CameraSession.Session.Capture | dscamerasession.cpp:1287-1289 | Reopens the gate. |
| CameraSession.Session.CaptureFrame | dscamerasession.cpp:296-355 | Corrected (Findings, dscamerasession.cpp:351; as written the YUY2/YUYV branch emits an empty image): an empty queue gives nothing. An undecodable subtype leaves the queue untouched. Otherwise the head frame is removed and its `FrameImage` emitted. |
| CameraSession.SampleGrabberCallback.BufferCB | dscamerasession.cpp:127-173 | A null session gives S_OK. A wrong media type gives VFW_E_INVALIDMEDIATYPE (iff) with nothing changed. Otherwise an open gate is closed and exactly one copy of `pBuffer[0..BufferLen)` is appended. No other session field changes, so the session invariant is kept. |
| CameraSession.SingleShotInOrder | dscamerasession.cpp:147-164 | After samples a and b the queue holds only a (b dropped). After `capture` and c it holds a then c. The two `captureFrame` calls emit the images of a and then c, and leave the queue empty. |

## Left out

- COM and DirectShow plumbing is left out: object creation, AddFilter, RenderStream, getPin, getFilterAndPinInfo, the disconnect and remove calls, and the media-control queries. Each appears only as an outcome input (`GraphOracle`, `OpenOracle`, `CloseOutcome`, `ControlOracle`, `PropsOracle`, `ClassEnum`).
- The still-pin trigger in `capture()` (dscamerasession.cpp:1291-1319) is a sequence of foreign calls; only the gate is modelled.
- Concurrency is left out: the mutex, the producer thread, the queued invocation of `captureFrame`, and the unlocked queue-length read. The model is sequential.
- PixelConvert.Yuv2Rgb: the coefficients 1.370705, 0.698001, 0.337633 and 1.732446 are exact fractions over 10^6, and each sum is truncated toward zero once. The rounding of the double products is not modelled.
- The `(qint64)Time` cast is not modelled; the time stamp is an integer input.
- The camera and video-processing range getters and the set calls behind the setters are foreign calls. Only the flag and target mapping is modelled.
- Trivial accessors carry no logic and are not modelled: `setSurface`, `deviceReady`, `pictureInProgress`, `supportedFormats`, `format`, `position`, `state`. Signals, QTime and the surface are not modelled either.
- CameraSession.Session.StartStream, CameraSession.Session.StopStream, CameraSession.Session.Stop, CameraSession.Session.SuspendStream, CameraSession.Session.Pause, CameraSession.Session.ResumeStream, CameraSession.Session.CloseStream, SessionFlags.StopStreamFlags, SessionFlags.SuspendFlags, SessionFlags.ResumeFlags: the media-control query goes through `pGraph` with no check that a graph exists. `pGraph` is null before the first successful build, and it is released after a full teardown. The model treats such a call as an ordinary outcome given by the `ControlOracle` (or `CloseOutcome`); the null or released `pGraph`, and the undefined behaviour of calling through it (for example `pause` after `stop` has torn the graph down), are not captured.
- CameraSession.Session.Configure, CameraSession.Session.SetProperties: `startStream` calls `setProperties` even when `createFilterGraph` has just failed (dscamerasession.cpp:1176-1179). `setProperties` then calls through `pBuild` (dscamerasession.cpp:894) and `pSG` (dscamerasession.cpp:978) with no check that either exists. Both are null from the constructor (dscamerasession.cpp:184, 191), stay null when the build fails at its first object creations, and `pBuild` is released after a full teardown (dscamerasession.cpp:1167). The model takes an ordinary `PropsOracle` outcome there, so the call through a null or released pointer, and its undefined behaviour, are not captured; through `Configure` this also reaches `StartStream`, `StartResources`, `CaptureImage` and `SessionFlags.StartActivatesOnlyAfterRun`.
- Memory management is not modelled: `delete` and `delete[]`, `SAFE_RELEASE`, leaked interfaces and buffers, the destructor, and CoInitialize/CoUninitialize balance.
- Text conversion (wide strings to UTF-8) is not modelled; ids and descriptions are Dafny strings.
- CameraSession.Session.CaptureFrame: requires a non-negative frame size and, for RGB24, a sample of at least W·H·3 bytes. The source reads that many without checking, and a negative height (a top-down bitmap) is not handled.
- CameraSession.Session.UpdateProperties: requires every recorded capability to have an interval of at least 1 ms, because the source's frame-rate division faults otherwise (`FrameRateUndefinedBelowOneMs`).
- PixelConvert.DecodeYuy2: the image buffer is zero-filled when it is allocated. In the source (`new quint8[...]`, dscamerasession.cpp:327) it is uninitialised. Bytes that no whole macropixel reaches are therefore 0 here and indeterminate in the source.
- PixelConvert.Yuy2ByteBeyond: the 0 it states for bytes past the last whole macropixel comes from that zero-fill; the source promises no value for them.
- CameraSession.Session.SetProperties: the media types set on the pin and on the sample grabber are part of `PropertiesOutcome`, not stored on the session.
- CameraSession.Session.constructor: `StillMediaType` is zero-filled here. In the source it is uninitialised until `openStream` connects the grabber.
- A failed BindToObject is taken to leave `pCap` null, and a failed CoCreateInstance of the decoder to leave `pIntermediateFilter` null (`NoDecoder`), following the COM convention for out-parameters.

## Findings

| source | as written | input that shows it | evidently intended | confidence | as-written member | corrected member |
|---|---|---|---|---|---|---|
| dscamerasession.cpp:336-340 | The YUY2 loop runs while `i < length`. Each pass makes two 4-byte stores, at j and j+3. | A 2×1 YUY2 frame of 4 bytes: the second store covers offsets 3-6 of the 6-byte image. | Stop writing at the end of the W·H·3 image. | high; not executed | PixelConvert.Yuy2StoreOverrun | PixelConvert.DecodeYuy2 |
| dscamerasession.cpp:336-339 | Each pass reads `pp[0..3]` without checking against `length`. | A 6-byte sample: the second pass reads offsets 4-7. | Read only whole macropixels inside the sample. | high; not executed | PixelConvert.Yuy2ReadOverrun | PixelConvert.DecodeYuy2 |
| dscamerasession.cpp:351 | The YUY2/YUYV branch decodes into `image` but emits `dst`, which nothing in that branch assigns. | Any YUY2 frame with W·H > 0: an empty image is emitted. | Emit the decoded and flipped `image`. | high; not executed | PixelConvert.Yuy2EmitsEmptyAsWritten | PixelConvert.FrameImage |
| dscamerasession.cpp:573-576 | The category enumerator is walked when `SUCCEEDED(hr)`, and that includes S_FALSE. | A machine with no video input device: CreateClassEnumerator returns S_FALSE and a null enumerator, which is then used. | Walk only on S_OK, as `createFilterGraph` does at line 480. | medium; not executed | DeviceRegistry.EmptyCategoryUsesNullEnumerator | DeviceRegistry.EnumerateDevices |
| dscamerasession.cpp:1284 | `resumeStream` sets `active = false` after Run succeeds. | Suspend, then resume, a running stream: `active` stays false, so the next `captureImage` restarts the stream. | Set `active = true`, as `startStream` does after Run. | medium; not executed | SessionFlags.ResumeAsWrittenDeactivates | SessionFlags.SuspendResumeRoundTrip |
