# webrtc-uwp media core, modelled in Dafny

This project models the sequential logic at the core of the webrtc-uwp tree, the
Windows/UWP and Android port of WebRTC, and proves properties of that model. There is
one Dafny module per source file:

- **Android hardware video pipeline.**
  - `HardwareVideoEncoder`: the FIFO of pending image builders kept in step with the
    codec, key-frame forcing, the cached H.264 configuration and the I420/NV12 input
    fills.
  - `DynamicBitrateAdjuster`: the rate correction controller.
  - `HardwareVideoEncoderFactory`: codec, requirement and colour-format selection.
  - `HardwareVideoDecoder`: decode gating, output-format bookkeeping and plane copies.
  - `VideoDecoderWrapper`: the native decoder wrapper's frame FIFO.
- **Routing.**
  - `RtpDemuxer` and `RtcpDemuxer`: the RTP and RTCP demuxers.
  - `MappingDeviceDesktopCapturerWrapper`: the desktop-source mapping.
  - `ConferenceTransport`: the test conference transport.
  - `UdpSocketManager`: the UDP socket manager.
- **Validators, schedulers and state machines.**
  - `TemporalLayers`: the VP8 temporal-layers checker.
  - `RtcpTransceiver`: both RTCP transceiver revisions.
  - `ProbeBitrateEstimator`: the probe bitrate estimator.
  - `RtcEventLogOutputFile`: the size-limited event-log file.
  - `RtpFormatVideoStereo`, `StereoEncoderAdapter` and `StereoDecoderAdapter`: the
    stereo payload format and the stereo encoder and decoder adapters.
  - `PacketSender`: the bandwidth-estimation test senders.
- **Windows media.**
  - `H264Encoder` and `H264Decoder`: the Media Foundation H.264 encoder and decoder.
  - `VideoRenderSource` and `VideoRender`: the render stream and the render mailbox.
  - `CaptureSink` and `VideoCapture`: the capture stream sink and the UWP capturer.
  - `AudioDeviceWasapi`: the WASAPI mixer, format search and recovery flags.
  - `VrAudio`: the spatial audio mixer of the Unity plugin.
- **API glue and tools.**
  - `Marshalling` and `Media`: the WinRT marshalling tables and the media facade.
  - `FileUtils`: the test path helpers.
  - `RemotingApi`: the remoting pose JSON.
  - `StubHeaders`: the header-stub tool.
  - `Codecs`: the codec lookup.

Shared definitions live in `Common`. It holds an option type, bytes, and the C, C++ and
Java integer operations whose rounding or wrap-around differs from Dafny's.

**Form of the model.**
- Code that updates state in place is a `class`, whose methods are proved against a
  pure specification function of the old state.
- Code that computes values is made of functions and lemmas.
- Foreign calls are inputs or parameters; each module's header comment says which.
  They include MediaCodec, Media Foundation, WASAPI/COM, JNI, libyuv, jsoncpp, the clock
  and the file system.

**Where the code and its documented intent differ.** Each difference listed under
Findings is modelled twice. An as-written member models the code, with a lemma
that exhibits the input on which it departs from the intent. A corrected member
states the intended behaviour, and the rest of the model is built on it; every
"## Model" row whose member rests on a corrected definition starts with
"(corrected)", and the Findings row names it. Not marked are the lemmas that
compare the two readings, members that take the reading as a parameter, and the
capture sink's `Start`, `Stop` and `SetCurrentMediaType`, whose operations both
readings of its state table validate alike. One difference is kept as written
without a correction: `DynamicBitrateAdjuster.reportEncodedFrame` reports an
adjustment whenever the deviation passes the threshold, even when clamping
leaves the exponent where it was.

## Model

| member | source | states |
|---|---|---|
| Common.TruncToInt | webrtc/sdk/android/src/java/org/webrtc/DynamicBitrateAdjuster.java:60 | Java's `(int)` cast of a double, and the `float` to `int` conversion of the probe estimator (webrtc/modules/congestion_controller/probe_bitrate_estimator.cc:120), truncate toward zero: a non-negative value gives the largest integer not above it, a negative one the smallest integer not below it |
| DynamicBitrateAdjuster.ExpectedBytesPerFrame | webrtc/sdk/android/src/java/org/webrtc/DynamicBitrateAdjuster.java:44 | one frame's byte budget times the frame rate is the target in bytes per second; it is positive for a positive rate and target |
| DynamicBitrateAdjuster.FrameDurationMs | webrtc/sdk/android/src/java/org/webrtc/DynamicBitrateAdjuster.java:46 | the frame time times the frame rate is one second; it is positive for a positive rate |
| DynamicBitrateAdjuster.CapDeviation | webrtc/sdk/android/src/java/org/webrtc/DynamicBitrateAdjuster.java:50-52 | the capped deviation is no larger in magnitude than the cap; it is unchanged inside the cap, becomes exactly the cap above it and exactly minus the cap below it |
| DynamicBitrateAdjuster.ClampExp | webrtc/sdk/android/src/java/org/webrtc/DynamicBitrateAdjuster.java:74-75 | the exponent is clamped to [-20, 20] and unchanged inside that range |
| DynamicBitrateAdjuster.AdjustStep | webrtc/sdk/android/src/java/org/webrtc/DynamicBitrateAdjuster.java:56-80 | an adjustment is signalled iff three seconds have passed and the capped deviation exceeds the threshold either way; above the threshold the exponent drops by the Java-rounded deviation/threshold and the deviation resets to the threshold, below minus the threshold it rises by the same rounding of -deviation/threshold and the deviation resets to minus the threshold, each clamped to ±20; otherwise the exponent stays and the deviation is the capped one; the timer resets at the check |
| DynamicBitrateAdjuster.Report | webrtc/sdk/android/src/java/org/webrtc/DynamicBitrateAdjuster.java:38-81 | a report with frame rate 0 changes nothing; otherwise the deviation stays within three thresholds, targets are untouched, the exponent stays in range and changes only with a signal |
| DynamicBitrateAdjuster.ReportOutcome | webrtc/sdk/android/src/java/org/webrtc/DynamicBitrateAdjuster.java:43-80 | the signal, the new timer and the new deviation (threshold, minus threshold or the capped sum) as functions of the frame size |
| DynamicBitrateAdjuster.WithRates | webrtc/sdk/android/src/java/org/webrtc/DynamicBitrateAdjuster.java:84-92 | the threshold becomes target/8, targets are replaced, and the deviation is rescaled by new/old only when a positive target decreases |
| DynamicBitrateAdjuster.CorrectionPower | webrtc/sdk/android/src/java/org/webrtc/DynamicBitrateAdjuster.java:95-99 | the power of 4 applied by `getBitrateBps` lies in [-1, 1] and is 0 iff the exponent is 0 |
| DynamicBitrateAdjuster.AdjustStepIsSmall | webrtc/sdk/android/src/java/org/webrtc/DynamicBitrateAdjuster.java:48-70 | an overshooting deviation lowers the exponent by one to three steps and an undershooting one raises it by one to three, unless it is pinned at the bound it moves toward |
| DynamicBitrateAdjuster.ReportStepIsSmall | webrtc/sdk/android/src/java/org/webrtc/DynamicBitrateAdjuster.java:38-81 | the same for a whole report: at most three steps per three-second cycle |
| DynamicBitrateAdjuster.ExactBudgetNeverAdjusts | webrtc/sdk/android/src/java/org/webrtc/DynamicBitrateAdjuster.java:43-80 | an encoder that produces exactly the expected bytes per frame never triggers an adjustment and leaves deviation and exponent as they were |
| DynamicBitrateAdjuster.WithinWindow | webrtc/sdk/android/src/java/org/webrtc/DynamicBitrateAdjuster.java:46-56 | up to three seconds' worth of frames stay within the adjustment window |
| DynamicBitrateAdjuster.ReportBeforeCheck | webrtc/sdk/android/src/java/org/webrtc/DynamicBitrateAdjuster.java:43-80 | before three seconds pass a report only accumulates the capped deviation and the time |
| DynamicBitrateAdjuster.OverBudgetStep | webrtc/sdk/android/src/java/org/webrtc/DynamicBitrateAdjuster.java:43-52 | one over-budget report inside the three-second window returns false, adds one frame duration to the clock and raises the deviation by at least the per-frame budget, up to its cap |
| DynamicBitrateAdjuster.OverBudgetAccumulates | webrtc/sdk/android/src/java/org/webrtc/DynamicBitrateAdjuster.java:43-52 | frames of at least twice the budget push the deviation up by at least the budget per frame, up to its cap |
| DynamicBitrateAdjuster.OverBudgetClock | webrtc/sdk/android/src/java/org/webrtc/DynamicBitrateAdjuster.java:43-52 | inside the window such frames change only the deviation and the clock, which advances one frame duration per frame |
| DynamicBitrateAdjuster.OverBudgetSilent | webrtc/sdk/android/src/java/org/webrtc/DynamicBitrateAdjuster.java:43-52 | inside the window no such frame signals an adjustment |
| DynamicBitrateAdjuster.OverBudgetFillsWindow | webrtc/sdk/android/src/java/org/webrtc/DynamicBitrateAdjuster.java:43-52 | a full window of such frames ends with the deviation at three thresholds and the timer at three seconds |
| DynamicBitrateAdjuster.OverBudgetTriggersDownwardAdjustment | webrtc/sdk/android/src/java/org/webrtc/DynamicBitrateAdjuster.java:56-75 | the first frame after that window signals, and the exponent drops by three (clamped) |
| DynamicBitrateAdjuster.ReportAtWindowEnd | webrtc/sdk/android/src/java/org/webrtc/DynamicBitrateAdjuster.java:56-63 | at the window end with the deviation at its cap, an over-budget frame lowers the exponent by three |
| DynamicBitrateAdjuster.BudgetOfWindow | webrtc/sdk/android/src/java/org/webrtc/DynamicBitrateAdjuster.java:44-85 | the byte budget of three seconds of frames is three thresholds |
| DynamicBitrateAdjuster.Adjuster.constructor | webrtc/sdk/android/src/java/org/webrtc/DynamicBitrateAdjuster.java:25-35 | all fields start at zero |
| DynamicBitrateAdjuster.Adjuster.ReportEncodedFrame | webrtc/sdk/android/src/java/org/webrtc/DynamicBitrateAdjuster.java:38-81 | the new fields and the returned flag are `Report` of the old fields; the exponent stays in range |
| DynamicBitrateAdjuster.Adjuster.CheckAdjustment | webrtc/sdk/android/src/java/org/webrtc/DynamicBitrateAdjuster.java:55-80 | the fields and the flag after the three-second check are `AdjustStep` of the capped deviation and the clock |
| DynamicBitrateAdjuster.Adjuster.SetRates | webrtc/sdk/android/src/java/org/webrtc/DynamicBitrateAdjuster.java:84-92 | the new fields are `WithRates` of the old ones |
| DynamicBitrateAdjuster.Adjuster.GetFramerate | webrtc/sdk/android/src/java/org/webrtc/DynamicBitrateAdjuster.java:102-104 | returns the frame rate last set |
| HardwareVideoEncoder.FillFor | webrtc/sdk/android/src/java/org/webrtc/HardwareVideoEncoder.java:389-406 | the planar format is filled by interleaving chroma, the three semi-planar formats by copying the planes in turn, any other format is refused |
| HardwareVideoEncoder.CheckArguments | webrtc/sdk/android/src/java/org/webrtc/HardwareVideoEncoder.java:108-115 | construction succeeds iff the MIME type is VP8, VP9 or H.264 and the colour format is supported; the MIME check comes first |
| HardwareVideoEncoder.IsSupportedMimeType | webrtc/sdk/android/src/java/org/webrtc/HardwareVideoEncoder.java:108-110 | only `video/` MIME types are accepted |
| HardwareVideoEncoder.InterleaveAt | webrtc/sdk/android/src/java/org/webrtc/HardwareVideoEncoder.java:414-423 | byte 2i of the interleaved chroma is U[i] and byte 2i+1 is V[i] |
| HardwareVideoEncoder.Interleave | webrtc/sdk/android/src/java/org/webrtc/HardwareVideoEncoder.java:414-423 | the interleaved chroma holds two bytes per sample pair, as many pairs as the shorter plane has bytes |
| HardwareVideoEncoder.Layout | webrtc/sdk/android/src/java/org/webrtc/HardwareVideoEncoder.java:389-423 | the buffer starts with the Y plane; with sequential planes, or interleaved chroma planes of equal size, it holds all three planes' bytes |
| HardwareVideoEncoder.Put | webrtc/sdk/android/src/java/org/webrtc/HardwareVideoEncoder.java:409-411 | `put` writes the data at the position and returns the position after it, leaving the rest of the buffer alone |
| HardwareVideoEncoder.FillBufferI420 | webrtc/sdk/android/src/java/org/webrtc/HardwareVideoEncoder.java:408-412 | the buffer starts with Y, U, V in turn and nothing after them changes |
| HardwareVideoEncoder.FillBufferNv12 | webrtc/sdk/android/src/java/org/webrtc/HardwareVideoEncoder.java:414-423 | the buffer starts with Y then U and V interleaved, as many pairs as the shorter plane holds; nothing after changes |
| HardwareVideoEncoder.ToColorFormat | webrtc/sdk/android/src/java/org/webrtc/HardwareVideoEncoder.java:389-406 | true iff the colour format is supported, and then the buffer holds that format's layout; an unsupported format leaves the buffer alone |
| HardwareVideoEncoder.AfterInitEncode | webrtc/sdk/android/src/java/org/webrtc/HardwareVideoEncoder.java:126-137 | the adjuster gets start bitrate × 1000 and the maximum frame rate; the last key-frame time becomes -1; the builder queue is kept |
| HardwareVideoEncoder.ShouldForceKeyFrame | webrtc/sdk/android/src/java/org/webrtc/HardwareVideoEncoder.java:268-271 | a key frame is forced only with a positive forcing interval and a presentation time past the last key frame; never with a non-positive interval |
| HardwareVideoEncoder.RequestKeyFrame | webrtc/sdk/android/src/java/org/webrtc/HardwareVideoEncoder.java:273-289 | on success the last key-frame time becomes the presentation time rounded to milliseconds; a failing setParameters keeps it |
| HardwareVideoEncoder.BuilderFor | webrtc/sdk/android/src/java/org/webrtc/HardwareVideoEncoder.java:223-231 | a frame's builder has equal timestamp and capture time and is complete |
| HardwareVideoEncoder.AfterEncode | webrtc/sdk/android/src/java/org/webrtc/HardwareVideoEncoder.java:184-241 | encoding never touches delivered images, the cached config buffer, reported sizes or the frame size, and adds at most one pending builder, only when at most two were pending |
| HardwareVideoEncoder.EncodeQueue | webrtc/sdk/android/src/java/org/webrtc/HardwareVideoEncoder.java:184-241 | a frame refused for want of an input buffer or a full queue changes nothing; an accepted one appends its builder; a failing queueInputBuffer takes the builder back |
| HardwareVideoEncoder.EncodeKeyFrame | webrtc/sdk/android/src/java/org/webrtc/HardwareVideoEncoder.java:208-271 | the key-frame time moves only when a key frame is requested or forced, and then to the rounded presentation time |
| HardwareVideoEncoder.EncodePreservesSync | webrtc/sdk/android/src/java/org/webrtc/HardwareVideoEncoder.java:232-240 | every builder queued belongs to a frame the codec accepted, in order, after an encode |
| HardwareVideoEncoder.DeliverPreservesSync | webrtc/sdk/android/src/java/org/webrtc/HardwareVideoEncoder.java:346-349 | the same after delivering an output buffer: delivered images took the oldest builders |
| HardwareVideoEncoder.PollKeepsSync | webrtc/sdk/android/src/java/org/webrtc/HardwareVideoEncoder.java:346-349 | handing on the image built from the oldest pending builder leaves the pending builders equal to the submitted frames not yet delivered |
| HardwareVideoEncoder.DeliveredInOrder | webrtc/sdk/android/src/java/org/webrtc/HardwareVideoEncoder.java:232-346 | the n-th image delivered carries the metadata of the n-th frame submitted |
| HardwareVideoEncoder.Deliver | webrtc/sdk/android/src/java/org/webrtc/HardwareVideoEncoder.java:303-355 | delivery leaves submissions and the key-frame time alone; nothing but an output buffer changes anything; a delivered image carries the oldest pending builder, which is removed, and is appended to the delivered images; otherwise builders and delivered images stay |
| HardwareVideoEncoder.DeliverPayload | webrtc/sdk/android/src/java/org/webrtc/HardwareVideoEncoder.java:303-355 | a config buffer is cached and not delivered; an H.264 key frame gets the config prepended; a delivered image is key iff the sync flag is set and takes the oldest builder; the size is reported to the adjuster |
| HardwareVideoEncoder.AfterSetRateAllocation | webrtc/sdk/android/src/java/org/webrtc/HardwareVideoEncoder.java:249-256 | the frame rate handed to the adjuster is capped at 30 and the bitrate is the allocation's sum |
| HardwareVideoEncoder.RequestedKeyFrame | webrtc/sdk/android/src/java/org/webrtc/HardwareVideoEncoder.java:208-213 | true iff some requested frame type is a key frame |
| HardwareVideoEncoder.Encoder.constructor | webrtc/sdk/android/src/java/org/webrtc/HardwareVideoEncoder.java:108-123 | the settings are kept and the queues start empty |
| HardwareVideoEncoder.Encoder.InitEncode | webrtc/sdk/android/src/java/org/webrtc/HardwareVideoEncoder.java:126-137 | the new fields are `AfterInitEncode` of the old |
| HardwareVideoEncoder.Encoder.Encode | webrtc/sdk/android/src/java/org/webrtc/HardwareVideoEncoder.java:184-241 | the new fields are `AfterEncode` of the old, and an admitted frame's planes are laid out in the input buffer |
| HardwareVideoEncoder.Encoder.DeliverEncodedImage | webrtc/sdk/android/src/java/org/webrtc/HardwareVideoEncoder.java:303-355 | the new fields and outcome are `Deliver` of the old |
| HardwareVideoEncoder.Encoder.PollBuilder | webrtc/sdk/android/src/java/org/webrtc/HardwareVideoEncoder.java:346-349 | the oldest builder is removed and its image, with the payload and frame type, is appended to what the callback received; builders and delivered images stay in step with the submitted frames |
| HardwareVideoEncoder.Encoder.SetRateAllocation | webrtc/sdk/android/src/java/org/webrtc/HardwareVideoEncoder.java:249-256 | the new fields are `AfterSetRateAllocation` of the old |
| HardwareVideoEncoderFactory.Vp8HwList | webrtc/sdk/android/api/org/webrtc/HardwareVideoEncoderFactory.java:77-84 | the VP8 list starts with the Qualcomm and then the Exynos entry, and holds the Intel entry exactly when its field trial is enabled |
| HardwareVideoEncoderFactory.AllSupportedCodecs | webrtc/sdk/android/api/org/webrtc/HardwareVideoEncoderFactory.java:109-115 | every VP9 and H.264 entry is in the combined list, and the Exynos VP8 entry comes before every other Exynos entry |
| HardwareVideoEncoderFactory.GetSupportedMimeType | webrtc/sdk/android/api/org/webrtc/HardwareVideoEncoderFactory.java:205-220 | a chosen MIME type is one the codec lists and the factory supports, and never H.264 on a blacklisted model |
| HardwareVideoEncoderFactory.GetSupportedMimeTypeIsFirst | webrtc/sdk/android/api/org/webrtc/HardwareVideoEncoderFactory.java:205-220 | the chosen MIME type is the first listed type that is supported and, for H.264, not on an excepted model; none iff no listed type qualifies |
| HardwareVideoEncoderFactory.FirstMatching | webrtc/sdk/android/api/org/webrtc/HardwareVideoEncoderFactory.java:222-233 | the requirement found is in the list and admits the codec name (prefix) at this SDK level; none iff no entry does |
| HardwareVideoEncoderFactory.FirstMatchingIsFirst | webrtc/sdk/android/api/org/webrtc/HardwareVideoEncoderFactory.java:223-230 | the requirement found is the first admitting entry of the list |
| HardwareVideoEncoderFactory.GetMatchingRequirementsAsWritten | webrtc/sdk/android/api/org/webrtc/HardwareVideoEncoderFactory.java:222-233 | as written: the requirement found comes from the combined list and admits the codec name and SDK; none is found exactly when no entry of any list admits them |
| HardwareVideoEncoderFactory.HwListFor | webrtc/sdk/android/api/org/webrtc/HardwareVideoEncoderFactory.java:77-107 | each MIME type's list is part of the combined list; an unsupported MIME type has none |
| HardwareVideoEncoderFactory.GetMatchingRequirements | webrtc/sdk/android/api/org/webrtc/HardwareVideoEncoderFactory.java:222-233 | (corrected) the requirement comes from the list for the codec's MIME type and admits the codec |
| HardwareVideoEncoderFactory.ExynosVp9GetsVp8Requirements | webrtc/sdk/android/api/org/webrtc/HardwareVideoEncoderFactory.java:222-233 | as written, an Exynos VP9 encoder at Nougat matches the Exynos VP8 entry (dynamic adjustment); the per-MIME lookup gives the VP9 entry |
| HardwareVideoEncoderFactory.ExynosAdjustmentFollowsMimeType | webrtc/sdk/android/api/org/webrtc/HardwareVideoEncoderFactory.java:71-104 | (corrected) with the per-MIME lookup an Exynos codec gets the VP8, VP9 or H.264 entry of its own type, each from its own minimum SDK |
| HardwareVideoEncoderFactory.FirstPreferred | webrtc/sdk/android/api/org/webrtc/HardwareVideoEncoderFactory.java:235-244 | the colour format chosen is one the codec offers and one of the preferred formats, -1 iff the codec offers none of them |
| HardwareVideoEncoderFactory.GetSupportedColorFormat | webrtc/sdk/android/api/org/webrtc/HardwareVideoEncoderFactory.java:235-245 | the format chosen is a supported one the codec offers; -1 exactly when the codec offers none of them |
| HardwareVideoEncoderFactory.SupportedColorFormatIsPreferred | webrtc/sdk/android/api/org/webrtc/HardwareVideoEncoderFactory.java:236-240 | the chosen format comes no later in the preference order than any offered preferred format |
| HardwareVideoEncoderFactory.KeyFrameIntervalSec | webrtc/sdk/android/api/org/webrtc/HardwareVideoEncoderFactory.java:150-172 | 20 seconds for H.264, 100 for VP8 and VP9 |
| HardwareVideoEncoderFactory.ForcedKeyFrameMs | webrtc/sdk/android/api/org/webrtc/HardwareVideoEncoderFactory.java:151-166 | a forced key-frame interval is set only for Qualcomm VP8 encoders |
| HardwareVideoEncoderFactory.QcomVp8ForcedKeyFrames | webrtc/sdk/android/api/org/webrtc/HardwareVideoEncoderFactory.java:155-164 | for Qualcomm VP8: none before Lollipop, 15000 ms on L and L MR1, 20000 on M, 15000 after M |
| HardwareVideoEncoderFactory.CreateEncoderParams | webrtc/sdk/android/api/org/webrtc/HardwareVideoEncoderFactory.java:147-190 | the encoder's adjustment type is the codec's requirement's and its key-frame interval follows the MIME type |
| HardwareVideoEncoderFactory.RequirementsFor | webrtc/sdk/android/api/org/webrtc/HardwareVideoEncoderFactory.java:278-283 | the lookup the loading loop makes: as written a miss means no entry of any list admits the codec; corrected the entry comes from the MIME type's own list; a hit always admits the codec on this SDK |
| HardwareVideoEncoderFactory.Candidate | webrtc/sdk/android/api/org/webrtc/HardwareVideoEncoderFactory.java:258-306 | for either requirement lookup (`AllLists` as written, `OwnList` corrected), a codec contributes properties only if it is an encoder with a supported MIME type, which is the first acceptable one it lists; the requirement is the one the lookup finds and admits the codec on this SDK; the colour format is the first preferred one its capabilities for that type offer; a qualifying encoder is refused only when one of those is missing |
| HardwareVideoEncoderFactory.Load | webrtc/sdk/android/api/org/webrtc/HardwareVideoEncoderFactory.java:258-306 | every entry after loading is either the entry given beforehand or the properties of some codec that qualifies |
| HardwareVideoEncoderFactory.LoadKeepsWellFormed | webrtc/sdk/android/api/org/webrtc/HardwareVideoEncoderFactory.java:246-307 | for either requirement lookup, loading keeps every entry qualified and drops no earlier entry |
| HardwareVideoEncoderFactory.LoadedIfQualified | webrtc/sdk/android/api/org/webrtc/HardwareVideoEncoderFactory.java:258-306 | for either requirement lookup, every qualifying codec ends up in the map |
| HardwareVideoEncoderFactory.LoadAsWrittenGivesExynosVp9DynamicAdjustment | webrtc/sdk/android/api/org/webrtc/HardwareVideoEncoderFactory.java:246-307 | loading an Exynos VP9 encoder on Android N registers it, as written, with the Exynos VP8 entry, and with the corrected lookup with the Exynos VP9 entry |
| HardwareVideoEncoderFactory.Factory.constructor | webrtc/sdk/android/api/org/webrtc/HardwareVideoEncoderFactory.java:144 | the map of supported codecs starts empty |
| HardwareVideoEncoderFactory.Factory.LoadSupportedCodecs | webrtc/sdk/android/api/org/webrtc/HardwareVideoEncoderFactory.java:246-307 | (corrected) loading happens once, not before KitKat, and yields `Load` of the codec list with the per-MIME lookup |
| HardwareVideoEncoderFactory.Factory.CreateEncoder | webrtc/sdk/android/api/org/webrtc/HardwareVideoEncoderFactory.java:147-190 | (corrected) loads the codecs with the per-MIME lookup, then builds the parameters of the named codec |
| HardwareVideoEncoderFactory.Factory.GetSupportedCodecs | webrtc/sdk/android/api/org/webrtc/HardwareVideoEncoderFactory.java:193-203 | (corrected) loads the codecs with the per-MIME lookup, then lists every loaded codec name exactly once |
| HardwareVideoDecoder.Released | webrtc/sdk/android/src/java/org/webrtc/HardwareVideoDecoder.java:216-237 | after release there is no codec, callback or running thread; OK iff the thread joined and no shutdown error was recorded, else TIMEOUT or ERROR |
| HardwareVideoDecoder.Constructed | webrtc/sdk/android/src/java/org/webrtc/HardwareVideoDecoder.java:79-86 | a new decoder has no codec, callback or output thread, no recorded error, size 0, has decoded nothing, and keeps the colour format it was given |
| HardwareVideoDecoder.Initialized | webrtc/sdk/android/src/java/org/webrtc/HardwareVideoDecoder.java:93-123 | OK iff the codec is created and configured; then a codec, the callback and a running thread, key frame required; stride and slice height start at the size |
| HardwareVideoDecoder.AfterReset | webrtc/sdk/android/src/java/org/webrtc/HardwareVideoDecoder.java:239-245 | a successful reset has a codec, requires a key frame and has the new size; the callback survives only in the corrected variant |
| HardwareVideoDecoder.NeedsReset | webrtc/sdk/android/src/java/org/webrtc/HardwareVideoDecoder.java:143-144 | a reset is attempted only for a frame with both sides non-zero whose size differs from the current one |
| HardwareVideoDecoder.GateRejects | webrtc/sdk/android/src/java/org/webrtc/HardwareVideoDecoder.java:151-161 | a complete key frame always passes the gate; the repaired gate lets everything through once no key frame is required, the gate as written whenever one is required |
| HardwareVideoDecoder.Decoded | webrtc/sdk/android/src/java/org/webrtc/HardwareVideoDecoder.java:126-203 | UNINITIALIZED iff codec or callback is missing; no buffer gives ERR_PARAMETER and an empty one ERROR, changing nothing; OK needs a codec and clears the key-frame requirement |
| HardwareVideoDecoder.FirstAcceptedIsKeyFrame | webrtc/sdk/android/src/java/org/webrtc/HardwareVideoDecoder.java:151-201 | (corrected) the first frame a fresh decoder accepts is a complete key frame |
| HardwareVideoDecoder.DeltaFramesFlowAfterKeyFrame | webrtc/sdk/android/src/java/org/webrtc/HardwareVideoDecoder.java:151-202 | (corrected) once a key frame was accepted, a delta frame with a free input buffer is accepted and changes nothing |
| HardwareVideoDecoder.KeyFrameGateInverted | webrtc/sdk/android/src/java/org/webrtc/HardwareVideoDecoder.java:151-160 | as written, a fresh decoder accepts a delta frame and then rejects the next one; the corrected gate rejects the first |
| HardwareVideoDecoder.ResetDropsCallback | webrtc/sdk/android/src/java/org/webrtc/HardwareVideoDecoder.java:216-245 | as written, after a reset the next decode returns UNINITIALIZED because release cleared the callback it passes on |
| HardwareVideoDecoder.ResetKeepsCallback | webrtc/sdk/android/src/java/org/webrtc/HardwareVideoDecoder.java:239-245 | (corrected) the corrected reset keeps codec and callback, so decoding continues |
| HardwareVideoDecoder.ReformatStopsOnSizeChange | webrtc/sdk/android/src/java/org/webrtc/HardwareVideoDecoder.java:367-372 | a size change after the first decoded frame stops the output thread with an error and changes nothing else |
| HardwareVideoDecoder.ReformatStopsOnColorFormat | webrtc/sdk/android/src/java/org/webrtc/HardwareVideoDecoder.java:355-384 | otherwise the size is taken from the crop rectangle (inclusive, in Java `int` arithmetic) or from width and height, and an unsupported colour format stops the thread with an error |
| HardwareVideoDecoder.ReformatResizes | webrtc/sdk/android/src/java/org/webrtc/HardwareVideoDecoder.java:355-395 | a supported format sets the size and the colour format if given; stride and slice height come from the format when present and are raised to at least the width and height; the thread keeps running |
| HardwareVideoDecoder.Reformatted | webrtc/sdk/android/src/java/org/webrtc/HardwareVideoDecoder.java:353-395 | codec, callback and the key-frame and first-frame flags are kept; the thread only ever stops, and then with a recorded error; unless the size changed after the first frame, the size follows the crop or the reported size |
| HardwareVideoDecoder.StrideFromFormat | webrtc/sdk/android/src/java/org/webrtc/HardwareVideoDecoder.java:386-394 | stride and slice height end at least the width and height, nothing else changes, and a stride of at least the width stays when the format gives none |
| HardwareVideoDecoder.FrameBytes | webrtc/sdk/android/src/java/org/webrtc/HardwareVideoDecoder.java:274 | the byte count of a frame is `w * h * 3 / 2` whenever that product fits in a Java `int` |
| HardwareVideoDecoder.CorrectedStride | webrtc/sdk/android/src/java/org/webrtc/HardwareVideoDecoder.java:279-282 | the stride is replaced only when the buffer is smaller than the stride implies, the slice height equals the height and the stride exceeds the width |
| HardwareVideoDecoder.AfterOutput | webrtc/sdk/android/src/java/org/webrtc/HardwareVideoDecoder.java:259-288 | a format change reformats; an output buffer marks the first frame decoded and is copied iff it holds a full frame, with the stride corrected for codecs that misreport it |
| HardwareVideoDecoder.SizeChangeAfterFirstFrameStops | webrtc/sdk/android/src/java/org/webrtc/HardwareVideoDecoder.java:367-372 | a new width after the first frame stops the output thread with a shutdown error |
| HardwareVideoDecoder.CopyRow | webrtc/sdk/android/src/java/org/webrtc/HardwareVideoDecoder.java:425-429 | the destination row holds the source row; nothing else changes |
| HardwareVideoDecoder.CopyPlane | webrtc/sdk/android/src/java/org/webrtc/HardwareVideoDecoder.java:416-423 | every cell of the plane is copied row by row with the two strides; nothing outside the rows changes |
| HardwareVideoDecoder.ChromaHeight | webrtc/sdk/android/src/java/org/webrtc/HardwareVideoDecoder.java:292-295 | the chroma height rounds up for an even slice height and truncates for an odd one |
| HardwareVideoDecoder.ChromaRowsWithDuplicate | webrtc/sdk/android/src/java/org/webrtc/HardwareVideoDecoder.java:292-318 | with an odd slice height and odd height, one duplicated row completes the rounded-up chroma height |
| HardwareVideoDecoder.DuplicateLastRow | webrtc/sdk/android/src/java/org/webrtc/HardwareVideoDecoder.java:308-318 | the row after the last chroma row becomes a copy of it; the earlier rows are kept |
| HardwareVideoDecoder.CopyFromPlanar | webrtc/sdk/android/src/java/org/webrtc/HardwareVideoDecoder.java:290-318 | Y, U and V planes are copied from their offsets in the output buffer, and the last chroma row is duplicated for an odd slice height |
| HardwareVideoDecoder.SplitUvRow | webrtc/sdk/android/src/java/org/webrtc/HardwareVideoDecoder.java:331-337 | (corrected) each interleaved chroma pair is split into U and V at column j/2 |
| HardwareVideoDecoder.SplitUvRowAsWritten | webrtc/sdk/android/src/java/org/webrtc/HardwareVideoDecoder.java:331-337 | as written, the pair at column j is stored at U[j] and V[j], so odd chroma columns are never written |
| HardwareVideoDecoder.UOffsetsAsWritten | webrtc/sdk/android/src/java/org/webrtc/HardwareVideoDecoder.java:331-337 | as written, the chroma offsets written in a row are even and below the luma width |
| HardwareVideoDecoder.SplitAsWrittenMissesChromaColumn | webrtc/sdk/android/src/java/org/webrtc/HardwareVideoDecoder.java:332-335 | for width 4 the as-written loop writes chroma columns 0 and 2 only, though the plane has columns 0 and 1 |
| HardwareVideoDecoder.CopyFromNv12 | webrtc/sdk/android/src/java/org/webrtc/HardwareVideoDecoder.java:319-340 | (corrected) the Y plane is copied and every chroma row is split into U and V (corrected indexing) |
| HardwareVideoDecoder.SplitUvPlane | webrtc/sdk/android/src/java/org/webrtc/HardwareVideoDecoder.java:329-340 | (corrected) after the chroma loop, column c of every U row holds the even byte 2c of the matching interleaved row and the V row the odd byte 2c+1 (corrected indexing) |
| HardwareVideoDecoder.Decoder.constructor | webrtc/sdk/android/src/java/org/webrtc/HardwareVideoDecoder.java:79-86 | a decoder starts without codec or callback, with the given colour format |
| HardwareVideoDecoder.Decoder.Release | webrtc/sdk/android/src/java/org/webrtc/HardwareVideoDecoder.java:216-237 | the new fields and status are `Released` of the old |
| HardwareVideoDecoder.Decoder.InitDecode | webrtc/sdk/android/src/java/org/webrtc/HardwareVideoDecoder.java:88-123 | the new fields and status are `Initialized` of the old |
| HardwareVideoDecoder.Decoder.Decode | webrtc/sdk/android/src/java/org/webrtc/HardwareVideoDecoder.java:126-203 | (corrected) the new fields and status are `Decoded` (corrected) of the old |
| HardwareVideoDecoder.Decoder.Reformat | webrtc/sdk/android/src/java/org/webrtc/HardwareVideoDecoder.java:353-395 | the new fields are `Reformatted` of the old |
| HardwareVideoDecoder.Decoder.ApplyStride | webrtc/sdk/android/src/java/org/webrtc/HardwareVideoDecoder.java:386-394 | the new stride and slice height are `StrideFromFormat` of the old fields: the format's values when present, raised to at least the width and height; nothing else changes |
| HardwareVideoDecoder.Decoder.DeliverDecodedFrame | webrtc/sdk/android/src/java/org/webrtc/HardwareVideoDecoder.java:259-351 | the new fields and the copy plan are `AfterOutput` of the old |
| RtpDemuxer.FindSink | webrtc/call/rtp_demuxer.cc:139-218 | no sink iff no registered criteria match the packet under the strategy; a sink found belongs to some entry |
| RtpDemuxer.FindSinkIsFirst | webrtc/call/rtp_demuxer.cc:139-218 | the sink found is that of the first matching entry |
| RtpDemuxer.Bind | webrtc/call/rtp_demuxer.cc:54-67 | binding adds the SSRC if it was absent and keeps every existing binding; it succeeds iff the SSRC ends up bound to this sink |
| RtpDemuxer.BindFailsOnlyOnConflict | webrtc/call/rtp_demuxer.cc:58-66 | binding fails iff the SSRC is already bound to a different sink, and then the map is unchanged |
| RtpDemuxer.BindAll | webrtc/call/rtp_demuxer.cc:47-49 | binding a list of SSRCs adds all of them, keeps existing bindings and binds new ones to the sink |
| RtpDemuxer.WithSink | webrtc/call/rtp_demuxer.cc:35-52 | adding a sink appends its criteria and binds all its SSRCs without disturbing earlier bindings |
| RtpDemuxer.WithoutSink | webrtc/call/rtp_demuxer.cc:90-94 | removal keeps exactly the entries of other sinks, and shrinks the list iff the sink was there |
| RtpDemuxer.Removed | webrtc/call/rtp_demuxer.cc:90-94 | after removal no entry and no SSRC binding refers to the sink, and other bindings are kept |
| RtpDemuxer.Resolve | webrtc/call/rtp_demuxer.cc:96-127 | the SSRC binding wins; otherwise payload type, MID, RSID, then MID+RSID are tried in that order, and a packet is unrouted iff none matches |
| RtpDemuxer.Notify | webrtc/call/rtp_demuxer.cc:237-242 | every observer is told the RSID and SSRC, in registration order |
| RtpDemuxer.Received | webrtc/call/rtp_demuxer.cc:96-218 | a packet is delivered unless unrouted; a resolved packet's SSRC gets bound; observers are told only of an RSID resolution |
| RtpDemuxer.RoutedSsrcIsLatched | webrtc/call/rtp_demuxer.cc:96-218 | after a packet is routed, later packets with the same SSRC go by the SSRC binding to the same sink |
| RtpDemuxer.ResolutionNeverConflicts | webrtc/call/rtp_demuxer.cc:139-218 | the binding made during a resolution never conflicts, because the SSRC was unbound |
| RtpDemuxer.RemovedSinkReceivesNothing | webrtc/call/rtp_demuxer.cc:90-218 | a removed sink receives no packet |
| RtpDemuxer.WithObserver | webrtc/call/rtp_demuxer.cc:220-226 | registering appends the observer and leaves sinks and bindings alone |
| RtpDemuxer.DeregisterUndoesRegister | webrtc/call/rtp_demuxer.cc:220-235 | deregistering a freshly registered observer restores the observer list |
| RtpDemuxer.Demuxer.constructor | webrtc/call/rtp_demuxer.cc:28 | a demuxer starts with no bindings, sinks or observers |
| RtpDemuxer.Demuxer.AddSsrcSinkBinding | webrtc/call/rtp_demuxer.cc:54-67 | the new map and result are `Bind` of the old map |
| RtpDemuxer.Demuxer.AddSink | webrtc/call/rtp_demuxer.cc:35-52 | the new state is `WithSink` of the old |
| RtpDemuxer.Demuxer.AddSsrcSink | webrtc/call/rtp_demuxer.cc:69-81 | reports success without registering anything |
| RtpDemuxer.Demuxer.AddRsidSink | webrtc/call/rtp_demuxer.cc:83-88 | registers criteria holding only the RSID; the bindings are unchanged |
| RtpDemuxer.Demuxer.RemoveSink | webrtc/call/rtp_demuxer.cc:90-94 | the new state is `Removed` of the old, and the result is whether the sink was registered |
| RtpDemuxer.Demuxer.FindSinkByPredicate | webrtc/call/rtp_demuxer.cc:139-218 | the loop returns `FindSink` of the entries |
| RtpDemuxer.Demuxer.NotifyObservers | webrtc/call/rtp_demuxer.cc:237-242 | appends `Notify` of the observers and changes nothing else |
| RtpDemuxer.Demuxer.TryDemuxWithSsrc | webrtc/call/rtp_demuxer.cc:129-137 | delivers to the bound sink iff the SSRC is bound |
| RtpDemuxer.Demuxer.TryDemuxWith | webrtc/call/rtp_demuxer.cc:139-218 | succeeds iff some entry matches; then binds the SSRC, notifies on RSID resolution and delivers |
| RtpDemuxer.Demuxer.OnRtpPacket | webrtc/call/rtp_demuxer.cc:96-127 | the new state, delivery and notifications are `Received` of the old state |
| RtpDemuxer.Demuxer.RegisterRsidResolutionObserver | webrtc/call/rtp_demuxer.cc:220-226 | the new state is `WithObserver` of the old |
| RtpDemuxer.Demuxer.DeregisterRsidResolutionObserver | webrtc/call/rtp_demuxer.cc:228-235 | erases the first occurrence of the observer |
| RtcpDemuxer.SinksFor | webrtc/call/rtcp_demuxer.h:118-126 | the sinks listed under a key are exactly those associated with it |
| RtcpDemuxer.WithoutValue | webrtc/call/rtcp_demuxer.cc:72-80 | removing a sink drops exactly its associations, keeps the map duplicate-free, and shrinks it iff it held the sink |
| RtcpDemuxer.BindSinks | webrtc/call/rtcp_demuxer.h:118-131 | binding appends an association of the SSRC to each given sink, keeps the old ones, and adds no duplicate |
| RtcpDemuxer.Recipients | webrtc/call/rtcp_demuxer.cc:89-104 | a packet reaches the sinks bound to its sender SSRC, if it has one, and then every broadcast sink in order |
| RtcpDemuxer.Unregistered | webrtc/call/rtcp_demuxer.cc:72-80 | after removal no keyed map holds the sink; broadcast sinks are unchanged; validity is kept |
| RtcpDemuxer.RsidSinksReceiveAfterBinding | webrtc/call/rtcp_demuxer.cc:106-108 | once an SSRC is bound to an RSID, the RSID's sinks receive packets from that SSRC |
| RtcpDemuxer.RemovedSinkReceivesNothing | webrtc/call/rtcp_demuxer.cc:72-104 | a removed (non-broadcast) sink receives nothing |
| RtcpDemuxer.BoundSinksKeepValid | webrtc/call/rtcp_demuxer.h:118-131 | binding keeps the maps free of duplicates and apart from the broadcast sinks |
| RtcpDemuxer.Demuxer.constructor | webrtc/call/rtcp_demuxer.cc:20 | a demuxer starts with all maps empty |
| RtcpDemuxer.Demuxer.AddSsrcSink | webrtc/call/rtcp_demuxer.cc:31-33 | appends the SSRC association |
| RtcpDemuxer.Demuxer.AddRsidSink | webrtc/call/rtcp_demuxer.cc:35-39 | appends the RSID association |
| RtcpDemuxer.Demuxer.AddMidSink | webrtc/call/rtcp_demuxer.cc:41-45 | appends the MID association |
| RtcpDemuxer.Demuxer.AddMidRsidSink | webrtc/call/rtcp_demuxer.cc:47-54 | appends the MID+RSID association |
| RtcpDemuxer.Demuxer.AddPayloadTypeSink | webrtc/call/rtcp_demuxer.cc:56-59 | appends the payload-type association |
| RtcpDemuxer.Demuxer.AddBroadcastSink | webrtc/call/rtcp_demuxer.cc:61-70 | appends the broadcast sink |
| RtcpDemuxer.Demuxer.RemoveSink | webrtc/call/rtcp_demuxer.cc:72-80 | the new state is `Unregistered` of the old |
| RtcpDemuxer.Demuxer.RemoveBroadcastSink | webrtc/call/rtcp_demuxer.cc:82-87 | erases the sink's first (only) occurrence from the broadcast list |
| RtcpDemuxer.Demuxer.OnRtcpPacket | webrtc/call/rtcp_demuxer.cc:89-104 | delivers to `Recipients` in order and changes no map |
| RtcpDemuxer.Demuxer.DeliverToSsrcSinks | webrtc/call/rtcp_demuxer.cc:92-97 | the sinks bound to the sender SSRC receive the packet, in binding order |
| RtcpDemuxer.Demuxer.DeliverToBroadcastSinks | webrtc/call/rtcp_demuxer.cc:99-103 | every broadcast sink receives the packet, in registration order |
| RtcpDemuxer.Demuxer.BindSinksToSsrc | webrtc/call/rtcp_demuxer.h:118-131 | the SSRC map becomes `BindSinks` of the old |
| RtcpDemuxer.Demuxer.OnSsrcBoundToRsid | webrtc/call/rtcp_demuxer.cc:106-108 | binds the RSID's sinks to the SSRC |
| RtcpDemuxer.Demuxer.OnSsrcBoundToMid | webrtc/call/rtcp_demuxer.cc:110-112 | binds the MID's sinks to the SSRC |
| RtcpDemuxer.Demuxer.OnSsrcBoundToMidRsid | webrtc/call/rtcp_demuxer.cc:114-118 | binds the MID+RSID pair's sinks to the SSRC |
| RtcpDemuxer.Demuxer.OnSsrcBoundToPayloadType | webrtc/call/rtcp_demuxer.cc:120-123 | binds the payload type's sinks to the SSRC |
| MappingDeviceDesktopCapturerWrapper.MaxId | modules/desktop_capture/mapping_device_desktop_capturer_wrapper.cc:91-94 | the starting id is non-negative and at least every external id |
| MappingDeviceDesktopCapturerWrapper.TitleFor | modules/desktop_capture/mapping_device_desktop_capturer_wrapper.cc:107-118 | the title of the first listed source with the id; empty when no source has it, and a non-empty title is that of a listed source with the id |
| MappingDeviceDesktopCapturerWrapper.FindByName | modules/desktop_capture/mapping_device_desktop_capturer_wrapper.cc:122-126 | a source with the name is found iff one exists, and it is the first one |
| MappingDeviceDesktopCapturerWrapper.FindById | modules/desktop_capture/mapping_device_desktop_capturer_wrapper.cc:46-50 | a source with the id is found iff one exists |
| MappingDeviceDesktopCapturerWrapper.MergeStep | modules/desktop_capture/mapping_device_desktop_capturer_wrapper.cc:97-136 | an internal source with an empty or already seen name changes nothing; otherwise one entry under its name is appended, keeping the external id of that name or taking one above every id given so far |
| MappingDeviceDesktopCapturerWrapper.MergeAll | modules/desktop_capture/mapping_device_desktop_capturer_wrapper.cc:96-136 | the merged list has at most one entry per internal source |
| MappingDeviceDesktopCapturerWrapper.MergeStepShape | modules/desktop_capture/mapping_device_desktop_capturer_wrapper.cc:97-136 | an internal source with an empty or already seen name is skipped; any other appends one entry with its name |
| MappingDeviceDesktopCapturerWrapper.MergeAllNames | modules/desktop_capture/mapping_device_desktop_capturer_wrapper.cc:96-136 | each non-empty internal name is published exactly once and nothing else is |
| MappingDeviceDesktopCapturerWrapper.MergeAllIds | modules/desktop_capture/mapping_device_desktop_capturer_wrapper.cc:91-133 | every published id is the id of the external source with that name, or a fresh one above all external ids |
| MappingDeviceDesktopCapturerWrapper.MergeAllTitles | modules/desktop_capture/mapping_device_desktop_capturer_wrapper.cc:107-118 | every entry is titled after the first internal source of its name, from the base capturer's list |
| MappingDeviceDesktopCapturerWrapper.MergeAllDistinctIds | modules/desktop_capture/mapping_device_desktop_capturer_wrapper.cc:120-133 | with distinct external ids, the published ids are distinct |
| MappingDeviceDesktopCapturerWrapper.FindByNameExtends | modules/desktop_capture/mapping_device_desktop_capturer_wrapper.cc:103-126 | appending a source does not change an earlier name lookup, and finds the new one when its name was new |
| MappingDeviceDesktopCapturerWrapper.NewIdDiffers | modules/desktop_capture/mapping_device_desktop_capturer_wrapper.cc:127-130 | a freshly numbered entry's id differs from every id published before |
| MappingDeviceDesktopCapturerWrapper.Merged | modules/desktop_capture/mapping_device_desktop_capturer_wrapper.cc:74-139 | the merge succeeds iff all three source queries succeed |
| MappingDeviceDesktopCapturerWrapper.SelectSource | modules/desktop_capture/mapping_device_desktop_capturer_wrapper.cc:40-72 | a source is selected only after all queries succeed, and its id is that of an internal source |
| MappingDeviceDesktopCapturerWrapper.SelectPublishedSource | modules/desktop_capture/mapping_device_desktop_capturer_wrapper.cc:29-72 | selecting a published id forwards the id of the first internal source with that entry's name |
| MappingDeviceDesktopCapturerWrapper.FindByIdIsUnique | modules/desktop_capture/mapping_device_desktop_capturer_wrapper.cc:46-50 | with distinct ids, looking up an entry's id finds that entry |
| MappingDeviceDesktopCapturerWrapper.SelectUnknownIdFails | modules/desktop_capture/mapping_device_desktop_capturer_wrapper.cc:51-53 | an id that was not published selects nothing |
| MappingDeviceDesktopCapturerWrapper.GetMergedSources | modules/desktop_capture/mapping_device_desktop_capturer_wrapper.cc:74-139 | the loop succeeds iff `Merged` does and then outputs its list |
| MappingDeviceDesktopCapturerWrapper.GetSourceList | modules/desktop_capture/mapping_device_desktop_capturer_wrapper.cc:29-38 | on success appends the merged entries' ids and titles; on failure leaves the list alone |
| TemporalLayers.BufferStep | modules/video_coding/codecs/vp8/temporal_layers.cc:30-51 | a buffer fails iff it is referenced and holds a non-key frame of a higher layer while this frame is not key; it is overwritten only when updated or on a key frame; need-sync is cleared by referencing an upper-layer buffer |
| TemporalLayers.Checked | modules/video_coding/codecs/vp8/temporal_layers.cc:53-96 | only a frame that is not dropped can be rejected; an accepted frame that is not dropped names a layer the stream has; a configuration naming no such layer changes no buffer |
| TemporalLayers.DroppedFrameAccepted | modules/video_coding/codecs/vp8/temporal_layers.cc:56-58 | a dropped frame is accepted and changes no buffer |
| TemporalLayers.BadLayerIndexRejected | modules/video_coding/codecs/vp8/temporal_layers.cc:59-66 | a layer index at or above the layer count, or no index with several layers, is rejected with no change |
| TemporalLayers.AcceptedReferencesAreAllowed | modules/video_coding/codecs/vp8/temporal_layers.cc:36-88 | an accepted frame references only buffers it may reference |
| TemporalLayers.AcceptedKeyFrameRefreshesBuffers | modules/video_coding/codecs/vp8/temporal_layers.cc:46-49 | an accepted key frame leaves all three buffers holding a key frame of its layer |
| TemporalLayers.AcceptedSyncBitMeaning | modules/video_coding/codecs/vp8/temporal_layers.cc:36-94 | an accepted frame's sync bit is set iff it is on an upper layer and references no upper-layer buffer |
| TemporalLayers.RejectionKeepsEarlierUpdates | modules/video_coding/codecs/vp8/temporal_layers.cc:71-82 | a frame rejected at the golden buffer has already overwritten the last buffer |
| TemporalLayers.BufferState.constructor | modules/video_coding/codecs/vp8/temporal_layers.cc:26-28 | a buffer starts as a base-layer key frame |
| TemporalLayers.TemporalLayersChecker.constructor | modules/video_coding/codecs/vp8/temporal_layers.cc:26-28 | the checker records the layer count and starts all three buffers in the initial state |
| TemporalLayers.TemporalLayersChecker.CheckAndUpdateBufferState | modules/video_coding/codecs/vp8/temporal_layers.cc:30-51 | the buffer, result and need-sync flag become `BufferStep` of the old buffer |
| TemporalLayers.TemporalLayersChecker.CheckTemporalConfig | modules/video_coding/codecs/vp8/temporal_layers.cc:53-96 | the buffers and the result are `Checked` of the old buffers |
| ProbeBitrateEstimator.Lookup | webrtc/modules/congestion_controller/probe_bitrate_estimator.cc:52 | a cluster id not yet saved reads as a fresh cluster |
| ProbeBitrateEstimator.Put | webrtc/modules/congestion_controller/probe_bitrate_estimator.cc:52 | storing keeps the map sorted, adds the id, and changes no other cluster |
| ProbeBitrateEstimator.PayloadSizeBits | webrtc/modules/congestion_controller/probe_bitrate_estimator.cc:51 | the size in bits is a 32-bit `int`, equal to eight times the payload size whenever that fits |
| ProbeBitrateEstimator.Aggregate | webrtc/modules/congestion_controller/probe_bitrate_estimator.cc:58-73 | a probe widens the send and receive windows, records the size of the last sent and first received packet, and adds its size and one probe |
| ProbeBitrateEstimator.SendBps | webrtc/modules/congestion_controller/probe_bitrate_estimator.cc:88-95 | the send rate times the send interval is the size sent before the last send, in bits per second |
| ProbeBitrateEstimator.ReceiveBps | webrtc/modules/congestion_controller/probe_bitrate_estimator.cc:97-102 | the receive rate times the receive interval is the size received after the first arrival, in bits per second |
| ProbeBitrateEstimator.RatioTooHighIsRatio | webrtc/modules/congestion_controller/probe_bitrate_estimator.cc:104-105 | for a non-zero send rate the rejection test is the receive-to-send ratio exceeding the valid ratio |
| ProbeBitrateEstimator.MinRate | webrtc/modules/congestion_controller/probe_bitrate_estimator.cc:120 | the estimate is taken from the smaller of the two rates |
| ProbeBitrateEstimator.Evaluate | webrtc/modules/congestion_controller/probe_bitrate_estimator.cc:75-130 | an estimate exists iff the cluster has at least four probes, non-zero send and receive intervals and a receive/send ratio of at most 2; it is stamped with the arrival time and its value is the smaller of the send and receive rates converted to `int` (truncated toward zero) |
| ProbeBitrateEstimator.TrimOldest | webrtc/modules/congestion_controller/probe_bitrate_estimator.cc:55-56 | the clean-up keeps the five highest cluster ids |
| ProbeBitrateEstimator.TrimKeeping | webrtc/modules/congestion_controller/probe_bitrate_estimator.cc:52-56 | (corrected) the clean-up keeps at most five clusters and never erases the cluster being fed |
| ProbeBitrateEstimator.Feedback | webrtc/modules/congestion_controller/probe_bitrate_estimator.cc:42-131 | (corrected) feedback keeps the estimator valid |
| ProbeBitrateEstimator.Stored | webrtc/modules/congestion_controller/probe_bitrate_estimator.cc:52-73 | (corrected) the fed cluster is saved with its update, within the five-cluster limit |
| ProbeBitrateEstimator.IgnoredFeedback | webrtc/modules/congestion_controller/probe_bitrate_estimator.cc:46-49 | (corrected) a non-probe packet or one from a cluster older than the last valid one changes nothing and gives no estimate |
| ProbeBitrateEstimator.FeedbackAggregates | webrtc/modules/congestion_controller/probe_bitrate_estimator.cc:51-73 | (corrected) a probe adds its size in bits and one probe to its cluster |
| ProbeBitrateEstimator.EstimateMovesLastValidCluster | webrtc/modules/congestion_controller/probe_bitrate_estimator.cc:119-130 | (corrected) the last valid cluster only moves up, to the fed cluster, and exactly when an estimate stamped with the arrival time is returned |
| ProbeBitrateEstimator.TooFewProbesNoEstimate | webrtc/modules/congestion_controller/probe_bitrate_estimator.cc:75-76 | (corrected) fewer than four probes give no estimate |
| ProbeBitrateEstimator.FeedbackAsWritten | webrtc/modules/congestion_controller/probe_bitrate_estimator.cc:42-73 | as written: feedback keeps the estimator valid and the last valid cluster; ignored packets change nothing; if the fed cluster survives the clean-up it holds the update |
| ProbeBitrateEstimator.CleanupErasesFedCluster | webrtc/modules/congestion_controller/probe_bitrate_estimator.cc:52-56 | as written, a probe for a new lowest cluster among five saved ones is erased by the clean-up; corrected, it is kept with one probe |
| ProbeBitrateEstimator.ProbeEstimator.constructor | webrtc/modules/congestion_controller/probe_bitrate_estimator.cc:40 | no clusters, last valid cluster 0 |
| ProbeBitrateEstimator.ProbeEstimator.EraseOldClusters | webrtc/modules/congestion_controller/probe_bitrate_estimator.cc:55-56 | (corrected) the loop leaves exactly the clusters `TrimKeeping` keeps: the oldest ones other than the cluster being fed are erased until five remain |
| ProbeBitrateEstimator.ProbeEstimator.PacketFeedback | webrtc/modules/congestion_controller/probe_bitrate_estimator.cc:42-131 | (corrected) the new state and result are `Feedback` of the old state |
| RtcEventLogOutputFile.WriteStep | logging/rtc_event_log/output/rtc_event_log_output_file.cc:67-89 | a write succeeds iff it fits the size limit (or there is none) and the file write succeeds; success appends and counts the bytes, failure closes the output |
| RtcEventLogOutputFile.WriteKeepsValid | logging/rtc_event_log/output/rtc_event_log_output_file.cc:67-89 | a write never lets the bytes written exceed a set limit |
| RtcEventLogOutputFile.WriteAll | logging/rtc_event_log/output/rtc_event_log_output_file.cc:67-89 | a run of writes keeps the limit and never drops written bytes; while the output stays active the file holds what it held followed by every output in order |
| RtcEventLogOutputFile.WriteAllKeepsValid | logging/rtc_event_log/output/rtc_event_log_output_file.cc:67-89 | any run of writes keeps the limit, only appends, and an inactive output stays as it is |
| RtcEventLogOutputFile.LimitedOutputFile | logging/rtc_event_log/output/rtc_event_log_output_file.cc:71-86 | with a 50-byte limit a first 50-byte write is kept and a second one closes the output |
| RtcEventLogOutputFile.UnlimitedOutputFileAppends | logging/rtc_event_log/output/rtc_event_log_output_file.cc:71-82 | without a limit every successful write is appended |
| RtcEventLogOutputFile.OutputFile.constructor | logging/rtc_event_log/output/rtc_event_log_output_file.cc:19-30 | a file-name output is active iff the file opened, with nothing written |
| RtcEventLogOutputFile.OutputFile.FromPlatformFile | logging/rtc_event_log/output/rtc_event_log_output_file.cc:32-54 | a platform-file output is active iff fdopen and the open succeed; after a failed fdopen the wrapper survives iff closing the file succeeded |
| RtcEventLogOutputFile.OutputFile.Write | logging/rtc_event_log/output/rtc_event_log_output_file.cc:67-89 | the new state and result are `WriteStep` of the old |
| RtcEventLogOutputFile.OutputFile.Close | logging/rtc_event_log/output/rtc_event_log_output_file.cc:56-61 | the output becomes inactive and nothing else changes |
| RtcpTransceiver.ConfigValid | modules/rtp_rtcp/source/rtcp_transceiver.cc:61-94 | a configuration is valid only with a CNAME of at most 255 characters, a maximum packet size from 100 to 1500, an outgoing transport and a positive report period |
| RtcpTransceiver.ConfigValidComplete | modules/rtp_rtcp/source/rtcp_transceiver.cc:61-94 | those checks are the only ones: a configuration passing them all is valid |
| RtcpTransceiver.WarningsDoNotInvalidate | modules/rtp_rtcp/source/rtcp_transceiver.cc:62-65 | a zero feedback SSRC or missing receive statistics only warn; they never change validity |
| RtcpTransceiver.DefaultWithTransportValid | modules/rtp_rtcp/include/rtcp_transceiver.h:43-56 | the member defaults form a valid configuration once a transport is set |
| RtcpTransceiver.ReportBlocks | modules/rtp_rtcp/source/rtcp_transceiver.cc:132-157 | a report is one receiver report from the feedback SSRC, followed by an SDES block with the CNAME exactly when a CNAME is configured |
| RtcpTransceiver.PacketSender.constructor | modules/rtp_rtcp/source/rtcp_transceiver.cc:29-30 | a packet sender starts with an empty buffer and nothing sent |
| RtcpTransceiver.PacketSender.AddBlock | modules/rtp_rtcp/source/rtcp_transceiver.cc:33-35 | a block is appended to the buffer; nothing is sent |
| RtcpTransceiver.PacketSender.Send | modules/rtp_rtcp/source/rtcp_transceiver.cc:37-42 | a non-empty buffer is handed to the transport as one compound packet and cleared; an empty one sends nothing |
| RtcpTransceiver.SendReport | modules/rtp_rtcp/source/rtcp_transceiver.cc:132-157 | one report sends exactly one compound packet holding the report blocks |
| RtcpTransceiver.ProcessTransceiver.constructor | modules/rtp_rtcp/source/rtcp_transceiver.cc:96-102 | a new transceiver is due at once, with no process thread |
| RtcpTransceiver.ProcessTransceiver.Process | modules/rtp_rtcp/source/rtcp_transceiver.cc:110-114 | one report is sent and the next is due one period after now |
| RtcpTransceiver.ProcessTransceiver.TimeUntilNextProcess | modules/rtp_rtcp/source/rtcp_transceiver.cc:116-119 | the delay is the time left until the next report is due |
| RtcpTransceiver.ProcessTransceiver.ProcessThreadAttached | modules/rtp_rtcp/source/rtcp_transceiver.cc:121-124 | only the attached process thread changes |
| RtcpTransceiver.ProcessTransceiver.ForceSendReport | modules/rtp_rtcp/source/rtcp_transceiver.cc:126-130 | the process thread is woken iff one is attached; nothing else changes |
| RtcpTransceiver.ProcessThenWait | modules/rtp_rtcp/source/rtcp_transceiver.cc:110-119 | right after a report the next one is due a positive period later |
| RtcpTransceiver.PeriodicRuns | webrtc/modules/rtp_rtcp/source/rtcp_transceiver.cc:119-128 | each run of the periodic task yields one re-post delay |
| RtcpTransceiver.Periods | webrtc/modules/rtp_rtcp/source/rtcp_transceiver.cc:119-128 | the due time after k runs is the start plus k periods |
| RtcpTransceiver.PeriodicRunsIgnoreLateness | webrtc/modules/rtp_rtcp/source/rtcp_transceiver.cc:119-128 | after k runs the due time is k periods after the start, whenever the runs happened, and each run re-posts itself until its next due time |
| RtcpTransceiver.PeriodsShift | webrtc/modules/rtp_rtcp/source/rtcp_transceiver.cc:123 | starting one period later is one period more |
| RtcpTransceiver.PeriodicReport.constructor | webrtc/modules/rtp_rtcp/source/rtcp_transceiver.cc:96-116 | the task is created only for a valid configuration, which the transceiver's constructor checks, and is first due now |
| RtcpTransceiver.PeriodicReport.Run | webrtc/modules/rtp_rtcp/source/rtcp_transceiver.cc:119-128 | a run sends one report, advances the due time by one (positive) period, so strictly, and re-posts itself with the delay `PeriodicRuns` gives |
| RtpFormatVideoStereo.ClearFirstPacketBit | modules/rtp_rtcp/source/rtp_format_video_stereo.cc:65 | the first-packet bit is cleared and a marker without it is unchanged |
| RtpFormatVideoStereo.Wrap | modules/rtp_rtcp/source/rtp_format_video_stereo.cc:54-71 | a wrapped payload is the marker, the stereo header only on the first packet, then the inner payload |
| RtpFormatVideoStereo.Packetized | modules/rtp_rtcp/source/rtp_format_video_stereo.cc:49-73 | a frame gives one wrapped payload per inner packet |
| RtpFormatVideoStereo.PacketizedShape | modules/rtp_rtcp/source/rtp_format_video_stereo.cc:54-71 | only the first payload of a frame carries the first-packet marker and the stereo header; every later one has a zero marker |
| RtpFormatVideoStereo.Parse | modules/rtp_rtcp/source/rtp_format_video_stereo.cc:88-115 | (corrected) an empty payload, or a first packet too short for the stereo header, fails; a parsed inner payload is shorter than the payload, and a first packet yields a full stereo header |
| RtpFormatVideoStereo.ParsedLengthAsWritten | modules/rtp_rtcp/source/rtp_format_video_stereo.cc:97-109 | as written: a packet without the first-packet bit passes on all but the marker byte, a long enough first packet all but the marker and the stereo header, and a first packet too short for the header a length larger than the payload |
| RtpFormatVideoStereo.ShortFirstPacketOverreads | modules/rtp_rtcp/source/rtp_format_video_stereo.cc:102-106 | a one-byte first packet makes the length wrap to nearly 2^64, beyond the payload, while the corrected parse rejects it |
| RtpFormatVideoStereo.ParseAgreesWhenLongEnough | modules/rtp_rtcp/source/rtp_format_video_stereo.cc:97-109 | on long enough payloads the corrected parse and the code as written agree |
| RtpFormatVideoStereo.ParsePacketized | modules/rtp_rtcp/source/rtp_format_video_stereo.cc:49-115 | (corrected) parsing a packetized payload gives back the stereo header on the first packet and the inner payload on every packet |
| RtpFormatVideoStereo.Packetizer.constructor | modules/rtp_rtcp/source/rtp_format_video_stereo.cc:23-37 | the inner payload limit is the maximum less the marker and stereo header lengths, in size_t |
| RtpFormatVideoStereo.Packetizer.SetPayloadData | modules/rtp_rtcp/source/rtp_format_video_stereo.cc:41-47 | setting a frame arms the first-packet marker and returns the number of inner packets |
| RtpFormatVideoStereo.Packetizer.NextPacket | modules/rtp_rtcp/source/rtp_format_video_stereo.cc:49-73 | successive calls emit exactly the sequence `Packetized` describes |
| StereoEncoderAdapter.Succeeded | modules/video_coding/codecs/stereo/stereo_encoder_adapter.cc:84-92 | the number of leading successful codes: all before it succeed, the one at it fails |
| StereoEncoderAdapter.FirstFailure | modules/video_coding/codecs/stereo/stereo_encoder_adapter.cc:139-146 | the code is OK exactly when every call succeeded, otherwise the first failure |
| StereoEncoderAdapter.SucceededIsFirstFailure | modules/video_coding/codecs/stereo/stereo_encoder_adapter.cc:139-146 | a loop stopping at the first failure stops at `Succeeded` |
| StereoEncoderAdapter.ReleaseAsWritten | modules/video_coding/codecs/stereo/stereo_encoder_adapter.cc:159-169 | as written: the destroyed encoders are a prefix of the list and the code is the first failure; the list is cleared exactly when every release succeeded, and is left whole otherwise |
| StereoEncoderAdapter.Released | modules/video_coding/codecs/stereo/stereo_encoder_adapter.cc:159-169 | (corrected) the encoders split into destroyed ones and remaining ones, in order; the code is the first failure, and on success none remain |
| StereoEncoderAdapter.ReleaseKeepsNoDestroyed | modules/video_coding/codecs/stereo/stereo_encoder_adapter.cc:159-169 | (corrected) after the corrected release no destroyed encoder is still listed |
| StereoEncoderAdapter.ReleaseAsWrittenKeepsDestroyed | modules/video_coding/codecs/stereo/stereo_encoder_adapter.cc:159-169 | as written, a failure on the second encoder leaves the destroyed first one listed for the destructor's release |
| StereoEncoderAdapter.Recorded | modules/video_coding/codecs/stereo/stereo_encoder_adapter.cc:107-125 | a frame's count is recorded for a new timestamp; an existing entry and every other one are kept (emplace) |
| StereoEncoderAdapter.Pruned | modules/video_coding/codecs/stereo/stereo_encoder_adapter.cc:176-185 | the entries older than an encoded image's timestamp are erased; an unknown timestamp erases every entry |
| StereoEncoderAdapter.CallbackSeesRecordedCount | modules/video_coding/codecs/stereo/stereo_encoder_adapter.cc:107-125 | a new frame is counted as two images with alpha and one without |
| StereoEncoderAdapter.Adapter.constructor | modules/video_coding/codecs/stereo/stereo_encoder_adapter.cc:68-69 | no encoders, no callback, no frame counts |
| StereoEncoderAdapter.Adapter.InitEncode | modules/video_coding/codecs/stereo/stereo_encoder_adapter.cc:75-95 | encoders are created until the first initialisation failure, whose code is returned; the failing one is not kept |
| StereoEncoderAdapter.Adapter.Encode | modules/video_coding/codecs/stereo/stereo_encoder_adapter.cc:97-131 | without a callback the frame is refused whatever encoders exist; otherwise the alpha image goes to the AXX encoder first when present, the frame count is recorded and the YUV encoder's code is returned |
| StereoEncoderAdapter.Adapter.RegisterEncodeCompleteCallback | modules/video_coding/codecs/stereo/stereo_encoder_adapter.cc:133-137 | only the callback changes |
| StereoEncoderAdapter.Adapter.ForEachEncoder | modules/video_coding/codecs/stereo/stereo_encoder_adapter.cc:139-157 | the first failing code of the encoders in turn is returned |
| StereoEncoderAdapter.Adapter.Release | modules/video_coding/codecs/stereo/stereo_encoder_adapter.cc:159-169 | (corrected) the new encoder list and destroyed encoders are those `Released` gives |
| StereoEncoderAdapter.Adapter.OnEncodedImage | modules/video_coding/codecs/stereo/stereo_encoder_adapter.cc:171-198 | each encoded image is passed on with its stream, the recorded frame count (two when unknown) and the next picture index; older counts are erased |
| StereoDecoderAdapter.Merged | modules/video_coding/codecs/stereo/stereo_decoder_adapter.cc:178-199 | an alpha image with timestamp 0 means the YUV image is passed on alone; otherwise the YUV image with the alpha attached, at the YUV timestamp and rotation, render time 0 |
| StereoDecoderAdapter.Adapter.MergeDecodedImages | modules/video_coding/codecs/stereo/stereo_decoder_adapter.cc:178-199 | the image handed to the callback is the merge of the YUV and alpha entries: the YUV image alone for a placeholder alpha, the two together otherwise |
| StereoDecoderAdapter.ErasedBefore | modules/video_coding/codecs/stereo/stereo_decoder_adapter.cc:167 | exactly the entries at or after the timestamp remain, unchanged |
| StereoDecoderAdapter.OnDecoded | modules/video_coding/codecs/stereo/stereo_decoder_adapter.cc:147-176 | a first image at a timestamp is held; a second one merges with it and erases the older entries |
| StereoDecoderAdapter.FrameWithoutAlphaPassesThrough | modules/video_coding/codecs/stereo/stereo_decoder_adapter.cc:115-121 | a frame without alpha comes out as the plain YUV image |
| StereoDecoderAdapter.FrameWithAlphaMergesInEitherOrder | modules/video_coding/codecs/stereo/stereo_decoder_adapter.cc:147-199 | a frame with alpha comes out once, merged, whichever image is decoded first |
| StereoDecoderAdapter.MergeDropsOlderEntries | modules/video_coding/codecs/stereo/stereo_decoder_adapter.cc:167 | a merge keeps no older entry, but keeps the merged timestamp's own |
| StereoDecoderAdapter.Adapter.constructor | modules/video_coding/codecs/stereo/stereo_decoder_adapter.cc:76-77 | no decoders, nothing held |
| StereoDecoderAdapter.Adapter.InitDecode | modules/video_coding/codecs/stereo/stereo_decoder_adapter.cc:83-99 | decoders are created until the first initialisation failure, whose code is returned |
| StereoDecoderAdapter.Adapter.Decode | modules/video_coding/codecs/stereo/stereo_decoder_adapter.cc:101-127 | a one-image frame leaves a placeholder for its missing alpha; the image goes to the decoder of its stream and that decoder's code is returned |
| StereoDecoderAdapter.Adapter.RegisterDecodeCompleteCallback | modules/video_coding/codecs/stereo/stereo_decoder_adapter.cc:129-133 | only the callback changes |
| StereoDecoderAdapter.Adapter.Release | modules/video_coding/codecs/stereo/stereo_decoder_adapter.cc:134-145 | (corrected) the new decoder list and destroyed decoders are those `Released` gives: a destroyed decoder leaves the list at once |
| StereoDecoderAdapter.DestructorReleasesDestroyedDecoder | modules/video_coding/codecs/stereo/stereo_decoder_adapter.cc:80-145 | as written, when the second decoder fails to release the first is destroyed and still first in the list the destructor releases; corrected, that list holds only the decoder that failed |
| StereoDecoderAdapter.Adapter.Decoded | modules/video_coding/codecs/stereo/stereo_decoder_adapter.cc:147-176 | the held images and the outputs follow `OnDecoded` |
| H264Encoder.NalType | third_party/h264_winrt/H264Encoder/H264Encoder.cc:412 | the NAL unit type is the low five bits of the header byte |
| H264Encoder.PrefixAt | third_party/h264_winrt/H264Encoder/H264Encoder.cc:409-417 | a found prefix is `00 00 01` (4 bytes with a leading zero) not followed by an access unit delimiter; none is found otherwise |
| H264Encoder.StartCodes | third_party/h264_winrt/H264Encoder/H264Encoder.cc:408-418 | (corrected) the scan reports start codes at or after its position, each with a 3- or 4-byte prefix, and finds none once fewer than six bytes are left |
| H264Encoder.FragmentsOf | third_party/h264_winrt/H264Encoder/H264Encoder.cc:426-446 | one fragment per start code |
| H264Encoder.Fragmentation | third_party/h264_winrt/H264Encoder/H264Encoder.cc:405-446 | (corrected) one fragment per start code found, each starting after a prefix of at least three bytes; a sample of at most five bytes has none |
| H264Encoder.FragmentationWellFormed | third_party/h264_winrt/H264Encoder/H264Encoder.cc:405-446 | (corrected) every fragment starts right after a start code, consecutive fragments end where the next start code begins, and the last one ends at the end of the sample |
| H264Encoder.ShortSampleHasNoFragments | third_party/h264_winrt/H264Encoder/H264Encoder.cc:408 | (corrected) a sample of at most five bytes has no fragments and no key frame by its content |
| H264Encoder.ShortSampleOverreads | third_party/h264_winrt/H264Encoder/H264Encoder.cc:408-411 | as written, for a sample shorter than five bytes the wrapped bound lets every `uint32_t` position through, so whatever the sample and the memory after it hold, the loop runs a step at a position at or past the end of the sample, whose first read `ptr[0]` is outside the buffer |
| H264Encoder.ScanPositionsAsWritten | third_party/h264_winrt/H264Encoder/H264Encoder.cc:408-439 | as written, every position the scan visits lies at or after its start and below the loop bound: the loop runs a step only while the position is below `size() - 5` in `size_t` |
| H264Encoder.ScanBoundAsWritten | third_party/h264_winrt/H264Encoder/H264Encoder.cc:408 | as written, the loop bound is the size minus 5 for samples of at least five bytes and wraps to within 5 of 2^64 for shorter ones |
| H264Encoder.AnyIdrMeaning | third_party/h264_winrt/H264Encoder/H264Encoder.cc:419-424 | a frame is marked key by its content iff some start code introduces an IDR slice |
| H264Encoder.KeyFrameByStartCodes | third_party/h264_winrt/H264Encoder/H264Encoder.cc:395-424 | (corrected) a sample is a key frame iff it is a clean point or one of its start codes introduces an IDR slice |
| H264Encoder.IsKeyFrame | third_party/h264_winrt/H264Encoder/H264Encoder.cc:395-424 | (corrected) a clean point is always a key frame; a sample of at most five bytes is one exactly when it is a clean point |
| H264Encoder.SampleTimeFacts | third_party/h264_winrt/H264Encoder/H264Encoder.cc:268 | the first frame has sample time 0, sample times never decrease, whole milliseconds convert exactly, and sample times are whole milliseconds in 100 ns units |
| H264Encoder.SampleTimeHns | third_party/h264_winrt/H264Encoder/H264Encoder.cc:268 | a sample time is a whole number of milliseconds in 100 ns units, never negative from the first frame's timestamp on and never positive before it |
| H264Encoder.Pop | third_party/h264_winrt/H264Encoder/H264Encoder.cc:466 | the attributes are found iff some entry has the sample time; otherwise the queue is unchanged, and a found entry is removed |
| H264Encoder.PushedAttributesPopped | third_party/h264_winrt/H264Encoder/H264Encoder.cc:286-466 | attributes pushed for a sample time are popped back for it, leaving the queue as before |
| H264Encoder.Rates | third_party/h264_winrt/H264Encoder/H264Encoder.cc:516-528 | the bitrate becomes the new one in uint32 arithmetic; the frame rate moves only, and always, when it differs by more than 5; a change is reported iff either moved |
| H264Encoder.DeferredRatesNotRetried | third_party/h264_winrt/H264Encoder/H264Encoder.cc:531-535 | a change skipped because it came too soon is not applied by repeating the same call later |
| H264Encoder.Encoder.constructor | third_party/h264_winrt/H264Encoder/H264Encoder.cc:48-61 | a new encoder is uninitialised, expecting its first frame, with all counters and sizes zero |
| H264Encoder.Encoder.InitEncoderWithSettings | third_party/h264_winrt/H264Encoder/H264Encoder.cc:78-162 | the encoder is initialised, and the settings-change time stamped, exactly when the Media Foundation setup succeeds; its failure code is returned |
| H264Encoder.Encoder.InitEncode | third_party/h264_winrt/H264Encoder/H264Encoder.cc:67-76 | the size and frame rate are taken from the codec settings, the bitrate is the target times 1024 (or a size-based default), then the encoder is set up |
| H264Encoder.Encoder.RegisterEncodeCompleteCallback | third_party/h264_winrt/H264Encoder/H264Encoder.cc:164-169 | only the callback changes |
| H264Encoder.Encoder.Release | third_party/h264_winrt/H264Encoder/H264Encoder.cc:171-199 | the sink writer, callback and pending attributes go, and the timing restarts from the first frame |
| H264Encoder.Encoder.Restart | third_party/h264_winrt/H264Encoder/H264Encoder.cc:537-543 | a release and re-initialisation that keeps the callback |
| H264Encoder.Encoder.FollowResolution | third_party/h264_winrt/H264Encoder/H264Encoder.cc:247-261 | a frame of a new size restarts the encoder at that size; a frame of the same size changes nothing |
| H264Encoder.Encoder.FromVideoFrame | third_party/h264_winrt/H264Encoder/H264Encoder.cc:203-305 | the sample gets the frame's sample time and the duration since the previous one, the first frame fixes the start time, the attributes are queued, and a preceding drop marks a discontinuity |
| H264Encoder.Encoder.Stamp | third_party/h264_winrt/H264Encoder/H264Encoder.cc:263-304 | the first frame after a (re)start fixes the start time; the sample time is the 90 kHz timestamp offset converted to 100 ns units, the duration runs from the previous sample time, and the attributes are queued under the sample time |
| H264Encoder.Encoder.Encode | third_party/h264_winrt/H264Encoder/H264Encoder.cc:307-359 | an uninitialised encoder refuses the frame; with more than two frames queued the frame is dropped; otherwise one sample is written, the frame counts as pending and every 30th frame ends a segment |
| H264Encoder.Encoder.ScanFragments | third_party/h264_winrt/H264Encoder/H264Encoder.cc:405-446 | (corrected) the fragments and frame type are exactly `Fragmentation` and `IsKeyFrame` of the sample |
| H264Encoder.ClosedFragments | third_party/h264_winrt/H264Encoder/H264Encoder.cc:441-446 | giving the open last fragment the length up to the end of the sample yields the fragments of the found start codes in the whole sample |
| H264Encoder.Encoder.ScanStartCodes | third_party/h264_winrt/H264Encoder/H264Encoder.cc:408-440 | (corrected) the scan loop finds exactly the start codes, sets each fragment's offset and previous length, and marks IDR slices |
| H264Encoder.Encoder.OnH264Encoded | third_party/h264_winrt/H264Encoder/H264Encoder.cc:361-487 | (corrected) an empty sample is ignored; otherwise the frame is no longer pending and, with a callback, its queued attributes are popped and the image is delivered with its fragments and frame type, or dropped when no attributes are queued |
| H264Encoder.Encoder.SetRates | third_party/h264_winrt/H264Encoder/H264Encoder.cc:497-547 | a zero frame rate is ignored, no sink writer gives uninitialised; otherwise the settings follow `Rates` and a change restarts the encoder unless the last change was under 15 s ago |
| H264Encoder.Encoder.OnDroppedFrame | third_party/h264_winrt/H264Encoder/H264Encoder.cc:549-562 | the next sample is marked as a discontinuity and a stream tick at the dropped frame's sample time is sent when there is a sink writer |
| H264Decoder.Dimensions | third_party/h264_winrt/H264Decoder/H264Decoder.cc:146-156 | the dimensions change only on a key frame with positive encoded width and height, and then to those |
| H264Decoder.LastKeyFrameDecides | third_party/h264_winrt/H264Decoder/H264Decoder.cc:146-156 | after a run of images the dimensions are those of the last key frame with positive dimensions, or unchanged when there is none |
| H264Decoder.DimensionsAfterAppend | third_party/h264_winrt/H264Decoder/H264Decoder.cc:116 | decoding one more image applies one dimension update |
| H264Decoder.Decoder.constructor | third_party/h264_winrt/H264Decoder/H264Decoder.cc:39-44 | zero dimensions and no callback |
| H264Decoder.Decoder.InitDecode | third_party/h264_winrt/H264Decoder/H264Decoder.cc:51-56 | initialisation always succeeds |
| H264Decoder.Decoder.RegisterDecodeCompleteCallback | third_party/h264_winrt/H264Decoder/H264Decoder.cc:134-139 | only the callback changes |
| H264Decoder.Decoder.Release | third_party/h264_winrt/H264Decoder/H264Decoder.cc:141-144 | releasing always succeeds |
| H264Decoder.Decoder.UpdateVideoFrameDimensions | third_party/h264_winrt/H264Decoder/H264Decoder.cc:146-156 | the dimensions follow `Dimensions` |
| H264Decoder.Decoder.Decode | third_party/h264_winrt/H264Decoder/H264Decoder.cc:106-132 | the dimensions are updated first; a created sample is delivered to a registered callback at the current dimensions, with the image's timestamps, the render time and no rotation; the result is always success |
| Codecs.FindCodecById | media/base/codec.h:238-244 | the first codec with the payload type is found, and none is found iff no codec has it |
| Codecs.NotEqualIrreflexiveSymmetric | media/base/codec.h:102-104 | `operator!=` is the negation of a reflexive, symmetric `operator==`: a codec never differs from itself, and difference does not depend on operand order |
| StubHeaders.Lower | tools_webrtc/stub-headers.py:12 | lower-casing keeps letters and digits alphanumeric and leaves no upper-case letter |
| StubHeaders.Upper | tools_webrtc/stub-headers.py:13 | upper-casing keeps letters and digits alphanumeric and leaves no lower-case letter |
| StubHeaders.GuardChar | tools_webrtc/stub-headers.py:12-13 | a letter or digit becomes its upper-case form, anything else `_`; the result is an upper-case letter, a digit or `_` |
| StubHeaders.HeaderGuard | tools_webrtc/stub-headers.py:10-13 | the guard is two characters longer than directory and file name together, ends in `_`, and holds only upper-case letters, digits and `_` |
| StubHeaders.HeaderGuardShape | tools_webrtc/stub-headers.py:10-13 | the guard has one character per character of `dirname_filename`, in place, then a trailing `_`, all from the guard alphabet |
| StubHeaders.GuardCharIdempotent | tools_webrtc/stub-headers.py:12-13 | mapping a guard character again changes nothing |
| StubHeaders.GuardIgnoresCase | tools_webrtc/stub-headers.py:12-13 | a letter and its capital give the same guard character |
| StubHeaders.StubbedFiles | tools_webrtc/stub-headers.py:68-71 | exactly the `.h` files other than `sslroots.h` are rewritten |
| StubHeaders.SslRootsNeverStubbed | tools_webrtc/stub-headers.py:70 | `sslroots.h` is never rewritten |
| StubHeaders.IsStubbed | tools_webrtc/stub-headers.py:70 | only a name ending in `.h` is rewritten, and never `sslroots.h` |
| RemotingApi.AsFloat | remoting/remoting_api.cc:213-231 | an element reads as a float exactly when it is a number, giving that number, null, giving 0, or a boolean, giving 1 or 0 |
| RemotingApi.SetIndex | remoting/remoting_api.cc:286-304 | assigning an index yields an array long enough for it, holding the value there and every other element unchanged |
| RemotingApi.Index | remoting/remoting_api.cc:213-231 | reading an index inside an array gives its element |
| RemotingApi.SerializeValues | remoting/remoting_api.cc:284-317 | writing values by index yields an array |
| RemotingApi.SerializeValuesIsArray | remoting/remoting_api.cc:284-317 | writing values in index order from a null value yields exactly the array of those numbers |
| RemotingApi.DeserializeValues | remoting/remoting_api.cc:210-244 | a read gives exactly as many values as asked for |
| RemotingApi.DeserializeValuesOfArray | remoting/remoting_api.cc:210-244 | reading an array of numbers back gives its values |
| RemotingApi.MatrixElements | remoting/remoting_api.cc:284-307 | a matrix has 16 elements |
| RemotingApi.VectorElements | remoting/remoting_api.cc:309-317 | a vector has 3 elements |
| RemotingApi.MatrixOfElements | remoting/remoting_api.cc:210-233 | building a matrix from 16 values and listing its elements gives the values back |
| RemotingApi.SerializeMatrix | remoting/remoting_api.cc:284-307 | a matrix is written as an array |
| RemotingApi.SerializeVector | remoting/remoting_api.cc:309-317 | a vector is written as an array |
| RemotingApi.DeserializeMatrix | remoting/remoting_api.cc:210-233 | a matrix is read exactly when its 16 elements read as floats, and its elements are those values in row order |
| RemotingApi.DeserializeVector | remoting/remoting_api.cc:235-243 | a vector is read exactly when its 3 elements read as floats, and its coordinates are those values |
| RemotingApi.Get | remoting/remoting_api.cc:251-266 | a lookup gives the member under a present key, and yields an array only for a present key |
| RemotingApi.SerializeMatrixLayout | remoting/remoting_api.cc:284-307 | a matrix is written row by row, as 16 numbers |
| RemotingApi.MatrixRoundTrip | remoting/remoting_api.cc:210-307 | reading a written matrix gives it back |
| RemotingApi.VectorRoundTrip | remoting/remoting_api.cc:236-317 | reading a written vector gives it back |
| RemotingApi.SerializePose | remoting/remoting_api.cc:319-333 | a pose is an object with exactly the six pose keys, each holding an array |
| RemotingApi.SerializedPoseFields | remoting/remoting_api.cc:319-333 | each pose key holds the serialised matrix or vector of the matching pose field |
| RemotingApi.DecodePose | remoting/remoting_api.cc:246-282 | (corrected) the text is always parsed: a pose is decoded only when all six keys hold arrays, and a missing key or non-array value is refused instead of aborting |
| RemotingApi.DecodePoseRelease | remoting/remoting_api.cc:246-282 | (as written, `NDEBUG` build) the parse and the array checks are compiled out with the assertions, so the root stays null and no pose is ever decoded |
| RemotingApi.ReleaseBuildDecodesNothing | remoting/remoting_api.cc:246-282 | a serialised pose, which the corrected decoding gives back, is not decoded in an `NDEBUG` build |
| RemotingApi.PoseRoundTrip | remoting/remoting_api.cc:246-333 | decoding a serialised pose gives the same pose |
| RemotingApi.MissingKeyRefused | remoting/remoting_api.cc:252-268 | a pose object missing any of the six keys is refused |
| Marshalling.FromCx | webrtc/build/WinRT_gyp/Api/Marshalling.cc:38-42 | a WinRT value converts iff the table lists it, and then to a native value paired with it in the table |
| Marshalling.ToCx | webrtc/build/WinRT_gyp/Api/Marshalling.cc:43-50 | a native value converts to a WinRT value paired with it in the table, and fails (the `throw`) iff no entry has it |
| Marshalling.ToCxInvertsFromCx | webrtc/build/WinRT_gyp/Api/Marshalling.cc:34-50 | with distinct native values, WinRT to native and back gives the value again |
| Marshalling.FromCxInvertsToCx | webrtc/build/WinRT_gyp/Api/Marshalling.cc:34-50 | with distinct WinRT values, native to WinRT and back gives the value again |
| Marshalling.BundlePolicyRoundTrips | webrtc/build/WinRT_gyp/Api/Marshalling.cc:53-63 | every bundle policy survives both conversions |
| Marshalling.IceTransportPolicyRoundTrips | webrtc/build/WinRT_gyp/Api/Marshalling.cc:65-77 | every ICE transport policy survives both conversions |
| Marshalling.SignalingStateRoundTrips | webrtc/build/WinRT_gyp/Api/Marshalling.cc:79-95 | every signalling state survives both conversions |
| Marshalling.DataChannelStateRoundTrips | webrtc/build/WinRT_gyp/Api/Marshalling.cc:97-110 | every data channel state survives both conversions |
| Marshalling.IceGatheringStateRoundTrips | webrtc/build/WinRT_gyp/Api/Marshalling.cc:112-122 | every ICE gathering state survives both conversions |
| Marshalling.IceConnectionStateRoundTrips | webrtc/build/WinRT_gyp/Api/Marshalling.cc:124-142 | every ICE connection state survives both conversions |
| Marshalling.IceServerFromCx | webrtc/build/WinRT_gyp/Api/Marshalling.cc:400-409 | each of URL, user name and credential is copied when present and otherwise left as it was |
| Marshalling.EmptyIceServerChangesNothing | webrtc/build/WinRT_gyp/Api/Marshalling.cc:400-409 | an ICE server with nothing set leaves the output unchanged |
| Marshalling.ConfigurationFromCx | webrtc/build/WinRT_gyp/Api/Marshalling.cc:411-438 | a missing bundle policy means Balanced and a missing transport policy means all; present ones are converted; a missing server list leaves the output's |
| Marshalling.DataChannelInitFromCx | webrtc/build/WinRT_gyp/Api/Marshalling.cc:440-453 | each missing field takes its default (ordered, -1, -1, not negotiated, id -1) and each present one its value; the protocol is copied |
| Marshalling.SdpTypeFromCx | webrtc/build/WinRT_gyp/Api/Marshalling.cc:473-483 | an SDP type becomes one of offer, pranswer and answer |
| Marshalling.SdpTypeToCx | webrtc/build/WinRT_gyp/Api/Marshalling.cc:485-494 | a string that names no SDP type leaves the output unchanged |
| Marshalling.SdpTypeRoundTrip | webrtc/build/WinRT_gyp/Api/Marshalling.cc:473-494 | SDP type to string and back gives it again, and distinct types give distinct strings |
| Media.FirstWithId | webrtc/build/WinRT_gyp/Api/Media.cc:609-657 | the first device with the id, or -1 iff there is none |
| Media.GetAudioDeviceIndex | webrtc/build/WinRT_gyp/Api/Media.cc:806-844 | 0 when the device count cannot be obtained; otherwise the first index with the id, and -1 iff no device has it |
| Media.Media.constructor | webrtc/build/WinRT_gyp/Api/Media.cc:288-309 | no video device and the default audio devices are selected |
| Media.Media.SelectVideoDevice | webrtc/build/WinRT_gyp/Api/Media.cc:609-620 | the listed device with the id is selected, or none when it is not listed; the audio selections are untouched |
| Media.Media.SelectAudioCaptureDevice | webrtc/build/WinRT_gyp/Api/Media.cc:622-638 | no device selects the default and succeeds; a device succeeds iff it is listed, selecting it; a failure leaves the default |
| Media.Media.SelectAudioPlayoutDevice | webrtc/build/WinRT_gyp/Api/Media.cc:640-657 | the same for the playout device |
| Media.FindDevice | webrtc/build/WinRT_gyp/Api/Media.cc:612-619 | the loop finds the first device with the id |
| Media.CapabilityOf | webrtc/build/WinRT_gyp/Api/Media.cc:703-705 | a usable property's capability keeps its non-zero size and aspect ratio, and its frame rate is the integer quotient of numerator by denominator |
| Media.Capabilities | webrtc/build/WinRT_gyp/Api/Media.cc:690-711 | the list has at most one capability per property, each of non-zero size |
| Media.CapabilitiesDeduplicated | webrtc/build/WinRT_gyp/Api/Media.cc:674-713 | the listed capabilities have distinct descriptions, each comes from a usable video property, and every usable property's description is listed |
| Media.DescriptionsAppend | webrtc/build/WinRT_gyp/Api/Media.cc:706-709 | appending a capability adds its description to the set seen |
| Media.GetVideoCaptureCapabilities | webrtc/build/WinRT_gyp/Api/Media.cc:674-713 | null exactly when the device has no media capture object or no stream properties are listed; otherwise exactly `Capabilities` of the properties, which CapabilitiesDeduplicated characterises |
| Media.Active | webrtc/build/WinRT_gyp/Api/Media.cc:263-277 | a stream without a native object is inactive; otherwise it is active iff some audio or video track has not ended |
| FileUtils.LastIndexOf | webrtc/test/testsupport/fileutils.cc:106 | the last position holding the character, or -1 when there is none |
| FileUtils.ReplaceSlashes | webrtc/test/testsupport/fileutils.cc:101-103 | every slash becomes a backslash and nothing else changes |
| FileUtils.WorkingDir | webrtc/test/testsupport/fileutils.cc:191-199 | when the current directory cannot be read the working directory is the fallback `./` |
| FileUtils.SearchUp | webrtc/test/testsupport/fileutils.cc:144-156 | a root found ends with the delimiter and holds the marker file; a path without a delimiter finds none |
| FileUtils.SearchUpFindsMarker | webrtc/test/testsupport/fileutils.cc:144-156 | the project root found is the start directory or one above it that holds the marker file; otherwise the error string |
| FileUtils.MarkerHereFound | webrtc/test/testsupport/fileutils.cc:145-149 | a marker file in the start directory is found at once |
| FileUtils.CreateDir | webrtc/test/testsupport/fileutils.cc:253-271 | an existing path succeeds iff it is a directory; otherwise `mkdir` decides |
| FileUtils.ResourceCandidates | webrtc/test/testsupport/fileutils.cc:294-310 | three names are tried |
| FileUtils.TestPaths.constructor | webrtc/test/testsupport/fileutils.cc:83-84 | no relative directory path is set |
| FileUtils.TestPaths.RootFor | webrtc/test/testsupport/fileutils.cc:132-157 | the fallback working directory gives the error string; on WinRT the working directory with a delimiter is the root; elsewhere a root found holds the marker file |
| FileUtils.TestPaths.SetExecutablePath | webrtc/test/testsupport/fileutils.cc:90-109 | an absolute path loses the working directory prefix, slashes become backslashes on Windows, and the directory part is stored and marked set; a path too short for the prefix throws and changes nothing |
| FileUtils.TestPaths.ProjectRootPath | webrtc/test/testsupport/fileutils.cc:132-157 | the root is the search result `RootFor` gives: an error for the fallback working directory, the working directory on WinRT, otherwise the upward search from the executable's directory |
| FileUtils.TestPaths.OutputPath | webrtc/test/testsupport/fileutils.cc:159-178 | on WinRT the local folder path cut to 254 characters (the 255-character buffer less its terminator), then the delimiter; elsewhere `<root>out<delimiter>` when the root is found and the directory can be created, otherwise the fallback |
| FileUtils.TestPaths.ResourcePath | webrtc/test/testsupport/fileutils.cc:273-315 | the first existing name with platform and architecture, platform, or architecture, else the plain `name.extension` |
| FileUtils.FirstExisting | webrtc/test/testsupport/fileutils.cc:298-313 | the result is the fallback or an existing candidate, and the fallback when none exists |
| FileUtils.FirstExistingOfThree | webrtc/test/testsupport/fileutils.cc:298-313 | of three candidates the first existing one is chosen, in order |
| FileUtils.FirstExistingPrefersEarlier | webrtc/test/testsupport/fileutils.cc:298-313 | an earlier existing candidate always wins |
| ConferenceTransport.GetBE32 | webrtc/voice_engine/test/auto_test/fakes/conference_transport.cc:35 | a big-endian 32-bit read is an unsigned 32-bit value |
| ConferenceTransport.BE32Bytes | webrtc/voice_engine/test/auto_test/fakes/conference_transport.cc:35 | a 32-bit value is written as four bytes |
| ConferenceTransport.GetBE32OfBytes | webrtc/voice_engine/test/auto_test/fakes/conference_transport.cc:35 | reading back four written bytes gives the value |
| ConferenceTransport.ParseSsrc | webrtc/voice_engine/test/auto_test/fakes/conference_transport.cc:31-38 | the SSRC is read big-endian at offset 8 (RTP) or 4 (RTCP), and is 0 for a packet too short to hold it |
| ConferenceTransport.ParseSsrcReadsWrittenSsrc | webrtc/voice_engine/test/auto_test/fakes/conference_transport.cc:31-38 | a packet with the SSRC written at its offset gives it back |
| ConferenceTransport.ReceiverFor | webrtc/voice_engine/test/auto_test/fakes/conference_transport.cc:116-124 | a registered SSRC gives its receiver channel, any other -1 |
| ConferenceTransport.Route | webrtc/voice_engine/test/auto_test/fakes/conference_transport.cc:139-174 | a delivered packet keeps its type and bytes; the remote network only ever gets it on the reflector channel, and a local channel other than the sender is reached only by an SSRC with a registered stream |
| ConferenceTransport.RouteCases | webrtc/voice_engine/test/auto_test/fakes/conference_transport.cc:139-174 | a packet is delivered unchanged: from the local SSRC to the reflector, RTCP from the reflector to the local sender, others to the stream's receiver when it is registered, else dropped |
| ConferenceTransport.Routed | webrtc/voice_engine/test/auto_test/fakes/conference_transport.cc:176-207 | draining the queue delivers at most one packet per packet |
| ConferenceTransport.RoutedSnoc | webrtc/voice_engine/test/auto_test/fakes/conference_transport.cc:186-204 | routing one more packet appends its delivery, if any, to the deliveries so far |
| ConferenceTransport.RoutedAppend | webrtc/voice_engine/test/auto_test/fakes/conference_transport.cc:186-204 | routing two queues in turn is routing their concatenation |
| ConferenceTransport.TeardownAsWritten | webrtc/voice_engine/test/auto_test/fakes/conference_transport.cc:241-255 | as written, every remote-network call names the receiver channel and every local-network call the sender channel |
| ConferenceTransport.Teardown | webrtc/voice_engine/test/auto_test/fakes/conference_transport.cc:241-255 | (corrected) every remote-network call names the sender channel, which the remote engine created, and every local-network call the receiver channel |
| ConferenceTransport.TeardownAsWrittenMissesSender | webrtc/voice_engine/test/auto_test/fakes/conference_transport.cc:247-252 | as written, the sender channel is never de-registered from the remote network, while the corrected teardown does it |
| ConferenceTransport.TeardownAsWrittenExample | webrtc/voice_engine/test/auto_test/fakes/conference_transport.cc:247-248 | for sender 1 and receiver 2, the code as written de-registers channel 2 from the remote network |
| ConferenceTransport.Transport.constructor | webrtc/voice_engine/test/auto_test/fakes/conference_transport.cc:43-79 | no streams, nothing queued, zero RTT and stream count |
| ConferenceTransport.Transport.StorePacket | webrtc/voice_engine/test/auto_test/fakes/conference_transport.cc:105-133 | the packet is queued and its length returned as an int |
| ConferenceTransport.Transport.GetReceiverChannelForSsrc | webrtc/voice_engine/test/auto_test/fakes/conference_transport.cc:116-124 | the receiver channel `ReceiverFor` gives |
| ConferenceTransport.Transport.DispatchPackets | webrtc/voice_engine/test/auto_test/fakes/conference_transport.cc:176-207 | a timeout or error leaves the queue; a signal drains it, delivering `Routed` of it; it always asks to be called again |
| ConferenceTransport.Transport.SendFirst | webrtc/voice_engine/test/auto_test/fakes/conference_transport.cc:186-204 | one step of the drain takes the head of the queue off and adds its delivery, if it has one, to what was delivered |
| ConferenceTransport.Transport.SetRtt | webrtc/voice_engine/test/auto_test/fakes/conference_transport.cc:209-211 | only the round-trip time changes |
| ConferenceTransport.Transport.AddStream | webrtc/voice_engine/test/auto_test/fakes/conference_transport.cc:213-239 | the stream gets the next SSRC from 2 upward (unsigned), the count grows by one and the sender and receiver are registered under it |
| ConferenceTransport.Transport.RemoveStream | webrtc/voice_engine/test/auto_test/fakes/conference_transport.cc:241-255 | (corrected) an unknown id fails; a known one is removed after tearing its channels down |
| ConferenceTransport.Transport.HasReceiver | webrtc/voice_engine/test/auto_test/fakes/conference_transport.cc:257-274 | playout and statistics succeed iff the id has a receiver |
| ConferenceTransport.AddedStreamsGetConsecutiveSsrcs | webrtc/voice_engine/test/auto_test/fakes/conference_transport.cc:217 | below 2^32, consecutive streams get consecutive SSRCs, never the local or reflector SSRC |
| UdpSocketManager.Fd32 | webrtc/test/channel_transport/udp_socket_manager_winuwp.cc:328-329 | a descriptor is compared as a 32-bit unsigned value, equal to the descriptor whenever it fits |
| UdpSocketManager.RemoveFirstFd | webrtc/test/channel_transport/udp_socket_manager_winuwp.cc:363-373 | taking the first add-list socket with a descriptor out shortens the list by one when there is one, leaves it unchanged when there is none, and keeps only sockets that were there |
| UdpSocketManager.ApplyRemovals | webrtc/test/channel_transport/udp_socket_manager_winuwp.cc:352-385 | after the removals no queued descriptor is in the map, the map has no new key and no changed entry, and the add list keeps only sockets it had |
| UdpSocketManager.ApplyAdditions | webrtc/test/channel_transport/udp_socket_manager_winuwp.cc:390-398 | the additions put exactly the descriptors of the add list into the map, besides the keys already there |
| UdpSocketManager.ApplyAdditionsStoresLast | webrtc/test/channel_transport/udp_socket_manager_winuwp.cc:390-398 | a descriptor added more than once maps to the last socket added with it |
| UdpSocketManager.SocketManagerImpl.constructor | webrtc/test/channel_transport/udp_socket_manager_winuwp.cc:186-194 | a worker starts with an empty socket map, add list and remove list |
| UdpSocketManager.SocketManagerImpl.AddSocket | webrtc/test/channel_transport/udp_socket_manager_winuwp.cc:305-317 | the socket is accepted exactly when its descriptor is valid and the map holds fewer than FD_SETSIZE sockets, and then (only then) it is appended to the add list; the map and remove list are untouched |
| UdpSocketManager.SocketManagerImpl.RemoveSocket | webrtc/test/channel_transport/udp_socket_manager_winuwp.cc:319-348 | the result is true exactly when the socket is waiting in the add list or is in the map; a socket in the add list queues its descriptor as a 32-bit value, one in the map its full descriptor, and otherwise nothing is queued |
| UdpSocketManager.SocketManagerImpl.UpdateSocketMap | webrtc/test/channel_transport/udp_socket_manager_winuwp.cc:352-401 | the new map is the removals applied first and the additions after, and both lists end empty |
| UdpSocketManager.SocketManagerImpl.ProcessRemoveList | webrtc/test/channel_transport/udp_socket_manager_winuwp.cc:355-385 | the remove loop leaves the add list and map that ApplyRemovals defines, and an empty remove list |
| UdpSocketManager.SocketManagerImpl.ProcessAddList | webrtc/test/channel_transport/udp_socket_manager_winuwp.cc:390-399 | the add loop leaves the map that ApplyAdditions defines, an empty add list and the remove list as it was |
| UdpSocketManager.CreateWorkers | webrtc/test/channel_transport/udp_socket_manager_winuwp.cc:52-55 | Init creates the requested number of distinct new workers, each empty |
| UdpSocketManager.FindFd | webrtc/test/channel_transport/udp_socket_manager_winuwp.cc:363-373 | the inner search stops at the first add-list socket with the descriptor, or at the end when there is none |
| UdpSocketManager.RemoveFirstFdAt | webrtc/test/channel_transport/udp_socket_manager_winuwp.cc:363-373 | erasing at the index the search stopped at is taking out the first socket with the descriptor |
| UdpSocketManager.RemovedStayRemoved | webrtc/test/channel_transport/udp_socket_manager_winuwp.cc:352-401 | a descriptor queued for removal and not waiting to be added is absent from the map after the update |
| UdpSocketManager.AssignedWorker | webrtc/test/channel_transport/udp_socket_manager_winuwp.cc:142-154 | the worker whose turn it is after a number of sockets is always one of the workers |
| UdpSocketManager.AssignedWorkerStep | webrtc/test/channel_transport/udp_socket_manager_winuwp.cc:144-154 | the turn stays put after the first socket of a pair and moves to the next worker, wrapping to the first, after the second |
| UdpSocketManager.SocketManager.constructor | webrtc/test/channel_transport/udp_socket_manager_winuwp.cc:25-33 | a new manager has id -1, no work threads, a manager count of 255 ((uint8_t)-1), both round-robin counters at zero and no workers |
| UdpSocketManager.SocketManager.Init | webrtc/test/channel_transport/udp_socket_manager_winuwp.cc:36-57 | Init fails, changing nothing, exactly when an id or a thread count is already set; otherwise it records both and creates min(threads, 8) fresh empty workers |
| UdpSocketManager.SocketManager.AddSocket | webrtc/test/channel_transport/udp_socket_manager_winuwp.cc:124-157 | the socket goes to the worker whose turn it is (two sockets per worker in turn), the turn moves on whether or not the worker accepted it, and the result is that worker's |
| UdpSocketManager.SocketManager.AdvanceTurn | webrtc/test/channel_transport/udp_socket_manager_winuwp.cc:142-154 | after one more socket the next worker is the round-robin position `AssignedWorker` gives: every second socket moves the turn on, wrapping after the last worker |
| UdpSocketManager.TurnStep | webrtc/test/channel_transport/udp_socket_manager_winuwp.cc:144-153 | the flag and the next-worker index the branch computes are the parity and round-robin position of one socket more |
| PacketSender.Merge | webrtc/modules/remote_bitrate_estimator/test/packet_sender.cc:289 | merging two packet lists keeps exactly the packets of both |
| PacketSender.MergeLowerBound | webrtc/modules/remote_bitrate_estimator/test/packet_sender.cc:289 | a bound below every send time of two lists bounds every send time of their merge |
| PacketSender.MergeSorted | webrtc/modules/remote_bitrate_estimator/test/packet_sender.cc:289 | merging two lists sorted by send time gives a list sorted by send time |
| PacketSender.SplitFeedback | webrtc/modules/remote_bitrate_estimator/test/packet_sender.cc:25-41 | the packets taken out and the packets left add up to the list |
| PacketSender.SplitFeedbackParts | webrtc/modules/remote_bitrate_estimator/test/packet_sender.cc:25-41 | the packets taken out and those left are, together, exactly the list, and every packet taken out is a feedback packet of the flow sent by the end time |
| PacketSender.SplitFeedbackTakesAll | webrtc/modules/remote_bitrate_estimator/test/packet_sender.cc:25-41 | in a list sorted by send time, no feedback packet of the flow sent by the end time is left behind |
| PacketSender.SplitFeedbackStep | webrtc/modules/remote_bitrate_estimator/test/packet_sender.cc:30-37 | one step of the walk over a packet sent by the end time: a feedback packet of the flow is taken out, any other packet stays, and the walk goes on with the rest in both cases |
| PacketSender.GetFeedbackPackets | webrtc/modules/remote_bitrate_estimator/test/packet_sender.cc:25-41 | the loop returns the feedback packets and the list left as SplitFeedback defines them |
| PacketSender.MissingCount | webrtc/modules/remote_bitrate_estimator/test/packet_sender.cc:314-324 | at most the width of the range is counted as missing |
| PacketSender.MissingCountPositive | webrtc/modules/remote_bitrate_estimator/test/packet_sender.cc:314-324 | something is missing exactly when some sequence number after the last acknowledged one, up to the newest acknowledged now, is not in the ack list |
| PacketSender.LatestSequenceNumber | webrtc/modules/remote_bitrate_estimator/test/packet_sender.cc:310-311 | the latest of two 16-bit sequence numbers is one of them, and is the first exactly when it is newer than the second or equal to it |
| PacketSender.Ceil | webrtc/modules/remote_bitrate_estimator/test/packet_sender.cc:284 | ceil gives the least integer not below the window |
| PacketSender.TcpSender.GeneratePackets | webrtc/modules/remote_bitrate_estimator/test/packet_sender.cc:326-333 | the requested number of media packets of the flow, stamped with the current time and 1200 payload bytes, carry consecutive 16-bit sequence numbers from the next one, which moves on by the count; nothing else changes |
| PacketSender.TcpSender.PacketsToSend | webrtc/modules/remote_bitrate_estimator/test/packet_sender.cc:284-285 | the packets to send are max(ceil(cwnd) - in_flight, 0) |
| PacketSender.TcpSender.SendPackets | webrtc/modules/remote_bitrate_estimator/test/packet_sender.cc:283-291 | that many packets are generated and added to the packets in flight, which then reach the rounded-up window; the output is the input merged by send time with exactly those generated packets (consecutive sequence numbers from the next one, the current time, 1200 bytes), so it holds the input plus them and stays in send-time order when the input was; it is the input itself when there are none |
| PacketSender.TcpSender.LossEvent | webrtc/modules/remote_bitrate_estimator/test/packet_sender.cc:314-324 | the sequence numbers after the last acknowledged one, up to the newest acknowledged now, that are missing from the ack list are taken off the packets in flight, and a loss is reported exactly when there is one |
| PacketSender.TcpSender.UpdateCongestionControl | webrtc/modules/remote_bitrate_estimator/test/packet_sender.cc:293-312 | an ack is recorded; the acknowledged and the missing packets leave the flight; a loss halves the window and ends slow start, otherwise slow start grows it by the packets acknowledged and congestion avoidance by 1/cwnd; the last acknowledged number becomes the latest of the two |
| PacketSender.WindowChange | webrtc/modules/remote_bitrate_estimator/test/packet_sender.cc:301-308 | a loss strictly shrinks a positive window and no other update shrinks it |
| PacketSender.NextProcessTime | webrtc/modules/remote_bitrate_estimator/test/packet_sender.cc:193-204 | the next process time is between 0 and 10, no later than any module's (clamped at 0), and is 10, 0 or one module's time |
| PacketSender.TimeUntilNextProcess | webrtc/modules/remote_bitrate_estimator/test/packet_sender.cc:193-204 | the loop over the modules returns NextProcessTime of their times |
| Common.Zeros | examples/unityplugin/vraudio/vraudio_wrap.cc:341-344 | a run of silence, as the mixer pads a frame and the audio device (webrtc/modules/audio_device/win/audio_device_wasapi_win.cc:4884-4891) fills extra channels, is that many zero samples |
| VrAudio.MaxRate | examples/unityplugin/vraudio/vraudio_wrap.cc:260-265 | the maximum of 0 and the preferred rates the sources report is non-negative, bounds every one of them and is 0 or one of them |
| VrAudio.MaximalRateUnique | examples/unityplugin/vraudio/vraudio_wrap.cc:260-265 | there is only one such maximum |
| VrAudio.LowerBound | examples/unityplugin/vraudio/vraudio_wrap.cc:273-275 | std::lower_bound gives the first index whose rate is not below the value, with every rate before it below |
| VrAudio.RoundedUpRate | examples/unityplugin/vraudio/vraudio_wrap.cc:268-280 | the rate chosen for a maximal preferred rate is always native: 48 kHz outside 8-48 kHz, otherwise the smallest native rate at or above it |
| VrAudio.MixingFrequencyIsNative | examples/unityplugin/vraudio/vraudio_wrap.cc:256-281 | the mixing frequency is always one of 8, 16, 32 and 48 kHz |
| VrAudio.MixingFrequencyRoundsUp | examples/unityplugin/vraudio/vraudio_wrap.cc:256-281 | with no sources, or a maximal reported preferred rate outside 8-48 kHz, the frequency is 48 kHz; otherwise it is the smallest native rate at or above every rate the sources report |
| VrAudio.PowersAreSpread | examples/unityplugin/vraudio/vraudio_wrap.cc:218-222 | two different buffer sizes of the form 64 * 2^k are at least a factor of two apart |
| VrAudio.ProcessingBufferSizeUnique | examples/unityplugin/vraudio/vraudio_wrap.cc:218-222 | the processing buffer size is determined by the frame size |
| VrAudio.ProcessingBufferSize | examples/unityplugin/vraudio/vraudio_wrap.cc:218-222 | the doubling loop ends at the largest 64 * 2^k not above the frame size, or at 64 when even that is above it |
| VrAudio.NativeProcessingBufferSizes | examples/unityplugin/vraudio/vraudio_wrap.cc:209-222 | at 8, 16, 32 and 48 kHz the processing buffers are 64, 128, 256 and 256 samples |
| VrAudio.Resized | examples/unityplugin/vraudio/vraudio_wrap.cc:333-344 | a source ring brought to a size keeps its newest samples when it was longer, and is padded with zeros after its samples when it was shorter |
| VrAudio.Dropped | examples/unityplugin/vraudio/vraudio_wrap.cc:366-367 | PopFront removes that many samples from the front, or all of them when fewer are held |
| VrAudio.Block | examples/unityplugin/vraudio/vraudio_wrap.cc:372-375 | one spatializer output buffer holds two channels of a processing buffer each |
| VrAudio.Blocks | examples/unityplugin/vraudio/vraudio_wrap.cc:360-376 | n processing steps render two channels of a processing buffer each |
| VrAudio.Drain | examples/unityplugin/vraudio/vraudio_wrap.cc:380-394 | one output frame takes two channels of a frame from the front of the output ring, losing and repeating nothing; a short ring is emptied and the frame padded with zeros |
| VrAudio.RefilledSize | examples/unityplugin/vraudio/vraudio_wrap.cc:333-356 | a source ring resized to the pending samples and fed one well-sized frame (or a frame of silence) holds the pending samples plus one frame per channel |
| VrAudio.ConsumedNSize | examples/unityplugin/vraudio/vraudio_wrap.cc:360-378 | each processing step takes one buffer per channel from a source ring |
| VrAudio.MixRings | examples/unityplugin/vraudio/vraudio_wrap.cc:328-397 | the ring-buffer mixing loops compute exactly the output frame and ring state that RingMix defines |
| VrAudio.SourceRingInStep | examples/unityplugin/vraudio/vraudio_wrap.cc:330-378 | after a call, a source ring with a well-sized frame holds the samples still pending, per channel |
| VrAudio.SpatializedRingsInStep | examples/unityplugin/vraudio/vraudio_wrap.cc:330-378 | after a call, every ring of a source with well-sized frames holds the pending samples per channel |
| VrAudio.ConsumedNKeepsSetUp | examples/unityplugin/vraudio/vraudio_wrap.cc:360-370 | consuming buffers does not change a source's registration with the spatializer |
| VrAudio.ConsumeAll | examples/unityplugin/vraudio/vraudio_wrap.cc:361-367 | a processing step keeps the same set of sources |
| VrAudio.SpatializedSources | examples/unityplugin/vraudio/vraudio_wrap.cc:330-378 | the sources after one mixing call are the same ones, with their registration kept |
| VrAudio.SpatializedOutput | examples/unityplugin/vraudio/vraudio_wrap.cc:360-376 | the output ring after the processing loop extends the old one by two channels of a buffer per step taken |
| VrAudio.RingMix | examples/unityplugin/vraudio/vraudio_wrap.cc:328-397 | one call yields an output frame of two channels of 10 ms, and leaves fewer than one processing buffer pending, the remainder of what was pending plus one frame |
| VrAudio.RingMixKeepsSources | examples/unityplugin/vraudio/vraudio_wrap.cc:328-397 | mixing neither adds nor drops a source nor changes its registration |
| VrAudio.RingMixKeepsRingsInStep | examples/unityplugin/vraudio/vraudio_wrap.cc:328-397 | with well-sized input frames every source ring stays in step with the pending sample count |
| VrAudio.RingMixDrainsOutput | examples/unityplugin/vraudio/vraudio_wrap.cc:372-394 | the output frame comes from the front of the output ring after the rendered buffers are appended; a short ring is drained and padded with zeros |
| VrAudio.Mixer.constructor | examples/unityplugin/vraudio/vraudio_wrap.h:105-121 | a new mixer has no spatializer, sample rate -1, no sources, time stamp 0 and nothing pending |
| VrAudio.Mixer.AddSource | examples/unityplugin/vraudio/vraudio_wrap.cc:31-52 | a source is added exactly when it is given and its SSRC is new; with a spatializer it is registered at once (and gets an empty ring unless zero padding is on); otherwise nothing changes |
| VrAudio.Mixer.Registered | examples/unityplugin/vraudio/vraudio_wrap.cc:31-52 | a source added with a spatializer present is registered (with an empty ring unless zero padding is on) and keeps its rate and frame; without a spatializer it is stored as given |
| VrAudio.Mixer.RemoveSource | examples/unityplugin/vraudio/vraudio_wrap.cc:54-75 | a given, known source is removed and nothing else changes; an absent or unknown source changes nothing |
| VrAudio.Mixer.CalculateMixingFrequency | examples/unityplugin/vraudio/vraudio_wrap.cc:256-281 | the loop over the sources returns MixingFrequency of the rates they report during the call, which MixingFrequencyIsNative and MixingFrequencyRoundsUp characterise |
| VrAudio.Mixer.Initialize | examples/unityplugin/vraudio/vraudio_wrap.cc:209-253 | (corrected) the rate, the 10 ms frame size and the processing buffer size are set (the frame size itself with zero padding), a spatializer exists, the rings are cleared without zero padding, and every source is registered again |
| VrAudio.Reregistered | examples/unityplugin/vraudio/vraudio_wrap.cc:283-299 | every source keeps its key, is marked set up, and without zero padding starts with an empty ring |
| VrAudio.Mixer.MixRingBuffers | examples/unityplugin/vraudio/vraudio_wrap.cc:328-397 | the output frame and the new source rings, pending count and output ring are those RingMix defines for the old ones |
| VrAudio.Mixer.MixZeroPadding | examples/unityplugin/vraudio/vraudio_wrap.cc:301-326 | with a source that has data the frame is the spatializer's one buffer; without one it is silence |
| VrAudio.ReceivedAll | examples/unityplugin/vraudio/vraudio_wrap.cc:92-103 | after the fetch loop the same sources remain, each updated from its own frame |
| VrAudio.Mixer.ReceiveFrames | examples/unityplugin/vraudio/vraudio_wrap.cc:92-103 | every source holds what its frame fetch reported, and the mixer stays valid |
| VrAudio.Mixer.AdvanceTimeStamp | examples/unityplugin/vraudio/vraudio_wrap.cc:86-90 | the output frame takes the old time stamp and the stamp advances by one frame of samples modulo 2^32 |
| VrAudio.Mixer.Mix | examples/unityplugin/vraudio/vraudio_wrap.cc:77-115 | (corrected) the mixer is initialized at the mixing frequency of the rates the sources report during this call (re-registering every source when that frequency changed), the frame carries the old time stamp and the stamp advances by one frame modulo 2^32; every source then holds its fetched frame, and the two-channel 10 ms output is one rendered buffer when zero padding finds a source with data, silence when none has data, and otherwise the ring mix of the fetched sources over the (reset on re-initialization) rings |
| VrAudio.Received | examples/unityplugin/vraudio/vraudio_wrap.cc:92-102 | a source has data exactly when its frame is normal, and takes the frame's channel count unless fetching it failed |
| VrAudio.InitializedMixerReportsUninitialized | examples/unityplugin/vraudio/vraudio_wrap.cc:117-120 | a mixer with a spatializer is initialized, yet the query as written reports it is not |
| VrAudio.Mixer.IsInitializedAsWritten | examples/unityplugin/vraudio/vraudio_wrap.cc:117-120 | as written: the query answers the opposite of whether the spatializer exists |
| VrAudio.Mixer.IsInitialized | examples/unityplugin/vraudio/vraudio_wrap.cc:117-120 | (corrected) an initialized mixer has a native sample rate and a 10 ms frame size; an uninitialized one has no rate |
| AudioDeviceWasapi.UpmixFrame | webrtc/modules/audio_device/win/audio_device_wasapi_win.cc:4872-4891 | one frame of output: with no more input than output channels the input channels are copied and the others silent; otherwise output channel j is the mean of input channels j and j+1, rounded toward zero |
| AudioDeviceWasapi.Upmixed | webrtc/modules/audio_device/win/audio_device_wasapi_win.cc:4862-4897 | mixing a number of frames gives that many frames of the output channel count |
| AudioDeviceWasapi.FrameBounds | webrtc/modules/audio_device/win/audio_device_wasapi_win.cc:4872-4873 | frame f's input and output slices lie within the first frames |
| AudioDeviceWasapi.UpmixedFrame | webrtc/modules/audio_device/win/audio_device_wasapi_win.cc:4872-4891 | output frame f is input frame f mixed, for every frame |
| AudioDeviceWasapi.UpmixedLastFrame | webrtc/modules/audio_device/win/audio_device_wasapi_win.cc:4872-4891 | the last output frame is the last input frame mixed |
| AudioDeviceWasapi.UpmixedPrefix | webrtc/modules/audio_device/win/audio_device_wasapi_win.cc:4872-4891 | mixing one frame more leaves the earlier output frames unchanged |
| AudioDeviceWasapi.UpmixedSameChannelsCopies | webrtc/modules/audio_device/win/audio_device_wasapi_win.cc:4874-4877 | with as many output as input channels the mixer copies its input |
| AudioDeviceWasapi.MixFrame | webrtc/modules/audio_device/win/audio_device_wasapi_win.cc:4874-4891 | the per-frame loops compute UpmixFrame |
| AudioDeviceWasapi.Upmix | webrtc/modules/audio_device/win/audio_device_wasapi_win.cc:4862-4897 | the frame loop computes Upmixed of the input |
| AudioDeviceWasapi.MaskForChannels | webrtc/modules/audio_device/win/audio_device_wasapi_win.cc:4804-4855 | 1, 2, 4, 6 and 8 channels get the mono, stereo, quad, 5.1 and 7.1 masks, which name that many speakers; any other count gets the stereo mask |
| AudioDeviceWasapi.GeneratePcmMixFormat | webrtc/modules/audio_device/win/audio_device_wasapi_win.cc:4804-4855 | an extensible format exists exactly for 16- and 32-bit mix formats; it keeps the channels, rate and bit depth, has cbSize 22, a mask naming as many speakers as channels where one exists, and is PCM exactly for 16 bits (IEEE float for 32) |
| AudioDeviceWasapi.MixFormatArithmetic | webrtc/modules/audio_device/win/audio_device_wasapi_win.cc:4804-4855 | for up to 8 channels at up to 384 kHz nothing wraps: a block is one sample of every channel and the byte rate one block per sample period |
| AudioDeviceWasapi.FirstSupportedChannels | webrtc/modules/audio_device/win/audio_device_wasapi_win.cc:2413-2431 | the channel count chosen at a rate is in the priority list and supported at it; no count is chosen only when none of the list is |
| AudioDeviceWasapi.FirstSupportedFormat | webrtc/modules/audio_device/win/audio_device_wasapi_win.cc:2409-2437 | a chosen (channels, rate) pair is supported; with no frequency or no channel count to try nothing is chosen |
| AudioDeviceWasapi.FirstSupportedFormatSound | webrtc/modules/audio_device/win/audio_device_wasapi_win.cc:2409-2437 | a chosen pair is supported and comes from the frequency and channel lists |
| AudioDeviceWasapi.FirstSupportedFormatFirst | webrtc/modules/audio_device/win/audio_device_wasapi_win.cc:2409-2437 | every frequency tried before the chosen one has no supported channel count, and when nothing is chosen no pair is supported |
| AudioDeviceWasapi.ObserverRestart | webrtc/modules/audio_device/win/audio_device_wasapi_win.cc:4148-4203 | the restart event is cleared; the direction is recovering exactly when stop, init and start all succeeded; otherwise the error is 2 |
| AudioDeviceWasapi.ThreadExit | webrtc/modules/audio_device/win/audio_device_wasapi_win.cc:3642-3679 | a thread told to stop changes nothing; one that ended on its own sets error 1 unless it lost the device outside a recovery, in which case it signals a restart instead; a loss ends a recovery under way |
| AudioDeviceWasapi.RecoveryRunSettled | webrtc/modules/audio_device/win/audio_device_wasapi_win.cc:3642-3679 | over any sequence of thread ends, processed buffers, observer restarts and default-device changes the error stays 0, 1 or 2; over one without default-device changes, no restart is pending while a recovery is under way |
| AudioDeviceWasapi.RecoveryStepSettled | webrtc/modules/audio_device/win/audio_device_wasapi_win.cc:3610-3613 | each single step keeps the error 0, 1 or 2; a thread end, processed buffer or observer restart keeps the flags settled, and an observer restart settles them whatever was pending |
| AudioDeviceWasapi.DefaultChangeUnsettles | webrtc/modules/audio_device/win/audio_device_wasapi_win.cc:5033-5047 | a default-device change during a restart of that direction leaves a restart pending while the recovery is under way |
| AudioDeviceWasapi.DefaultChanged | webrtc/modules/audio_device/win/audio_device_wasapi_win.cc:5033-5047 | the restart is signalled exactly when the direction follows the default device, is running and uses the changed role (or was signalled already); recovery and error are untouched |
| AudioDeviceWasapi.LossDuringRecoveryIsError | webrtc/modules/audio_device/win/audio_device_wasapi_win.cc:3661-3668 | a device lost again after a successful restart, before any buffer was processed, is error 1 and is not restarted a second time |
| AudioDeviceWasapi.LossAfterProgressRestarts | webrtc/modules/audio_device/win/audio_device_wasapi_win.cc:3610-3613 | once a buffer was processed after a restart, a new loss of the device requests a restart again |
| AudioDeviceWasapi.AudioDevice.constructor | webrtc/modules/audio_device/win/audio_device_wasapi_win.cc:706-815 | a new device prefers stereo for recording and playout, has two channels each, no playout format, an uninitialised speaker, and on both sides no error and no recovery or restart under way |
| AudioDeviceWasapi.AudioDevice.SetStereoRecording | webrtc/modules/audio_device/win/audio_device_wasapi_win.cc:1689-1703 | stereo on puts stereo first and two recording channels, off puts mono first and one channel; the playout side is untouched |
| AudioDeviceWasapi.AudioDevice.SetStereoPlayout | webrtc/modules/audio_device/win/audio_device_wasapi_win.cc:1731-1745 | the same for playout, leaving the recording side untouched |
| AudioDeviceWasapi.AudioDevice.SetSpeakerVolume | webrtc/modules/audio_device/win/audio_device_wasapi_win.cc:1299-1331 | 0 exactly when the speaker and its volume control are initialised, the volume is within [0, 255] and the call succeeds, -1 otherwise; within those bounds the level handed to the volume control is volume / 255, outside them none is handed over |
| AudioDeviceWasapi.AudioDevice.FindPlayoutFormat | webrtc/modules/audio_device/win/audio_device_wasapi_win.cc:2409-2437 | the nested loops return the first supported (channels, rate) pair, frequency-major, as FirstSupportedFormat defines it |
| AudioDeviceWasapi.AudioDevice.InitPlayoutFormat | webrtc/modules/audio_device/win/audio_device_wasapi_win.cc:2404-2449 | playout is set up exactly when a supported pair exists; then the channels and rate are the chosen ones, the block is 10 ms of samples and a frame one 16-bit sample per channel, on the device as well; otherwise the playout parameters stay as they were |
| AudioDeviceWasapi.AudioDevice.RenderThreadExit | webrtc/modules/audio_device/win/audio_device_wasapi_win.cc:3642-3679 | when the render thread ends while playout should go on, a lost device signals one restart, a second loss during the recovery ends it with an error, and any other failure is an error; when playout was stopped nothing changes |
| AudioDeviceWasapi.AudioDevice.CaptureThreadExit | webrtc/modules/audio_device/win/audio_device_wasapi_win.cc:4007-4048 | the capture thread's end changes the capture flags as ThreadExit says, keeps the error known and keeps settled flags settled |
| AudioDeviceWasapi.AudioDevice.RenderBufferDone | webrtc/modules/audio_device/win/audio_device_wasapi_win.cc:3610-3613 | a rendered buffer ends the render side's recovery |
| AudioDeviceWasapi.AudioDevice.CaptureBufferDone | webrtc/modules/audio_device/win/audio_device_wasapi_win.cc:3980-3983 | a captured buffer ends the capture side's recovery |
| AudioDeviceWasapi.AudioDevice.RestartRenderer | webrtc/modules/audio_device/win/audio_device_wasapi_win.cc:4177-4203 | the observer's render restart changes the render flags as ObserverRestart says and leaves them settled |
| AudioDeviceWasapi.AudioDevice.RestartCapturer | webrtc/modules/audio_device/win/audio_device_wasapi_win.cc:4148-4176 | the observer's capture restart changes the capture flags as ObserverRestart says and leaves them settled |
| AudioDeviceWasapi.AudioDevice.DefaultRenderDeviceChanged | webrtc/modules/audio_device/win/audio_device_wasapi_win.cc:5033-5047 | a change of the default render device signals a render restart when the renderer follows the default device, is playing and uses that role, as DefaultChanged says |
| AudioDeviceWasapi.AudioDevice.DefaultCaptureDeviceChanged | webrtc/modules/audio_device/win/audio_device_wasapi_win.cc:5017-5031 | a change of the default capture device signals a capture restart under the same conditions for the capturer |
| VideoRenderSource.ResetDropTime | webrtc/modules/video_render/windows/video_render_source_winrt.cc:893-899 | resetting closes the drop window, clears its start and amount, and waits for the next clean point; the drop mode stays |
| VideoRenderSource.ShouldDrop | webrtc/modules/video_render/windows/video_render_source_winrt.cc:831-867 | the drop decision never changes the drop mode, and without an armed window it changes at most the clean-point wait |
| VideoRenderSource.OffRateDropsNonCleanPoints | webrtc/modules/video_render/windows/video_render_source_winrt.cc:831-867 | off normal rate a sample that is not a clean point is always dropped and the drop state is untouched |
| VideoRenderSource.DropModeKeepsOnlyCleanPoints | webrtc/modules/video_render/windows/video_render_source_winrt.cc:831-867 | in drop mode 1, or while waiting for a clean point, only clean points pass; a clean point that passes ends the wait; a sample that passes without being a clean point does so only at normal rate, out of drop mode and with no wait |
| VideoRenderSource.DropWindow | webrtc/modules/video_render/windows/video_render_source_winrt.cc:839-852 | an armed window starts at the first sample it sees; samples before start + amount are dropped and keep it open, the first one past it closes it; with a positive amount the first sample is always dropped |
| VideoRenderSource.CleanPointsDropOnlyInWindow | webrtc/modules/video_render/windows/video_render_source_winrt.cc:831-867 | a clean point is dropped exactly when it falls inside an armed drop window |
| VideoRenderSource.DeliverOne | webrtc/modules/video_render/windows/video_render_source_winrt.cc:742-795 | each turn of the delivery loop takes exactly one entry off the sample queue |
| VideoRenderSource.DeliverOneStep | webrtc/modules/video_render/windows/video_render_source_winrt.cc:742-795 | a turn takes the front entry; a dropped sample takes no request and marks a discontinuity; a delivered sample takes the front request, carries and clears the discontinuity flag; a format change is passed on as it is |
| VideoRenderSource.TurnEvents | webrtc/modules/video_render/windows/video_render_source_winrt.cc:742-795 | a turn queues at most one event |
| VideoRenderSource.DeliveredTokens | webrtc/modules/video_render/windows/video_render_source_winrt.cc:742-795 | a list of events carries at most as many delivered requests as it has events |
| VideoRenderSource.DeliverOneEvents | webrtc/modules/video_render/windows/video_render_source_winrt.cc:742-795 | a turn appends its events, and a sample event carries the request the turn consumed |
| VideoRenderSource.DeliveredTokensConcat | webrtc/modules/video_render/windows/video_render_source_winrt.cc:742-795 | the requests carried by two event lists together are those of the first followed by those of the second |
| VideoRenderSource.Deliver | webrtc/modules/video_render/windows/video_render_source_winrt.cc:742-795 | delivery keeps the drop mode and never adds entries or requests |
| VideoRenderSource.DeliverEmptiesAQueue | webrtc/modules/video_render/windows/video_render_source_winrt.cc:742-795 | delivery stops only when the sample queue or the request queue is empty |
| VideoRenderSource.DeliverKeepsEvents | webrtc/modules/video_render/windows/video_render_source_winrt.cc:742-795 | delivery only appends events: those queued before it stay, in order |
| VideoRenderSource.DeliverLeavesTokenSuffix | webrtc/modules/video_render/windows/video_render_source_winrt.cc:742-795 | the requests left after delivery are a suffix of the request queue |
| VideoRenderSource.DeliverLeavesSampleSuffix | webrtc/modules/video_render/windows/video_render_source_winrt.cc:742-795 | the entries left after delivery are a suffix of the sample queue |
| VideoRenderSource.DeliverPairsTokens | webrtc/modules/video_render/windows/video_render_source_winrt.cc:742-795 | the sample events delivery queues carry the consumed requests in request order: those requests followed by the ones left are the original request queue |
| VideoRenderSource.RenderStream.constructor | webrtc/modules/video_render/windows/video_render_source_winrt.cc:92-106 | a new stream is in the invalid state, inactive, at rate 1 with empty queues, no drop mode and a wait for a clean point |
| VideoRenderSource.RenderStream.Initialize | webrtc/modules/video_render/windows/video_render_source_winrt.cc:703-739 | once the stream descriptor is created the stream is stopped |
| VideoRenderSource.RenderStream.HandleError | webrtc/modules/video_render/windows/video_render_source_winrt.cc:797-802 | every error but shutdown is queued as an error event |
| VideoRenderSource.RenderStream.Start | webrtc/modules/video_render/windows/video_render_source_winrt.cc:499-527 | from Stopped or Started the stream is started and a started event queued; after shutdown nothing happens; from any other state an invalid-transition error is queued; the call returns S_OK in every case |
| VideoRenderSource.RenderStream.Stop | webrtc/modules/video_render/windows/video_render_source_winrt.cc:529-560 | from Started the stream stops, both queues are emptied and a stopped event queued; after shutdown nothing happens; from any other state an invalid-transition error is queued; the call returns S_OK in every case |
| VideoRenderSource.RenderStream.Flush | webrtc/modules/video_render/windows/video_render_source_winrt.cc:581-594 | both queues are emptied, the discontinuity flag cleared, drop mode turned off and the drop window reset |
| VideoRenderSource.RenderStream.Shutdown | webrtc/modules/video_render/windows/video_render_source_winrt.cc:596-621 | the stream ends shut down; the first call returns S_OK after flushing: both queues empty, the discontinuity flag cleared, drop mode off and the drop window reset; a later call returns MF_E_SHUTDOWN and leaves queues, flag and drop state as they were; neither touches the event queue, the active flag or the rate |
| VideoRenderSource.RenderStream.SetRate | webrtc/modules/video_render/windows/video_render_source_winrt.cc:562-579 | (corrected) always S_OK with no event queued; after shutdown nothing changes, otherwise the rate is recorded and, at any rate other than 1, the queue is cleaned down to its first key frame, which on the clean-point queues the stream holds is also what the code as written leaves; the stream keeps holding only clean-point samples |
| VideoRenderSource.CleanSampleQueueAsWritten | webrtc/modules/video_render/windows/video_render_source_winrt.cc:869-891 | the code finishes exactly when the queue is empty or starts with a clean-point sample, and then leaves at most that front sample queued |
| VideoRenderSource.CleanSampleQueue | webrtc/modules/video_render/windows/video_render_source_winrt.cc:869-891 | (corrected) at most one entry stays; nothing stays exactly when the queue holds no clean-point sample, and what stays is a clean-point sample of the queue |
| VideoRenderSource.CleanSampleQueueKeepsFirstKeyFrame | webrtc/modules/video_render/windows/video_render_source_winrt.cc:873-891 | (corrected) the entry kept is the queue's first clean-point sample |
| VideoRenderSource.CleanSampleQueueAsWrittenAgrees | webrtc/modules/video_render/windows/video_render_source_winrt.cc:869-891 | whenever the code as written finishes, it leaves the same queue as the corrected cleaning |
| VideoRenderSource.CleanSampleQueueAsWrittenSpins | webrtc/modules/video_render/windows/video_render_source_winrt.cc:874-882 | a media-type entry ahead of a key frame keeps the code's search loop spinning, while the corrected cleaning keeps the key frame |
| VideoRenderSource.CleanSampleQueueAsWrittenOnStreamQueues | webrtc/modules/video_render/windows/video_render_source_winrt.cc:869-891 | on a queue of clean-point samples only, the kind the stream holds, the code as written finishes and leaves exactly what the corrected cleaning leaves, so the spin is latent |
| VideoRenderSource.RenderStream.SetActive | webrtc/modules/video_render/windows/video_render_source_winrt.cc:678-701 | MF_E_SHUTDOWN after shutdown, MF_E_INVALIDREQUEST before the stream is stopped or started, otherwise S_OK; the flag changes exactly on success |
| VideoRenderSource.RenderStream.SetDropMode | webrtc/modules/video_render/windows/video_render_source_winrt.cc:322-350 | only drop modes NONE and 1 are accepted (MF_E_SHUTDOWN after shutdown, MF_E_NO_MORE_DROP_MODES otherwise); accepting a new mode starts a wait for a clean point; nothing else changes |
| VideoRenderSource.RenderStream.DropTime | webrtc/modules/video_render/windows/video_render_source_winrt.cc:385-414 | a positive amount arms a drop window of that length, zero resets the window, a negative amount is an invalid argument; after shutdown nothing changes |
| VideoRenderSource.RenderStream.NotifySampleLag | webrtc/modules/video_render/windows/video_render_source_winrt.cc:417-469 | a sample lag above three seconds with drop mode off enters drop mode 1, a negative lag in mode 1 leaves it, each starting a wait for a clean point; any other lag changes nothing |
| VideoRenderSource.RenderStream.ShouldDropSample | webrtc/modules/video_render/windows/video_render_source_winrt.cc:831-867 | the stream's drop decision and new drop state are ShouldDrop of its old drop state, rate and the sample |
| VideoRenderSource.RenderStream.DeliverSamples | webrtc/modules/video_render/windows/video_render_source_winrt.cc:742-795 | the delivery loop leaves the queues, flag, drop state and events that Deliver defines; nothing else changes |
| VideoRenderSource.RenderStream.DeliverNext | webrtc/modules/video_render/windows/video_render_source_winrt.cc:746-794 | one turn leaves exactly the queues DeliverOne defines: the front entry leaves the queue; a kept sample takes the front token and carries the pending discontinuity, a dropped one sets the flag, and a media type becomes a format-change event |
| VideoRenderSource.DeliverKeepsCleanPointQueue | webrtc/modules/video_render/windows/video_render_source_winrt.cc:745-752 | delivery only takes entries off the front of the sample queue, so a queue of clean-point samples stays one |
| VideoRenderSource.RenderStream.RequestSample | webrtc/modules/video_render/windows/video_render_source_winrt.cc:296-319 | while started the request is queued and delivery runs; after shutdown nothing changes; in any other state an invalid-request error is queued |
| VideoRenderSource.RenderStream.ProcessSample | webrtc/modules/video_render/windows/video_render_source_winrt.cc:624-648 | while started the sample, stamped and marked a clean point, is queued and delivery runs; after shutdown nothing changes; in any other state an unexpected-error event is queued; the queue holds only clean-point samples before and after |
| VideoRender.Channel.constructor | webrtc/modules/video_render/windows/video_render_winrt.cc:38-54 | a new channel has size 0x0, an empty slot, and has announced and forwarded nothing |
| VideoRender.Channel.FrameSizeChange | webrtc/modules/video_render/windows/video_render_winrt.cc:113-127 | the new size is recorded and announced to the media source, and the call returns 0 |
| VideoRender.Channel.DeliverFrame | webrtc/modules/video_render/windows/video_render_winrt.cc:141-155 | with the slot full the frame is dropped and -1 returned, the held frame unchanged; otherwise the frame is stored, the slot marked full and 0 returned; this is one Deliver step of the mailbox |
| VideoRender.Channel.RenderFrame | webrtc/modules/video_render/windows/video_render_winrt.cc:129-138 | a frame of a new size is announced first; then the frame is delivered as DeliverFrame does, and nothing is forwarded |
| VideoRender.Channel.RenderOffFrame | webrtc/modules/video_render/windows/video_render_winrt.cc:158-162 | the slot is freed and the call returns 0 |
| VideoRender.Channel.IsUpdated | webrtc/modules/video_render/windows/video_render_winrt.cc:165-169 | the call reports whether the slot holds a frame not yet rendered, and returns 0 |
| VideoRender.Renderer.constructor | webrtc/modules/video_render/windows/video_render_winrt.cc:176-188 | a new renderer has no channel |
| VideoRender.Renderer.CreateChannel | webrtc/modules/video_render/windows/video_render_winrt.cc:277-292 | a fresh, empty channel replaces the current one |
| VideoRender.Renderer.DeleteChannel | webrtc/modules/video_render/windows/video_render_winrt.cc:294-301 | the renderer is left without a channel and the call returns 0 |
| VideoRender.Renderer.UpdateRenderSurface | webrtc/modules/video_render/windows/video_render_winrt.cc:225-252 | -1 without a channel or without a new frame, nothing forwarded; otherwise the held frame goes to the media source, the slot is freed and 0 returned; this is one Update step of the mailbox |
| VideoRender.Apply | webrtc/modules/video_render/windows/video_render_winrt.cc:141-252 | a delivery to a full slot changes nothing and one to an empty slot holds the frame; an update empties the slot, forwarding the held frame exactly when there was one |
| VideoRender.Run | webrtc/modules/video_render/windows/video_render_winrt.cc:141-252 | a run forwards at most one frame per step |
| VideoRender.KeptDelivered | webrtc/modules/video_render/windows/video_render_winrt.cc:141-155 | the selected frames are at most as many as the steps, and each was delivered by one of them |
| VideoRender.RunKeepsForwarded | webrtc/modules/video_render/windows/video_render_winrt.cc:141-252 | a run of deliveries and updates only appends to the forwarded frames |
| VideoRender.MailboxForwardsDeliveredFrames | webrtc/modules/video_render/windows/video_render_winrt.cc:141-252 | the mailbox never invents, reorders or repeats a frame: the frames forwarded during a run, then the one still held, are the frame held at the start followed by some of the delivered frames, in delivery order |
| VideoRender.ExplainsStep | webrtc/modules/video_render/windows/video_render_winrt.cc:141-252 | one step in front of an explained run stays explained: a frame delivered to an empty slot is kept, and an update forwards the held frame ahead of the rest |
| CaptureSink.StateIndex | webrtc/modules/video_capture/windows/video_capture_sink_winuwp.h:57-64 | each stream state has its enum value, below the state count of 5 |
| CaptureSink.OpIndex | webrtc/modules/video_capture/windows/video_capture_sink_winuwp.h:68-77 | each stream operation has its enum value, below the operation count of 7 |
| CaptureSink.LabelledRow | webrtc/modules/video_capture/windows/video_capture_sink_winuwp.cc:781-794 | each state names one of the five rows of the table by its label |
| CaptureSink.IsValidAsWritten | webrtc/modules/video_capture/windows/video_capture_sink_winuwp.cc:781-803 | the table read by enum value: setting a media type is always valid, it is the only operation valid before a type is set, and Restart is valid only when stopped |
| CaptureSink.IsValid | webrtc/modules/video_capture/windows/video_capture_sink_winuwp.cc:781-794 | the table read by its row labels: setting a media type is always valid, it is the only operation valid before a type is set, and Restart is valid only when paused |
| CaptureSink.AsWrittenRestartOnlyFromStopped | webrtc/modules/video_capture/windows/video_capture_sink_winuwp.cc:781-805 | read by enum value, the table accepts Restart only when stopped, a paused stream refuses Restart, samples and Pause, and a stopped stream may pause and take samples |
| CaptureSink.ReadingsSwapPausedAndStopped | webrtc/modules/video_capture/windows/video_capture_sink_winuwp.cc:781-805 | the reading by enum value and the reading by row label agree for every state but Paused and Stopped, whose rows they swap |
| CaptureSink.ReadingsDifferOnlyForRestartPauseAndSample | webrtc/modules/video_capture/windows/video_capture_sink_winuwp.cc:781-805 | the two readings judge every operation alike except Restart, Pause and ProcessSample, and for those three a paused stream is allowed and a stopped one refused by the labels, the reverse as written |
| CaptureSink.RestartOnlyFromPaused | webrtc/modules/video_capture/windows/video_capture_sink_winuwp.cc:781-794 | (corrected) read by its labels, the table restarts the clock only from a pause, lets a paused or started stream take samples, and refuses samples and Pause when stopped |
| CaptureSink.Validate | webrtc/modules/video_capture/windows/video_capture_sink_winuwp.cc:799-809 | S_OK exactly when the table allows the operation; otherwise MF_E_NOT_INITIALIZED before a media type is set and MF_E_INVALIDREQUEST after |
| CaptureSink.ValidateOperationAsWritten | webrtc/modules/video_capture/windows/video_capture_sink_winuwp.cc:797-809 | as written, S_OK exactly when the table read by enum value allows the operation; MF_E_NOT_INITIALIZED exactly for an operation other than setting a type before a type is set; otherwise MF_E_INVALIDREQUEST |
| CaptureSink.ValidateOperation | webrtc/modules/video_capture/windows/video_capture_sink_winuwp.cc:797-809 | (corrected) S_OK exactly when the table read by its labels allows the operation; MF_E_NOT_INITIALIZED exactly for an operation other than setting a type before a type is set; otherwise MF_E_INVALIDREQUEST |
| CaptureSink.OnlySetMediaTypeBeforeType | webrtc/modules/video_capture/windows/video_capture_sink_winuwp.cc:781-809 | before a media type is set only setting one validates, every other operation is refused as not initialised, in both readings; setting a media type is allowed in every state |
| CaptureSink.StreamSink.constructor | webrtc/modules/video_capture/windows/video_capture_sink_winuwp.cc:127-139 | a new sink has no media type, is not shut down, has start time 0 taken from no sample, and empty queues |
| CaptureSink.StreamSink.Start | webrtc/modules/video_capture/windows/video_capture_sink_winuwp.cc:695-718 | the result is the operation's validation; on success the stream is started and a start operation queued, and the start time is cached unless the clock starts at its current position, when it will be taken from the first sample; on failure nothing changes |
| CaptureSink.StreamSink.ClockChange | webrtc/modules/video_capture/windows/video_capture_sink_winuwp.cc:721-778 | (corrected) a clock callback validates its operation; on success the stream moves to the target state and the operation is queued; otherwise nothing changes |
| CaptureSink.StreamSink.Stop | webrtc/modules/video_capture/windows/video_capture_sink_winuwp.cc:721-738 | Stop validates, then stops the stream and queues the operation; on failure nothing changes |
| CaptureSink.StreamSink.Pause | webrtc/modules/video_capture/windows/video_capture_sink_winuwp.cc:741-758 | (corrected) Pause validates with the table read by its labels, so a paused or started stream may pause and a stopped one may not; on success it pauses the stream and queues the operation; on failure nothing changes |
| CaptureSink.StreamSink.Restart | webrtc/modules/video_capture/windows/video_capture_sink_winuwp.cc:761-778 | (corrected) with the table read by its labels Restart succeeds exactly from a pause, restarting the stream and queueing the operation; otherwise nothing changes |
| CaptureSink.StreamSink.ProcessSample | webrtc/modules/video_capture/windows/video_capture_sink_winuwp.cc:365-401 | (corrected) E_INVALIDARG without a sample, MF_E_SHUTDOWN after shutdown, otherwise the validation result with the table read by its labels; an accepted sample is queued, and a dispatch operation with it unless the stream is paused; a refused one changes nothing |
| CaptureSink.StreamSink.SetCurrentMediaType | webrtc/modules/video_capture/windows/video_capture_sink_winuwp.cc:571-616 | E_INVALIDARG without a type and MF_E_SHUTDOWN after shutdown; the type is taken exactly when it is the first or is supported; the first makes the stream ready; a type taken while streaming is queued as a format change with its dispatch operation; the state never moves back and nothing changes on failure |
| CaptureSink.StreamSink.Shutdown | webrtc/modules/video_capture/windows/video_capture_sink_winuwp.cc:812-835 | the sink ends shut down and returns S_OK; the first call empties the sample queue and releases the media type, later ones change nothing |
| VideoCapture.CaptureRotation | webrtc/modules/video_capture/windows/video_capture_winuwp.cc:864-891 | no rotation is applied exactly when the camera panel is unknown |
| VideoCapture.FlippedOrientationsTurnHalfway | webrtc/modules/video_capture/windows/video_capture_winuwp.cc:864-891 | a flipped display orientation rotates the capture by a further 180 degrees than the unflipped one; in portrait the front and the other panels turn opposite ways |
| VideoCapture.AppStateDispatcher.constructor | webrtc/modules/video_capture/windows/video_capture_winuwp.cc:83-85 | the dispatcher starts in portrait with no observers and nothing notified |
| VideoCapture.AppStateDispatcher.AddObserver | webrtc/modules/video_capture/windows/video_capture_winuwp.cc:99-101 | the observer is appended to the list |
| VideoCapture.AppStateDispatcher.RemoveObserver | webrtc/modules/video_capture/windows/video_capture_winuwp.cc:102-109 | only the first occurrence of the observer is erased; an absent observer leaves the list unchanged |
| VideoCapture.AppStateDispatcher.DisplayOrientationChanged | webrtc/modules/video_capture/windows/video_capture_winuwp.cc:87-93 | the orientation is recorded and every observer is notified of it once, in list order |
| VideoCapture.Notifications | webrtc/modules/video_capture/windows/video_capture_winuwp.cc:87-93 | one notification per observer, carrying that observer and the new orientation |
| VideoCapture.NotificationsAppend | webrtc/modules/video_capture/windows/video_capture_winuwp.cc:87-93 | notifying a list extended by one observer notifies the old list, then that observer |
| VideoCapture.RemoveFirstAt | webrtc/modules/video_capture/windows/video_capture_winuwp.cc:102-109 | erasing at the first matching position is removing the first occurrence |
| VideoCapture.RemoveFirstAbsent | webrtc/modules/video_capture/windows/video_capture_winuwp.cc:102-109 | removing an observer that is not listed changes nothing |
| VideoCapture.RemoveUndoesAdd | webrtc/modules/video_capture/windows/video_capture_winuwp.cc:99-109 | removing an observer just added, and not listed before, restores the list |
| VideoCapture.RequestedSubtype | webrtc/modules/video_capture/windows/video_capture_winuwp.cc:758-791 | exactly the eight supported raw types get a subtype; I420 and IYUV both ask for IYUV, MJPEG and NV12 both for NV12 |
| VideoCapture.Distance | webrtc/modules/video_capture/windows/video_capture_winuwp.cc:820-825 | the width, height and frame-rate distances are non-negative, and all zero exactly when the format matches the request |
| VideoCapture.ChooseAmong | webrtc/modules/video_capture/windows/video_capture_winuwp.cc:795-840 | a chosen stream format has the requested subtype (MJPEG for an MJPEG request) and its distances are the minimum found |
| VideoCapture.ChoiceIsFirstClosest | webrtc/modules/video_capture/windows/video_capture_winuwp.cc:795-840 | whenever some matching format has a width distance below INT_MAX a format is chosen, no matching format is closer on (width, height, frame-rate) distance, and every earlier matching format is strictly farther |
| VideoCapture.ChooseStreamProperties | webrtc/modules/video_capture/windows/video_capture_winuwp.cc:795-840 | the loop picks the first closest matching stream format |
| VideoCapture.Padding | webrtc/modules/video_capture/windows/video_capture_winuwp.cc:479-484 | the padding is never negative, and zero exactly when the dimension is already a multiple of 16 |
| VideoCapture.PaddingCompletesBlock | webrtc/modules/video_capture/windows/video_capture_winuwp.cc:479-484 | the padding lies in 0..15 and brings the dimension to a multiple of 16 |
| VideoCapture.UnpaddedLength | webrtc/modules/video_capture/windows/video_capture_winuwp.cc:486-580 | an unpadded length exists exactly for YV12, YUY2, IYUV, RGB24, ARGB and NV12 |
| VideoCapture.RemovePaddingPixels | webrtc/modules/video_capture/windows/video_capture_winuwp.cc:476-581 | the length is cut to the unpadded size when its 32-bit reading exceeds that size, and kept otherwise |
| VideoCapture.RemovedPaddingShortens | webrtc/modules/video_capture/windows/video_capture_winuwp.cc:486-580 | for lengths that fit in 32 bits, removing the padding never lengthens the frame and yields the smaller of the length and the unpadded size |
| VideoCapture.Suspended | webrtc/modules/video_capture/windows/video_capture_winuwp.cc:923-933 | suspending acts exactly when the camera runs, leaving black frames running and the camera stopped; otherwise nothing changes |
| VideoCapture.Resumed | webrtc/modules/video_capture/windows/video_capture_winuwp.cc:935-945 | resuming acts exactly when black frames run, leaving the camera running and black frames stopped; otherwise nothing changes |
| VideoCapture.ResumeUndoesSuspend | webrtc/modules/video_capture/windows/video_capture_winuwp.cc:923-944 | suspending acts exactly when the real device runs and swaps it for the fake one; resuming acts exactly when the fake device runs; resuming after a suspend restores the devices |
| VideoCapture.Capturer.constructor | webrtc/modules/video_capture/windows/video_capture_winuwp.cc:668-685 | no device is chosen, neither device runs and no capability is remembered |
| VideoCapture.Capturer.Init | webrtc/modules/video_capture/windows/video_capture_winuwp.cc:697-756 | -1 for an id longer than the unique-name limit; otherwise 0 exactly when a device has the id, and then the first such device and its panel are taken |
| VideoCapture.Capturer.StartCapture | webrtc/modules/video_capture/windows/video_capture_winuwp.cc:758-862 | -1 without a subtype and nothing started; otherwise the closest stream format is chosen, the rotation for the orientation applied unless the panel is unknown, the real device started and the capability remembered; a 0 result leaves `CaptureStarted()` true, a failure leaves it as it was |
| VideoCapture.Capturer.StopCapture | webrtc/modules/video_capture/windows/video_capture_winuwp.cc:893-909 | returns 0 and neither device runs afterwards, so `CaptureStarted()` is false |
| VideoCapture.Capturer.SuspendCapture | webrtc/modules/video_capture/windows/video_capture_winuwp.cc:923-932 | the devices and the result follow the suspend step; the result is true exactly when the real device ran, and `CaptureStarted()` keeps its value (the black-frame source takes over) |
| VideoCapture.Capturer.ResumeCapture | webrtc/modules/video_capture/windows/video_capture_winuwp.cc:934-944 | the devices and the result follow the resume step; the result is true exactly when the black-frame source ran, and `CaptureStarted()` keeps its value |
| VideoDecoderWrapper.ToJavaFrameType | webrtc/sdk/android/src/jni/videodecoderwrapper.cc:177-190 | empty, key and delta frames map to the Java frame type of the same name; any other type has no Java counterpart |
| VideoDecoderWrapper.FrameTypeMappingInjective | webrtc/sdk/android/src/jni/videodecoderwrapper.cc:177-190 | two native frame types with the same Java counterpart are the same type |
| VideoDecoderWrapper.CaptureKeyAsWritten | webrtc/sdk/android/src/jni/videodecoderwrapper.cc:142-144 | the capture time the decoded frame is matched on, as written, always lies in the 32-bit unsigned range |
| VideoDecoderWrapper.CaptureKey | webrtc/sdk/android/src/jni/videodecoderwrapper.cc:142-144 | (corrected) for a non-negative timestamp the capture time is the nanosecond timestamp divided by one million |
| VideoDecoderWrapper.PopUntil | webrtc/sdk/android/src/jni/videodecoderwrapper.cc:146-154 | when no entry has the capture time the FIFO ends empty; otherwise the popped entry has it; what remains is always a suffix of the FIFO |
| VideoDecoderWrapper.PopUntilFirstMatch | webrtc/sdk/android/src/jni/videodecoderwrapper.cc:146-154 | the entry matched is the first with the capture time; it and every earlier entry leave the FIFO and every later one stays in order |
| VideoDecoderWrapper.PopUntilKeepsLaterEntries | webrtc/sdk/android/src/jni/videodecoderwrapper.cc:99-154 | entries pushed after a matching entry survive the frame that matches it, whatever was pushed |
| VideoDecoderWrapper.CaptureKeyWraps | webrtc/sdk/android/src/jni/videodecoderwrapper.cc:142-154 | with the 32-bit key, an entry captured at 2^32 ms is never matched: the FIFO is emptied and nothing is delivered, where the full-width key matches it |
| VideoDecoderWrapper.Wrapper.constructor | webrtc/sdk/android/src/jni/videodecoderwrapper.cc:25-68 | the FIFO starts empty and nothing has been delivered |
| VideoDecoderWrapper.Wrapper.Decode | webrtc/sdk/android/src/jni/videodecoderwrapper.cc:90-108 | the frame's capture time and RTP timestamp are appended to the back of the FIFO and its type is converted for the Java decoder |
| VideoDecoderWrapper.Wrapper.Release | webrtc/sdk/android/src/jni/videodecoderwrapper.cc:116-122 | the FIFO is emptied |
| VideoDecoderWrapper.Wrapper.OnDecodedFrame | webrtc/sdk/android/src/jni/videodecoderwrapper.cc:138-171 | (corrected) entries are popped up to the first whose capture time matches; the frame is delivered with that entry's RTP timestamp; with no match the FIFO empties and nothing is delivered |

## Left out

**Whole areas**

- **Threads, locks, waits and sleeps.** The encoder and decoder output threads, the render, capture and observer threads, the task queues, `Sleep(15)`, and the half-RTT delay of the conference transport are concurrency. Only the sequential effect of each step on the state is modelled.
- **Codec and OS back-ends.** MediaCodec, Media Foundation, WASAPI/COM, WinRT device enumeration, JNI, D3D11, libyuv and jsoncpp are foreign code. Their answers (slot indices, success flags, sample sizes, codec lists) are parameters, and what is handed to them is recorded in the state.
- **Floating point.**
  - Java `double` and C++ `float` values are `real`s, without rounding. This covers the rate adjuster, the probe estimator's rates, the TCP sender's congestion window, the render rate and the speaker volume.
  - `Math.pow` in `getBitrateBps` is modelled only through the bound on its exponent.
  - `UpmixAndConvert`, `_Get44kHzDrift` and `IsRateSupported` are not part of this model.
- **Integer width.** Java `long` and C++ 64-bit values are unbounded integers, except where wrap-around matters. Those places are written out with the helpers of `Common`: the capture-time key of the decoder wrapper, the 32-bit socket descriptors, the SSRC bytes, `size_t` lengths, and the 16-bit sequence numbers.

**Values from headers that are not part of this model**

- **The temporal-layers checker.** A fresh buffer state (temporal_layers.h) is taken to hold a key frame on temporal layer 0.
- **The probe estimator.**
  - `kNotAProbe` and `kNoEstimate` are -1.
  - A fresh cluster starts with the largest first send and receive times and zero counts and sizes.
- **Other constants.**
  - `kUnlimitedFileSize` is 0.
  - `IP_PACKET_SIZE` is 1500.
  - `sizeof(RTPVideoStereoInfo)` is 16.
  - The stereo stream indices are YUV 0 and AXX 1, with 2 streams.
  - `kVideoCaptureUniqueNameLength` is 1024.
  - A track's `kEnded` state is 1.
- **The TCP sender.** Its initial state (packet_sender.h) is taken as a window of 10 packets, in slow start, nothing in flight, and sequence numbers from 0. `LatestSequenceNumber` comes from an RTP utility that is not part of this model and is written out as the usual 16-bit "newer" comparison.
- **The hardware video encoder.** The `BitrateAdjuster` interface it calls (`setTargets`, `getAdjustedBitrateBps`) is not part of this model. The encoder talks to an abstract adjuster whose adjusted bitrate is a parameter.
- **The frame buffer behind the decoder's plane copies.** I420BufferImpl is not part of this model; the copies write into plain arrays.
- **Sample attribute queues.** SampleAttributeQueue.h is not part of this model. Both users of it, the render stream and the H.264 encoder, model popping an entry as removing the first entry with the key and returning its attributes.
  - H264Encoder.Pop: models that assumed behaviour of `_sampleAttributeQueue.pop`, not the header's own code; its contract (found exactly when the key is present, one entry fewer afterwards) holds only of the assumed behaviour.
- **VrAudio's ring buffers.** AudioVector is not part of this model; its `PopFront` is taken to remove at most the elements present.
- **The RTP demuxer.** rtp_demuxer.h and its unit test describe a different revision of the demuxer than rtp_demuxer.cc; the model follows rtp_demuxer.cc.

**Operations or details not modelled, per file**

- **HardwareVideoEncoder.**
  - The colour-format switch is modelled as written: `COLOR_FormatYUV420Planar` gets the chroma-interleaving fill and the semi-planar formats the planar copy.
  - A buffer too small for the frame is a precondition rather than a `BufferOverflowException`.
- **HardwareVideoDecoder and VideoDecoderWrapper.**
  - The JNI calls, texture output and the decoder's output thread loop are not modelled.
  - Only the frame FIFO and the frame-type mapping of the wrapper are.
  - CopyFromPlanar: its `PlaneFits` preconditions require the decoder's output buffer and the three destination planes to hold every byte the copy touches; the source does not check this and throws an uncaught `IndexOutOfBoundsException` when a plane is too small, which the model does not cover.
  - CopyFromNv12: likewise requires both planes of the output buffer and the three destination planes to be large enough; a too-small buffer, where the source throws `IndexOutOfBoundsException`, is not covered.
  - DuplicateLastRow: requires the destination plane to hold the duplicated row; the source's `IndexOutOfBoundsException` on a too-small plane is not covered.
  - SplitUvPlane: requires the interleaved chroma plane and both destination planes to be large enough; the source's `IndexOutOfBoundsException` on a too-small plane is not covered.
- **H264Encoder.**
  - The quality scaler is not modelled; frames arrive already scaled.
  - The H.264 QP parser is not modelled.
  - Media Foundation failures other than the initialisation result are not modelled.
  - A `WriteSample` on a sink writer that failed to restart is not modelled.
  - A rate change within 15 s of the last one is recorded but not applied; this is proved, as `DeferredRatesNotRetried`.
- **H264Decoder.** Creating the native sample is a parameter.
- **StereoEncoderAdapter, StereoDecoderAdapter and RtpFormatVideoStereo.**
  - The inner codecs, the inner VP9 packetizer and the inner depacketizer are oracles.
  - The codec type carried in the stereo information is not modelled.
- **RtcpTransceiver.** Splitting a report into packets by the block serialiser is not modelled: blocks are values and a packet is the list of its blocks.
- **MappingDeviceDesktopCapturerWrapper.** The base capturer's answer to `SelectSource` is a parameter.
- **Codecs.** `operator==` of the codec types is defined in codec.cc, which is not part of this model. It is a parameter; `operator!=` is its negation, and for a reflexive, symmetric `operator==` it is irreflexive and symmetric (NotEqualIrreflexiveSymmetric). Nothing else about `operator==` is assumed or proved.
- **StubHeaders.** The file rewriting and the regular expressions of `convert_to_stub` are not modelled; only the guard and the file filter are.
- **RemotingApi.** The JSON text form (`toStyledString`, `Json::Reader`) is not modelled, and float elements are opaque reals; JSON integers and reals are one number kind.
  - DecodePose: models a build in which the parse and the six array checks run, with the checks' failures as a refusal; a debug build aborts on them instead, and a release build skips them altogether (DecodePoseRelease, see Findings). A parse failure is outside the model, which starts from the parsed value.
- **Marshalling.**
  - The `StatsType` and `StatsValueName` tables are not modelled one by one; every table of the `DEFINE_MARSHALLED_ENUM` kind is covered by the generic lemmas.
  - `FromCx` on a key missing from a table is not modelled; the code's `operator[]` would insert a default.
  - UTF-8/UTF-16 conversion is not modelled.
  - The candidate, session-description and statistics conversions are not modelled.
- **Media.**
  - The capability description text (`FullDescription`) is a parameter.
  - Device enumeration and the fixed-size name buffers are not modelled.
  - The media capture object and the controller's stream-property list of `GetVideoCaptureCapabilities` are inputs: whether the object was found, and the list or its absence.
- **FileUtils.**
  - The `strncpy` truncation of the executable path to `FILENAME_MAX` is not modelled.
  - The working directory, install location and WinRT local folder are inputs.
  - The wide-to-UTF-8 conversion of the WinRT local folder path is not modelled: paths are character sequences.
  - The Android and iOS builds are not modelled: Android's fixed root `/sdcard/chromium_tests_root/` for the project root, output path and working directory (fileutils.cc:65-66, 116-128), iOS's `IOSOutputPath` and `IOSResourcePath` (165-166, 274-275). The build parameter covers Windows, WinRT and the other desktop builds only.
- **ConferenceTransport.**
  - The two voice engines are not modelled.
  - The destructor's erase-while-iterating is not modelled.
  - `stream_count_` is taken as unsigned.
- **UdpSocketManager.**
  - The top-level `Start`, `Stop` and `RemoveSocket` are not modelled.
  - The workers' `Process`/`select` loop and socket deletion are not modelled.
  - `_numOfWorkThreads` starts at 0.
- **PacketSender.**
  - `TcpSender::RunFor` is not modelled.
  - `VideoSender` and `PacedVideoSender` `RunFor`, `QueuePackets` and `TimeToSendPacket` are not modelled.
  - Only `PacedVideoSender::TimeUntilNextProcess` is modelled.
  - `IsNewerSequenceNumber` and the `TcpSender` initial state come from headers that are not part of this model: sequence numbers count as newer when ahead by less than half the 16-bit space, with no tie-break at exactly half, and the sender starts in slow start with a window of ten packets.
- **VrAudio.**
  - `StereoToMono` (AudioFrameOperations is not part of this model) is not modelled.
  - The listener and source pose setters are not modelled.
  - The spatializer is foreign: its rendered output is a parameter.
  - The sources' `PreferredSampleRate` answers are a parameter of `CalculateMixingFrequency` and `Mix`, asked for afresh on every call as the source does; `Ssrc` is the only thing read from a source when it is added or removed.
  - `Mix` stamps the output frame's time after mixing rather than before; neither step reads the time stamp.
- **AudioDeviceWasapi.**
  - RecoveryRunSettled: only the error range is promised over every run; the stronger "no restart pending during a recovery" holds only while no default-device change arrives, because the source signals a restart on such a change whatever recovery is under way (DefaultChangeUnsettles). Whether a direction follows the default device, is running and uses the changed role are parameters.
  - The COM activation and the recording-format search are not modelled.
  - The `*Internal` stop/init/start calls of the observer's restart are outcomes passed in as parameters.
  - The speaker volume's float conversion is exact.
- **VideoRenderSource.**
  - `SetRate` runs the corrected queue cleaning (see Findings); the rate is a real, not a 32-bit float.
  - Media Foundation event-queue failures are not modelled.
  - The 64-bit overflow of the drop window's start plus length is not modelled.
- **VideoRender.** Plane sizes and the screen update thread's timing are not modelled.
- **CaptureSink.**
  - `PlaceMarker` and the work-queue dispatch are not modelled.
  - `IsMediaTypeSupported` is a parameter.
- **VideoCapture.**
  - The frame rate's float truncation is a parameter.
  - The capability search takes width and height differences as signed differences. The code subtracts in unsigned arithmetic and casts back to `int`, which agrees for sizes below 2^31.
  - Pixel copying and the device's `StartCapture` exceptions are not modelled.
- **Known defects, neither fixed nor modelled.**
  - `OpQueue` calls `GetCount` and `RemoveFront` on a `std::list` (third_party/h264_winrt/Utils/OpQueue.h:153, 183).
  - The device managers compare name prefixes with the `sizeof` of a pointer.

## Findings

| source | as written | input that shows it | evidently intended | confidence | as-written member | corrected member |
|---|---|---|---|---|---|---|
| webrtc/sdk/android/api/org/webrtc/HardwareVideoEncoderFactory.java:222-233 | `getMatchingRequirements` searches the VP8, VP9 and H.264 lists together, whatever MIME type is being served | an Exynos VP9 encoder (`OMX.Exynos.VP9.Encoder`) on Android N gets the Exynos VP8 entry, with dynamic adjustment | only the list for the MIME type being served is searched, so the encoder gets the Exynos VP9 entry, with framerate adjustment | medium, not executed | HardwareVideoEncoderFactory.GetMatchingRequirementsAsWritten, HardwareVideoEncoderFactory.ExynosVp9GetsVp8Requirements, HardwareVideoEncoderFactory.LoadAsWrittenGivesExynosVp9DynamicAdjustment | HardwareVideoEncoderFactory.GetMatchingRequirements, HardwareVideoEncoderFactory.ExynosAdjustmentFollowsMimeType, HardwareVideoEncoderFactory.Factory.LoadSupportedCodecs, HardwareVideoEncoderFactory.Factory.CreateEncoder, HardwareVideoEncoderFactory.Factory.GetSupportedCodecs |
| webrtc/sdk/android/src/java/org/webrtc/HardwareVideoDecoder.java:151-161 | the key-frame check runs when `keyFrameRequired` is false | a fresh decoder accepts a delta frame as its first frame and then refuses every later delta frame | a decoder that needs a key frame refuses anything else until one arrives | high, not executed | HardwareVideoDecoder.KeyFrameGateInverted | HardwareVideoDecoder.FirstAcceptedIsKeyFrame, HardwareVideoDecoder.DeltaFramesFlowAfterKeyFrame, HardwareVideoDecoder.Decoder.Decode |
| webrtc/sdk/android/src/java/org/webrtc/HardwareVideoDecoder.java:233-245 | `resetCodec` calls `release()`, which sets the `callback` field to null, and then passes that field to `initDecodeInternal(newWidth, newHeight, callback)` | a resolution change that resets the codec successfully; every later `decode` returns UNINITIALIZED | the callback registered before the reset is kept | high, not executed | HardwareVideoDecoder.ResetDropsCallback | HardwareVideoDecoder.ResetKeepsCallback, HardwareVideoDecoder.Decoder.Decode |
| webrtc/sdk/android/src/java/org/webrtc/HardwareVideoDecoder.java:331-337 | the NV12 chroma split writes the j-th sample pair at chroma offset j, for even j only | a frame 4 pixels wide: chroma columns 0 and 2 are written and column 1 never is; column 2 lies past the row | the pair at luma column j goes to chroma column j/2 | medium, not executed | HardwareVideoDecoder.SplitUvRowAsWritten, HardwareVideoDecoder.SplitAsWrittenMissesChromaColumn, HardwareVideoDecoder.UOffsetsAsWritten | HardwareVideoDecoder.SplitUvRow, HardwareVideoDecoder.CopyFromNv12, HardwareVideoDecoder.SplitUvPlane |
| webrtc/sdk/android/src/jni/videodecoderwrapper.cc:142-154 | the capture time looked up is held in a `uint32_t`, while the stored capture times are 64-bit | a frame captured at 2^32 ms: its key wraps to 0, the whole queue is discarded and no frame is delivered | the capture time is compared at its full width | medium, not executed | VideoDecoderWrapper.CaptureKeyAsWritten, VideoDecoderWrapper.CaptureKeyWraps | VideoDecoderWrapper.CaptureKey, VideoDecoderWrapper.Wrapper.OnDecodedFrame |
| webrtc/modules/congestion_controller/probe_bitrate_estimator.cc:51-56 | the clean-up after creating a cluster may erase that very cluster, which is then fed through a stale reference | five saved clusters 1..5 and a late probe of cluster 0: cluster 0 is created, erased and its probe lost | the oldest cluster other than the one being fed is erased | medium, not executed | ProbeBitrateEstimator.FeedbackAsWritten, ProbeBitrateEstimator.CleanupErasesFedCluster | ProbeBitrateEstimator.Feedback, ProbeBitrateEstimator.ProbeEstimator.PacketFeedback, ProbeBitrateEstimator.TrimKeeping, ProbeBitrateEstimator.ProbeEstimator.EraseOldClusters, ProbeBitrateEstimator.EstimateMovesLastValidCluster, ProbeBitrateEstimator.FeedbackAggregates, ProbeBitrateEstimator.IgnoredFeedback, ProbeBitrateEstimator.Stored, ProbeBitrateEstimator.TooFewProbesNoEstimate |
| modules/rtp_rtcp/source/rtp_format_video_stereo.cc:97-109 | `Parse` strips the stereo header of a first packet without checking that the payload holds it | a one-byte first packet: 16 header bytes are copied from past the payload and the remaining length wraps to 2^64 - 16 | a first packet shorter than the marker plus the header is rejected | high, not executed | RtpFormatVideoStereo.ParsedLengthAsWritten, RtpFormatVideoStereo.ShortFirstPacketOverreads | RtpFormatVideoStereo.Parse, RtpFormatVideoStereo.ParsePacketized |
| webrtc/modules/video_render/windows/video_render_source_winrt.cc:869-891 | the search loop for the first key frame never advances its iterator | latent: a queue whose front entry is not a clean-point sample, such as a media-type entry ahead of a key frame, keeps `SetRate` in the loop forever; the stream never queues such an entry, because its only push (video_render_source_winrt.cc:639) queues samples marked clean points (video_render_source_winrt.cc:828) | the queue keeps only its first clean-point sample, as the function's own comment says | low, not executed | VideoRenderSource.CleanSampleQueueAsWritten, VideoRenderSource.CleanSampleQueueAsWrittenSpins, VideoRenderSource.CleanSampleQueueAsWrittenOnStreamQueues | VideoRenderSource.CleanSampleQueue, VideoRenderSource.CleanSampleQueueKeepsFirstKeyFrame, VideoRenderSource.RenderStream.SetRate |
| modules/video_coding/codecs/stereo/stereo_encoder_adapter.cc:159-169 | `Release` destroys each encoder it released but clears the list only when every release succeeded | two encoders, the second failing to release: the first is destroyed yet still listed, and the destructor releases it again | destroyed encoders leave the list | medium, not executed | StereoEncoderAdapter.ReleaseAsWritten, StereoEncoderAdapter.ReleaseAsWrittenKeepsDestroyed | StereoEncoderAdapter.Released, StereoEncoderAdapter.ReleaseKeepsNoDestroyed, StereoEncoderAdapter.Adapter.Release |
| modules/video_coding/codecs/stereo/stereo_decoder_adapter.cc:134-145 | `Release` destroys each decoder it released but clears the list only when every release succeeded | two decoders, the second failing to release: the first is destroyed yet still first in the list, and the destructor (stereo_decoder_adapter.cc:80-82) releases it again | destroyed decoders leave the list | medium, not executed | StereoEncoderAdapter.ReleaseAsWritten, StereoDecoderAdapter.DestructorReleasesDestroyedDecoder | StereoEncoderAdapter.Released, StereoDecoderAdapter.Adapter.Release |
| third_party/h264_winrt/H264Encoder/H264Encoder.cc:408 | the start-code scan bound `size - 5` is computed in `size_t` | any sample of fewer than 5 bytes, e.g. 4 bytes: the bound wraps to 2^64 - 1, which no `uint32_t` position reaches, so the loop runs on past the end of the sample and reads outside it, whatever the bytes hold | a sample shorter than a start code plus one byte has no fragments | low, not executed | H264Encoder.ScanBoundAsWritten, H264Encoder.ScanPositionsAsWritten, H264Encoder.ShortSampleOverreads | H264Encoder.Encoder.ScanFragments, H264Encoder.ShortSampleHasNoFragments, H264Encoder.Encoder.OnH264Encoded, H264Encoder.StartCodes, H264Encoder.Fragmentation, H264Encoder.IsKeyFrame, H264Encoder.Encoder.ScanStartCodes, H264Encoder.FragmentationWellFormed, H264Encoder.KeyFrameByStartCodes |
| webrtc/voice_engine/test/auto_test/fakes/conference_transport.cc:247-252 | `RemoveStream` asks the remote engine to deregister the receiver's channel number and the local engine the sender's | a stream with channels (1, 2): the remote engine is told to drop channel 2 and channel 1 stays registered | each engine drops the channel it created for the stream | low, not executed | ConferenceTransport.TeardownAsWritten, ConferenceTransport.TeardownAsWrittenMissesSender, ConferenceTransport.TeardownAsWrittenExample | ConferenceTransport.Teardown, ConferenceTransport.Transport.RemoveStream |
| examples/unityplugin/vraudio/vraudio_wrap.cc:117-120 | `IsInitialized` returns true when no spatializer exists | any mixer after `Initialize`: it reports that it is not initialized | true exactly when the spatializer exists, as its declaration describes (examples/unityplugin/vraudio/vraudio_wrap.h:63) | high, not executed | VrAudio.Mixer.IsInitializedAsWritten, VrAudio.InitializedMixerReportsUninitialized | VrAudio.Mixer.IsInitialized, VrAudio.Mixer.Mix, VrAudio.Mixer.Initialize |
| webrtc/modules/video_capture/windows/video_capture_sink_winuwp.cc:781-805 | the table rows labelled Pause and Stop are indexed by the state values, where Stopped is 3 and Paused is 4 (video_capture_sink_winuwp.h:57-64) | `Restart`, `Pause` and `ProcessSample` on a paused stream return MF_E_INVALIDREQUEST, while a stopped stream may restart, pause and take samples | each state uses the row carrying its label: a paused stream may restart, pause and take samples, a stopped one may not | medium, not executed | CaptureSink.ValidateOperationAsWritten, CaptureSink.AsWrittenRestartOnlyFromStopped, CaptureSink.ReadingsDifferOnlyForRestartPauseAndSample | CaptureSink.ValidateOperation, CaptureSink.RestartOnlyFromPaused, CaptureSink.StreamSink.Restart, CaptureSink.StreamSink.Pause, CaptureSink.StreamSink.ProcessSample, CaptureSink.StreamSink.ClockChange |
| remoting/remoting_api.cc:250 | `DecodePoseFromJson` parses the text inside `assert(reader.parse(...) && ...)`, so a build with `NDEBUG` defined never parses it; the six `isArray` checks are assertions too | any pose text, e.g. the serialisation of any pose, decoded in a release build: the root stays null, every key reads the default string "invalid", and reading a matrix element from it fails | the text is parsed in every build, and a parse failure or a key that does not hold an array is refused rather than checked only in debug builds | medium, not executed | RemotingApi.DecodePoseRelease, RemotingApi.ReleaseBuildDecodesNothing | RemotingApi.DecodePose, RemotingApi.PoseRoundTrip |
