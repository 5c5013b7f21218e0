/** The Android MediaCodec-backed video encoder: a FIFO of pending image builders kept in
    step with the frames handed to the codec, key-frame forcing, the cached H.264
    configuration, and the conversion of I420 frames into the codec's input layout.
    MediaCodec and the bitrate adjuster are outside the model: what they return arrives as
    parameters, and what the encoder hands them is recorded in the state. */
module HardwareVideoEncoder {
  import opened Common

  const Vp8MimeType: string := "video/x-vnd.on2.vp8"
  const Vp9MimeType: string := "video/x-vnd.on2.vp9"
  const H264MimeType: string := "video/avc"

  /** MediaCodecInfo.CodecCapabilities colour formats, and the Qualcomm one it lacks. */
  const ColorFormatYUV420Planar: int := 19
  const ColorFormatYUV420SemiPlanar: int := 21
  const ColorQcomFormatYUV420SemiPlanar: int := 0x7FA30C00
  const ColorQcomFormatYUV420PackedSemiPlanar32m: int := 0x7FA30C04

  const MaxVideoFramerate: int := 30
  const MaxEncoderQueueSize: int := 2

  predicate IsSupportedMimeType(mimeType: string): (r: bool)
    ensures r ==> |mimeType| > 6 && mimeType[..6] == "video/"
  {
    mimeType == Vp8MimeType || mimeType == Vp9MimeType || mimeType == H264MimeType
  }

  /** How `toColorFormat` lays out an I420 frame for a colour format. */
  datatype Fill = InterleaveChroma | SequentialPlanes

  /** The colour-format switch: None for a format the encoder refuses. */
  function FillFor(colorFormat: int): (f: Option<Fill>)
    ensures f == Some(InterleaveChroma) <==> colorFormat == ColorFormatYUV420Planar
    ensures f == Some(SequentialPlanes) <==>
      colorFormat in {ColorFormatYUV420SemiPlanar, ColorQcomFormatYUV420SemiPlanar,
                      ColorQcomFormatYUV420PackedSemiPlanar32m}
  {
    if colorFormat == ColorFormatYUV420Planar then Some(InterleaveChroma)
    else if colorFormat == ColorFormatYUV420SemiPlanar
         || colorFormat == ColorQcomFormatYUV420SemiPlanar
         || colorFormat == ColorQcomFormatYUV420PackedSemiPlanar32m then Some(SequentialPlanes)
    else None
  }

  /** Why the constructor throws, if it does. */
  datatype ConstructorError = UnsupportedMimeType | UnsupportedColorFormat

  function CheckArguments(mimeType: string, colorFormat: int): (r: Option<ConstructorError>)
    ensures r == None <==> IsSupportedMimeType(mimeType) && FillFor(colorFormat).Some?
    ensures !IsSupportedMimeType(mimeType) ==> r == Some(UnsupportedMimeType)
  {
    if !IsSupportedMimeType(mimeType) then Some(UnsupportedMimeType)
    else if FillFor(colorFormat).None? then Some(UnsupportedColorFormat)
    else None
  }

  /** The chroma planes interleaved U, V, U, V, ... for as long as both have bytes. */
  function Interleave(u: seq<byte>, v: seq<byte>): (r: seq<byte>)
    ensures |r| == 2 * Min(|u|, |v|)
    decreases |u|
  {
    if u == [] || v == [] then [] else [u[0], v[0]] + Interleave(u[1..], v[1..])
  }

  /** Position 2i of the interleaved chroma holds U[i] and position 2i+1 holds V[i]. */
  lemma {:induction false} InterleaveAt(u: seq<byte>, v: seq<byte>, i: nat)
    requires i < |u| && i < |v|
    ensures Interleave(u, v)[2 * i] == u[i] && Interleave(u, v)[2 * i + 1] == v[i]
    decreases i
  {
    if i > 0 {
      InterleaveAt(u[1..], v[1..], i - 1);
    }
  }

  /** The bytes `toColorFormat` writes for a layout. */
  function Layout(fill: Fill, y: seq<byte>, u: seq<byte>, v: seq<byte>): (r: seq<byte>)
    ensures |y| <= |r| && r[..|y|] == y
    ensures fill == SequentialPlanes ==> |r| == |y| + |u| + |v|
    ensures fill == InterleaveChroma && |u| == |v| ==> |r| == |y| + |u| + |v|
  {
    match fill
    case InterleaveChroma => y + Interleave(u, v)
    case SequentialPlanes => y + u + v
  }

  /** `buffer.put(data)` at `pos`. */
  method Put(buffer: array<byte>, pos: nat, data: seq<byte>) returns (next: nat)
    requires pos + |data| <= buffer.Length
    modifies buffer
    ensures next == pos + |data|
    ensures buffer[pos..next] == data
    ensures forall i :: 0 <= i < buffer.Length && !(pos <= i < next) ==> buffer[i] == old(buffer[i])
  {
    forall i | 0 <= i < |data| {
      buffer[pos + i] := data[i];
    }
    next := pos + |data|;
  }

  /** `fillBufferI420`: the three planes one after another. */
  method FillBufferI420(buffer: array<byte>, y: seq<byte>, u: seq<byte>, v: seq<byte>)
    returns (end: nat)
    requires |y| + |u| + |v| <= buffer.Length
    modifies buffer
    ensures end == |y| + |u| + |v|
    ensures buffer[..end] == Layout(SequentialPlanes, y, u, v)
    ensures forall i :: end <= i < buffer.Length ==> buffer[i] == old(buffer[i])
  {
    var p := Put(buffer, 0, y);
    ghost var afterY := buffer[..];
    var q := Put(buffer, p, u);
    ghost var afterU := buffer[..];
    end := Put(buffer, q, v);
    assert buffer[..p] == afterU[..p] == afterY[..p] == y;
    assert buffer[p..q] == afterU[p..q] == u;
    assert buffer[..end] == buffer[..p] + buffer[p..q] + buffer[q..end];
  }

  /** `fillBufferNv12`: the Y plane, then U and V interleaved starting with U until one of
      them runs out. */
  method FillBufferNv12(buffer: array<byte>, y: seq<byte>, u: seq<byte>, v: seq<byte>)
    returns (end: nat)
    requires |y| + 2 * Min(|u|, |v|) <= buffer.Length
    modifies buffer
    ensures end == |y| + 2 * Min(|u|, |v|)
    ensures buffer[..end] == Layout(InterleaveChroma, y, u, v)
    ensures forall i :: end <= i < buffer.Length ==> buffer[i] == old(buffer[i])
  {
    ghost var n := Min(|u|, |v|);
    var pos := Put(buffer, 0, y);
    var i := 0;
    while i < |u| && i < |v|
      invariant 0 <= i <= n
      invariant pos == |y| + 2 * i
      invariant buffer[..pos] == y + Interleave(u[..i], v[..i])
      invariant forall k :: |y| + 2 * n <= k < buffer.Length ==> buffer[k] == old(buffer[k])
    {
      InterleaveStep(u, v, i);
      ghost var written := buffer[..pos];
      var next := Put(buffer, pos, [u[i], v[i]]);
      assert buffer[..next] == buffer[..pos] + buffer[pos..next];
      assert buffer[..pos] == written;
      assert y + Interleave(u[..i + 1], v[..i + 1]) == written + [u[i], v[i]];
      pos := next;
      i := i + 1;
    }
    InterleavePrefix(u, v);
    assert i == n;
    end := pos;
  }

  lemma {:induction false} InterleaveStep(u: seq<byte>, v: seq<byte>, i: nat)
    requires i < |u| && i < |v|
    ensures Interleave(u[..i + 1], v[..i + 1]) == Interleave(u[..i], v[..i]) + [u[i], v[i]]
    decreases i
  {
    if i > 0 {
      assert u[..i + 1][1..] == u[1..][..i] && v[..i + 1][1..] == v[1..][..i];
      assert u[..i][1..] == u[1..][..i - 1] && v[..i][1..] == v[1..][..i - 1];
      InterleaveStep(u[1..], v[1..], i - 1);
    }
  }

  lemma {:induction false} InterleavePrefix(u: seq<byte>, v: seq<byte>)
    ensures Interleave(u[..Min(|u|, |v|)], v[..Min(|u|, |v|)]) == Interleave(u, v)
    decreases |u|
  {
    var n := Min(|u|, |v|);
    if n > 0 {
      assert u[..n][1..] == u[1..][..n - 1] && v[..n][1..] == v[1..][..n - 1];
      assert Min(|u[1..]|, |v[1..]|) == n - 1;
      InterleavePrefix(u[1..], v[1..]);
    }
  }

  /** `toColorFormat(i420, colorFormat, out)` with a frame and a buffer. */
  method ToColorFormat(buffer: array<byte>, colorFormat: int, y: seq<byte>, u: seq<byte>, v: seq<byte>)
    returns (supported: bool)
    requires |y| + |u| + |v| <= buffer.Length
    modifies buffer
    ensures supported <==> FillFor(colorFormat).Some?
    ensures supported ==> buffer[..|Layout(FillFor(colorFormat).value, y, u, v)|]
                            == Layout(FillFor(colorFormat).value, y, u, v)
    ensures !supported ==> buffer[..] == old(buffer[..])
    ensures forall i :: |y| + |u| + |v| <= i < buffer.Length ==> buffer[i] == old(buffer[i])
  {
    var fill := FillFor(colorFormat);
    if fill == Some(InterleaveChroma) {
      var _ := FillBufferNv12(buffer, y, u, v);
      return true;
    } else if fill == Some(SequentialPlanes) {
      var _ := FillBufferI420(buffer, y, u, v);
      return true;
    }
    return false;
  }

  datatype FrameType = EmptyFrame | VideoFrameKey | VideoFrameDelta

  /** The metadata an `EncodedImage.Builder` carries through the codec. */
  datatype Builder = Builder(
    timeStampMs: int,
    captureTimeMs: int,
    completeFrame: bool,
    encodedWidth: int,
    encodedHeight: int,
    rotation: int)

  datatype EncodedImage = EncodedImage(meta: Builder, buffer: seq<byte>, frameType: FrameType)

  /** One `queueInputBuffer` call that went through. */
  datatype Submission = Submission(builder: Builder, size: int, presentationTimestampUs: int)

  datatype VideoFrame = VideoFrame(
    timestampNs: int,
    width: int,
    height: int,
    rotation: int,
    bufferWidth: int,
    bufferHeight: int,
    dataY: seq<byte>,
    dataU: seq<byte>,
    dataV: seq<byte>)

  /** What `dequeueInputBuffer` did. */
  datatype InputSlot = InputDequeueFailed | NoInputBuffer | InputBuffer

  /** What `dequeueOutputBuffer` produced. */
  datatype Output =
    | OutputDequeueFailed
    | NoOutput
    | OutputBuffer(data: seq<byte>, codecConfig: bool, syncFrame: bool)

  /** How one `deliverEncodedImage` call ended. */
  datatype DeliverOutcome = NothingDelivered | ConfigCached | Delivered(image: EncodedImage) | NullPointer

  /** The settings fixed at construction. */
  datatype Config = Config(mimeType: string, colorFormat: int, keyFrameIntervalSec: int, forcedKeyFrameMs: int)

  /** The encoder's mutable fields, and two logs of what it handed on: the frames the codec
      accepted, and the images given to the callback. */
  datatype EncoderState = EncoderState(
    width: int,
    height: int,
    lastKeyFrameMs: int,
    outputBuilders: seq<Builder>,
    configBuffer: Option<seq<byte>>,
    adjusterTargetBps: int,
    adjusterTargetFps: int,
    reportedSizes: seq<int>,
    adjustedBitrate: int,
    submitted: seq<Submission>,
    delivered: seq<EncodedImage>)

  function Metas(images: seq<EncodedImage>): (r: seq<Builder>)
    ensures |r| == |images| && forall i :: 0 <= i < |images| ==> r[i] == images[i].meta
  {
    if images == [] then [] else [images[0].meta] + Metas(images[1..])
  }

  function Builders(subs: seq<Submission>): (r: seq<Builder>)
    ensures |r| == |subs| && forall i :: 0 <= i < |subs| ==> r[i] == subs[i].builder
  {
    if subs == [] then [] else [subs[0].builder] + Builders(subs[1..])
  }

  /** The pending builders are exactly the accepted frames not yet delivered, in order. */
  predicate InSync(st: EncoderState)
  {
    Metas(st.delivered) + st.outputBuilders == Builders(st.submitted)
  }

  /** The state `initEncode` leaves before the codec is created. */
  function AfterInitEncode(st: EncoderState, width: int, height: int, startBitrateKbps: int,
                      maxFramerate: int, adjustedBitrate: int): (r: EncoderState)
    ensures r.lastKeyFrameMs == -1
    ensures r.adjusterTargetBps == startBitrateKbps * 1000 && r.adjusterTargetFps == maxFramerate
    ensures r.outputBuilders == st.outputBuilders && r.submitted == st.submitted
    ensures r.delivered == st.delivered
  {
    st.(width := width, height := height, adjusterTargetBps := startBitrateKbps * 1000,
        adjusterTargetFps := maxFramerate, adjustedBitrate := adjustedBitrate, lastKeyFrameMs := -1)
  }

  /** `shouldForceKeyFrame`. */
  predicate ShouldForceKeyFrame(cfg: Config, lastKeyFrameMs: int, presentationTimestampUs: int): (r: bool)
    ensures r ==> cfg.forcedKeyFrameMs > 0 && presentationTimestampUs > lastKeyFrameMs * 1000
    ensures cfg.forcedKeyFrameMs <= 0 ==> !r
  {
    cfg.forcedKeyFrameMs > 0 && presentationTimestampUs > (lastKeyFrameMs + cfg.forcedKeyFrameMs) * 1000
  }

  /** `requestKeyFrame`: the last key-frame time moves to the rounded presentation time
      unless `setParameters` threw. */
  function RequestKeyFrame(lastKeyFrameMs: int, presentationTimestampUs: int, setParametersFails: bool): (r: int)
    ensures setParametersFails ==> r == lastKeyFrameMs
    ensures !setParametersFails && presentationTimestampUs >= 0 ==>
      r * 1000 <= presentationTimestampUs + 500 < r * 1000 + 1000
  {
    if setParametersFails then lastKeyFrameMs else TruncDiv(presentationTimestampUs + 500, 1000)
  }

  /** The builder `encode` prepares for a frame. */
  function BuilderFor(frame: VideoFrame): (b: Builder)
    ensures b.timeStampMs == b.captureTimeMs && b.completeFrame
  {
    var timestampMs := TruncDiv(frame.timestampNs, 1000000);
    Builder(timestampMs, timestampMs, true, frame.width, frame.height, frame.rotation)
  }

  /** The state after `encode`, given what the codec does with it. */
  function AfterEncode(cfg: Config, st: EncoderState, frame: VideoFrame, frameTypes: seq<FrameType>,
                  slot: InputSlot, setParametersFails: bool, queueFails: bool): (r: EncoderState)
    ensures r.delivered == st.delivered && r.configBuffer == st.configBuffer
    ensures r.reportedSizes == st.reportedSizes && r.width == st.width && r.height == st.height
    ensures |st.outputBuilders| <= |r.outputBuilders| <= |st.outputBuilders| + 1
    ensures |r.outputBuilders| > |st.outputBuilders| ==> |st.outputBuilders| <= MaxEncoderQueueSize
  {
    if slot != InputBuffer || |st.outputBuilders| > MaxEncoderQueueSize then st
    else
      var ptsUs := TruncDiv(frame.timestampNs, 1000);
      var lastKey :=
        if VideoFrameKey in frameTypes || ShouldForceKeyFrame(cfg, st.lastKeyFrameMs, ptsUs)
        then RequestKeyFrame(st.lastKeyFrameMs, ptsUs, setParametersFails)
        else st.lastKeyFrameMs;
      var size := TruncDiv(frame.bufferHeight * frame.bufferWidth * 3, 2);
      if queueFails then st.(lastKeyFrameMs := lastKey)
      else
        st.(lastKeyFrameMs := lastKey,
            outputBuilders := st.outputBuilders + [BuilderFor(frame)],
            submitted := st.submitted + [Submission(BuilderFor(frame), size, ptsUs)])
  }

  /** Whether `encode` got as far as handing the frame to the codec. */
  predicate Admitted(st: EncoderState, slot: InputSlot)
  {
    slot == InputBuffer && |st.outputBuilders| <= MaxEncoderQueueSize
  }

  /** A frame is dropped without any effect when there is no input slot or when more than
      two frames are already in the codec; otherwise the queue grows by exactly the new
      builder when the submit succeeds and is unchanged when it fails. */
  lemma EncodeQueue(cfg: Config, st: EncoderState, frame: VideoFrame, frameTypes: seq<FrameType>,
                    slot: InputSlot, setParametersFails: bool, queueFails: bool)
    ensures var r := AfterEncode(cfg, st, frame, frameTypes, slot, setParametersFails, queueFails);
      && (!Admitted(st, slot) ==> r == st)
      && (Admitted(st, slot) && !queueFails ==>
            r.outputBuilders == st.outputBuilders + [BuilderFor(frame)] &&
            |r.outputBuilders| == |st.outputBuilders| + 1)
      && (queueFails ==> r.outputBuilders == st.outputBuilders && r.submitted == st.submitted)
  {
  }

  /** Key frames: a requested or forced key frame moves the last key-frame time only when
      the codec accepted the parameter change. */
  lemma EncodeKeyFrame(cfg: Config, st: EncoderState, frame: VideoFrame, frameTypes: seq<FrameType>,
                       slot: InputSlot, setParametersFails: bool, queueFails: bool)
    requires Admitted(st, slot)
    ensures var ptsUs := TruncDiv(frame.timestampNs, 1000);
      var r := AfterEncode(cfg, st, frame, frameTypes, slot, setParametersFails, queueFails);
      && (VideoFrameKey !in frameTypes && !ShouldForceKeyFrame(cfg, st.lastKeyFrameMs, ptsUs) ==>
            r.lastKeyFrameMs == st.lastKeyFrameMs)
      && ((VideoFrameKey in frameTypes || ShouldForceKeyFrame(cfg, st.lastKeyFrameMs, ptsUs)) && !setParametersFails ==>
            r.lastKeyFrameMs == TruncDiv(ptsUs + 500, 1000))
  {
  }

  /** The state and outcome of one `deliverEncodedImage`, given the codec output and the
      adjuster's bitrate after the report. */
  function Deliver(cfg: Config, st: EncoderState, output: Output, adjustedBitrate: int): (r: (EncoderState, DeliverOutcome))
    ensures r.0.submitted == st.submitted && r.0.lastKeyFrameMs == st.lastKeyFrameMs
    ensures !output.OutputBuffer? ==> r == (st, NothingDelivered)
    ensures r.1.Delivered? ==>
      && st.outputBuilders != [] && r.0.outputBuilders == st.outputBuilders[1..]
      && r.0.delivered == st.delivered + [r.1.image] && r.1.image.meta == st.outputBuilders[0]
    ensures !r.1.Delivered? ==> r.0.outputBuilders == st.outputBuilders && r.0.delivered == st.delivered
  {
    match output
    case OutputDequeueFailed => (st, NothingDelivered)
    case NoOutput => (st, NothingDelivered)
    case OutputBuffer(data, codecConfig, syncFrame) =>
      if codecConfig then (st.(configBuffer := Some(data)), ConfigCached)
      else
        var reported := st.(reportedSizes := st.reportedSizes + [|data|], adjustedBitrate := adjustedBitrate);
        var prependConfig := syncFrame && cfg.mimeType == H264MimeType;
        if (prependConfig && st.configBuffer.None?) || st.outputBuilders == [] then (reported, NullPointer)
        else
          var payload := if prependConfig then st.configBuffer.value + data else data;
          var image := EncodedImage(st.outputBuilders[0], payload,
                                    if syncFrame then VideoFrameKey else VideoFrameDelta);
          (reported.(outputBuilders := st.outputBuilders[1..], delivered := st.delivered + [image]),
           Delivered(image))
  }

  lemma EncodePreservesSync(cfg: Config, st: EncoderState, frame: VideoFrame, frameTypes: seq<FrameType>,
                            slot: InputSlot, setParametersFails: bool, queueFails: bool)
    requires InSync(st)
    ensures InSync(AfterEncode(cfg, st, frame, frameTypes, slot, setParametersFails, queueFails))
  {
    var r := AfterEncode(cfg, st, frame, frameTypes, slot, setParametersFails, queueFails);
    if r.submitted != st.submitted {
      var s := Submission(BuilderFor(frame), r.submitted[|r.submitted| - 1].size,
                          r.submitted[|r.submitted| - 1].presentationTimestampUs);
      assert r.submitted == st.submitted + [s];
      BuildersAppend(st.submitted, [s]);
    }
  }

  lemma DeliverPreservesSync(cfg: Config, st: EncoderState, output: Output, adjustedBitrate: int)
    requires InSync(st)
    ensures InSync(Deliver(cfg, st, output, adjustedBitrate).0)
  {
    var r := Deliver(cfg, st, output, adjustedBitrate);
    if r.1.Delivered? {
      PollKeepsSync(st.delivered, st.outputBuilders, st.submitted, r.1.image);
    } else {
      assert r.0.delivered == st.delivered && r.0.outputBuilders == st.outputBuilders;
    }
  }

  /** Delivering the image built from the oldest pending builder keeps the builders in step. */
  lemma PollKeepsSync(delivered: seq<EncodedImage>, builders: seq<Builder>, submitted: seq<Submission>,
                      image: EncodedImage)
    requires Metas(delivered) + builders == Builders(submitted)
    requires builders != [] && image.meta == builders[0]
    ensures Metas(delivered + [image]) + builders[1..] == Builders(submitted)
  {
    MetasAppend(delivered, [image]);
    assert builders == [builders[0]] + builders[1..];
  }

  lemma MetasAppend(a: seq<EncodedImage>, b: seq<EncodedImage>)
    ensures Metas(a + b) == Metas(a) + Metas(b)
  {
  }

  lemma BuildersAppend(a: seq<Submission>, b: seq<Submission>)
    ensures Builders(a + b) == Builders(a) + Builders(b)
  {
  }

  /** While the queue is in sync, the n-th delivered image carries the metadata of the
      n-th frame the codec accepted. */
  lemma DeliveredInOrder(st: EncoderState, n: nat)
    requires InSync(st) && n < |st.delivered|
    ensures st.delivered[n].meta == st.submitted[n].builder
  {
    assert Builders(st.submitted)[n] == (Metas(st.delivered) + st.outputBuilders)[n];
  }

  /** Config outputs are cached and never delivered; an H.264 key frame carries the
      cached configuration followed by the frame, every other frame only its own bytes. */
  lemma DeliverPayload(cfg: Config, st: EncoderState, output: Output, adjustedBitrate: int)
    requires output.OutputBuffer?
    ensures var (r, outcome) := Deliver(cfg, st, output, adjustedBitrate);
      && (output.codecConfig <==> outcome == ConfigCached)
      && (output.codecConfig ==> r.configBuffer == Some(output.data) && r.delivered == st.delivered)
      && (outcome.Delivered? && output.syncFrame && cfg.mimeType == H264MimeType ==>
            outcome.image.buffer == st.configBuffer.value + output.data &&
            |outcome.image.buffer| == |output.data| + |st.configBuffer.value|)
      && (outcome.Delivered? && !(output.syncFrame && cfg.mimeType == H264MimeType) ==>
            outcome.image.buffer == output.data)
      && (outcome.Delivered? ==> (outcome.image.meta == st.outputBuilders[0] &&
            (outcome.image.frameType == VideoFrameKey <==> output.syncFrame)))
      && (!output.codecConfig ==> r.reportedSizes == st.reportedSizes + [|output.data|])
  {
  }

  /** `setRateAllocation`: the framerate is capped at 30 before it reaches the adjuster. */
  function AfterSetRateAllocation(st: EncoderState, bitrateSum: int, framerate: int, adjustedBitrate: int): (r: EncoderState)
    ensures r.adjusterTargetFps <= MaxVideoFramerate
    ensures r.adjusterTargetFps == Min(framerate, MaxVideoFramerate)
    ensures r.adjusterTargetBps == bitrateSum
  {
    var capped := if framerate > MaxVideoFramerate then MaxVideoFramerate else framerate;
    st.(adjusterTargetBps := bitrateSum, adjusterTargetFps := capped, adjustedBitrate := adjustedBitrate)
  }

  /** Whether any requested frame type is a key frame: the loop in `encode`. */
  method RequestedKeyFrame(frameTypes: seq<FrameType>) returns (requested: bool)
    ensures requested <==> VideoFrameKey in frameTypes
  {
    requested := false;
    var i := 0;
    while i < |frameTypes|
      invariant 0 <= i <= |frameTypes|
      invariant requested <==> VideoFrameKey in frameTypes[..i]
    {
      assert frameTypes[..i + 1] == frameTypes[..i] + [frameTypes[i]];
      if frameTypes[i] == VideoFrameKey {
        requested := true;
      }
      i := i + 1;
    }
    assert frameTypes[..i] == frameTypes;
  }

  class Encoder {
    const cfg: Config
    var width: int
    var height: int
    var lastKeyFrameMs: int
    var outputBuilders: seq<Builder>
    var configBuffer: Option<seq<byte>>
    var adjusterTargetBps: int
    var adjusterTargetFps: int
    var reportedSizes: seq<int>
    var adjustedBitrate: int
    var submitted: seq<Submission>
    var delivered: seq<EncodedImage>

    function Snapshot(): EncoderState
      reads this
    {
      EncoderState(width, height, lastKeyFrameMs, outputBuilders, configBuffer, adjusterTargetBps,
                   adjusterTargetFps, reportedSizes, adjustedBitrate, submitted, delivered)
    }

    predicate Valid()
      reads this
    {
      InSync(Snapshot()) && CheckArguments(cfg.mimeType, cfg.colorFormat) == None
    }

    /** The constructor; it throws for an unsupported MIME type or colour format. */
    constructor(mimeType: string, colorFormat: int, keyFrameIntervalSec: int, forceKeyFrameIntervalMs: int)
      requires CheckArguments(mimeType, colorFormat) == None
      ensures Valid()
      ensures cfg == Config(mimeType, colorFormat, keyFrameIntervalSec, forceKeyFrameIntervalMs)
      ensures outputBuilders == [] && submitted == [] && delivered == [] && configBuffer == None
    {
      cfg := Config(mimeType, colorFormat, keyFrameIntervalSec, forceKeyFrameIntervalMs);
      width, height, lastKeyFrameMs := 0, 0, 0;
      outputBuilders, configBuffer := [], None;
      adjusterTargetBps, adjusterTargetFps, reportedSizes, adjustedBitrate := 0, 0, [], 0;
      submitted, delivered := [], [];
    }

    method InitEncode(width: int, height: int, startBitrateKbps: int, maxFramerate: int, adjusted: int)
      requires Valid()
      modifies this`width, this`height, this`adjusterTargetBps, this`adjusterTargetFps
      modifies this`adjustedBitrate, this`lastKeyFrameMs
      ensures Valid()
      ensures Snapshot() == AfterInitEncode(old(Snapshot()), width, height,
                                                            startBitrateKbps, maxFramerate, adjusted)
    {
      this.width := width;
      this.height := height;
      adjusterTargetBps, adjusterTargetFps := startBitrateKbps * 1000, maxFramerate;
      adjustedBitrate := adjusted;
      lastKeyFrameMs := -1;
      assert Snapshot() == old(Snapshot()).(width := width, height := height,
        adjusterTargetBps := startBitrateKbps * 1000, adjusterTargetFps := maxFramerate,
        adjustedBitrate := adjusted, lastKeyFrameMs := -1);
    }

    /** `encode`: `slot` is what `dequeueInputBuffer` did and `input` the slot's buffer;
        the two flags say whether `setParameters` and `queueInputBuffer` threw. */
    method Encode(frame: VideoFrame, frameTypes: seq<FrameType>, slot: InputSlot, input: array<byte>,
                  setParametersFails: bool, queueFails: bool)
      requires Valid()
      requires |frame.dataY| + |frame.dataU| + |frame.dataV| <= input.Length
      modifies this, input
      ensures Valid()
      ensures Snapshot() == AfterEncode(cfg, old(Snapshot()), frame, frameTypes, slot,
                                                        setParametersFails, queueFails)
      ensures Admitted(old(Snapshot()), slot) ==>
        var layout := Layout(FillFor(cfg.colorFormat).value, frame.dataY, frame.dataU, frame.dataV);
        input[..|layout|] == layout
      ensures !Admitted(old(Snapshot()), slot) ==> input[..] == old(input[..])
    {
      ghost var st := Snapshot();
      EncodePreservesSync(cfg, st, frame, frameTypes, slot, setParametersFails, queueFails);
      if slot == InputDequeueFailed || slot == NoInputBuffer {
        return;
      }
      if |outputBuilders| > MaxEncoderQueueSize {
        return;
      }
      var _ := ToColorFormat(input, cfg.colorFormat, frame.dataY, frame.dataU, frame.dataV);
      var requestedKeyFrame := RequestedKeyFrame(frameTypes);
      var presentationTimestampUs := TruncDiv(frame.timestampNs, 1000);
      if requestedKeyFrame || ShouldForceKeyFrame(cfg, lastKeyFrameMs, presentationTimestampUs) {
        lastKeyFrameMs := RequestKeyFrame(lastKeyFrameMs, presentationTimestampUs, setParametersFails);
      }
      var bufferSize := TruncDiv(frame.bufferHeight * frame.bufferWidth * 3, 2);
      var builder := BuilderFor(frame);
      outputBuilders := outputBuilders + [builder];
      if queueFails {
        outputBuilders := outputBuilders[..|outputBuilders| - 1];
      } else {
        submitted := submitted + [Submission(builder, bufferSize, presentationTimestampUs)];
      }
    }

    /** `deliverEncodedImage` for one codec output. */
    method DeliverEncodedImage(output: Output, adjusted: int) returns (outcome: DeliverOutcome)
      requires Valid()
      modifies this`configBuffer, this`reportedSizes, this`adjustedBitrate, this`outputBuilders, this`delivered
      ensures Valid()
      ensures (Snapshot(), outcome) == Deliver(cfg, old(Snapshot()), output, adjusted)
    {
      ghost var st := Snapshot();
      if !output.OutputBuffer? {
        return NothingDelivered;
      }
      if output.codecConfig {
        configBuffer := Some(output.data);
        return ConfigCached;
      }
      reportedSizes := reportedSizes + [|output.data|];
      if adjustedBitrate != adjusted {
        adjustedBitrate := adjusted;
      }
      assert Snapshot() == st.(reportedSizes := st.reportedSizes + [|output.data|], adjustedBitrate := adjusted);
      var isKeyFrame := output.syncFrame;
      var frameBuffer: seq<byte>;
      if isKeyFrame && cfg.mimeType == H264MimeType {
        if configBuffer == None {
          return NullPointer;
        }
        frameBuffer := configBuffer.value + output.data;
      } else {
        frameBuffer := output.data;
      }
      var frameType := if isKeyFrame then VideoFrameKey else VideoFrameDelta;
      if outputBuilders == [] {
        return NullPointer;
      }
      var image := PollBuilder(frameBuffer, frameType);
      return Delivered(image);
    }

    /** The last step of `deliverEncodedImage`: the oldest builder is polled and its image,
        with the encoded bytes and the frame type, goes to the callback. */
    method PollBuilder(frameBuffer: seq<byte>, frameType: FrameType) returns (image: EncodedImage)
      requires Valid() && outputBuilders != []
      modifies this`outputBuilders, this`delivered
      ensures Valid()
      ensures image == EncodedImage(old(outputBuilders)[0], frameBuffer, frameType)
      ensures Snapshot() == old(Snapshot()).(outputBuilders := old(outputBuilders)[1..],
                                             delivered := old(delivered) + [image])
    {
      var builder := outputBuilders[0];
      image := EncodedImage(builder, frameBuffer, frameType);
      PollKeepsSync(delivered, outputBuilders, submitted, image);
      outputBuilders := outputBuilders[1..];
      delivered := delivered + [image];
    }

    method SetRateAllocation(bitrateSum: int, framerate: int, adjusted: int)
      requires Valid()
      modifies this
      ensures Valid()
      ensures Snapshot() == AfterSetRateAllocation(old(Snapshot()), bitrateSum, framerate, adjusted)
    {
      var fps := framerate;
      if fps > MaxVideoFramerate {
        fps := MaxVideoFramerate;
      }
      adjusterTargetBps, adjusterTargetFps := bitrateSum, fps;
      adjustedBitrate := adjusted;
      assert outputBuilders == old(outputBuilders) && submitted == old(submitted) && delivered == old(delivered);
    }
  }
}
