/** The Android hardware video decoder: gating of `decode`, codec reset on a resolution
    change, the output-format bookkeeping of `reformat`, and the plane copies that turn a
    decoded MediaCodec buffer into an I420 frame. MediaCodec and the output thread are
    abstract: each call they would make is an outcome passed in as a parameter. */
module HardwareVideoDecoder {
  import opened Common
  import HardwareVideoEncoder

  type FrameType = HardwareVideoEncoder.FrameType

  /** The `MediaFormat` keys the decoder reads: "stride", "slice-height", "crop-left",
      "crop-right", "crop-top", "crop-bottom", "width", "height" and "color-format". */
  datatype FormatKey =
    | FormatKeyStride | FormatKeySliceHeight
    | FormatKeyCropLeft | FormatKeyCropRight | FormatKeyCropTop | FormatKeyCropBottom
    | KeyWidth | KeyHeight | KeyColorFormat

  const ColorFormatYUV420Planar: int := 19

  const SupportedColorFormats: set<int> :=
    {19, 21, 0x7FA30C00, 0x7FA30C01, 0x7FA30C02, 0x7FA30C03, 0x7FA30C04}

  datatype Status = Ok | Error | ErrParameter | Uninitialized | FallbackSoftware | Timeout

  /** The decoder's fields; `hasCodec`/`hasCallback` stand for the non-null references and
      `shutdownError` for a recorded shutdown exception. */
  datatype DecoderState = DecoderState(
    hasCodec: bool,
    hasCallback: bool,
    colorFormat: int,
    width: int,
    height: int,
    stride: int,
    sliceHeight: int,
    hasDecodedFirstFrame: bool,
    keyFrameRequired: bool,
    running: bool,
    shutdownError: bool)

  /** The fields a new decoder starts with: no codec, callback or output thread, size 0. */
  function Constructed(colorFormat: int): (r: DecoderState)
    ensures !r.hasCodec && !r.hasCallback && !r.running && !r.shutdownError
    ensures r.width == 0 && r.height == 0 && !r.hasDecodedFirstFrame && r.colorFormat == colorFormat
  {
    DecoderState(false, false, colorFormat, 0, 0, 0, 0, false, false, false, false)
  }

  /** The two readings of `decode`: the code as written, and with its two defects repaired
      (see README, Findings). */
  datatype Variant = AsWritten | Corrected

  /** `release`: stops the output thread, reports a join timeout or a recorded shutdown
      exception, and always drops the codec and the callback. */
  function Released(s: DecoderState, joined: bool): (r: (DecoderState, Status))
    ensures !r.0.hasCodec && !r.0.hasCallback && !r.0.running
    ensures r.1 == Ok <==> joined && !s.shutdownError
    ensures r.1 != Ok ==> r.1 == (if joined then Error else Timeout)
  {
    (s.(hasCodec := false, hasCallback := false, running := false),
     if !joined then Timeout else if s.shutdownError then Error else Ok)
  }

  /** Outcomes of the MediaCodec calls made by `initDecodeInternal`. */
  datatype InitEnv = InitEnv(createOk: bool, configureOk: bool, releaseJoined: bool)

  /** `initDecodeInternal`: geometry first, then codec creation and configuration. */
  function Initialized(s: DecoderState, width: int, height: int, hasCallback: bool, env: InitEnv)
    : (r: (DecoderState, Status))
    ensures r.1 == Ok <==> env.createOk && env.configureOk
    ensures r.1 != Ok ==> r.1 == Error && !r.0.hasCodec && r.0.keyFrameRequired == s.keyFrameRequired
    ensures r.1 == Ok ==> r.0.hasCodec && r.0.hasCallback == hasCallback && r.0.running &&
                          r.0.keyFrameRequired && !r.0.hasDecodedFirstFrame
    ensures r.0.width == width && r.0.height == height && r.0.stride == width && r.0.sliceHeight == height
  {
    var s1 := s.(width := width, height := height, stride := width, sliceHeight := height,
                 hasCallback := hasCallback);
    if !env.createOk then (s1.(hasCodec := false), Error)
    else if !env.configureOk then (Released(s1.(hasCodec := true), env.releaseJoined).0, Error)
    else (s1.(hasCodec := true, hasDecodedFirstFrame := false, keyFrameRequired := true, running := true), Ok)
  }

  datatype ResetEnv = ResetEnv(releaseJoined: bool, init: InitEnv)

  /** `resetCodec`: release, then initialise again at the new size. As written the callback
      handed to the new initialisation is the field `release` has just cleared. */
  function AfterReset(v: Variant, s: DecoderState, width: int, height: int, env: ResetEnv)
    : (r: (DecoderState, Status))
    ensures r.1 == Ok ==> r.0.hasCodec && r.0.keyFrameRequired && r.0.width == width && r.0.height == height
    ensures r.1 == Ok ==> r.0.hasCallback == (v == Corrected && s.hasCallback)
    ensures r.1 != Ok ==> !r.0.hasCodec && r.0.keyFrameRequired == s.keyFrameRequired
  {
    var released := Released(s, env.releaseJoined);
    if released.1 != Ok then released
    else Initialized(released.0, width, height,
                     if v == AsWritten then released.0.hasCallback else s.hasCallback, env.init)
  }

  /** The part of `EncodedImage` that `decode` looks at. */
  datatype EncodedImage = EncodedImage(
    hasBuffer: bool,
    size: nat,
    encodedWidth: int,
    encodedHeight: int,
    frameType: FrameType,
    completeFrame: bool,
    captureTimeMs: int)

  datatype InputSlot = DequeueThrows | NoInputBuffer | GetBuffersThrows | InputBuffer(capacity: int)

  datatype DecodeEnv = DecodeEnv(reset: ResetEnv, input: InputSlot, queueOk: bool)

  /** A reset is attempted for a positive encoded area (a Java `int` product) that differs
      from the current size. */
  predicate NeedsReset(s: DecoderState, frame: EncodedImage): (r: bool)
    ensures r ==> frame.encodedWidth != 0 && frame.encodedHeight != 0
    ensures r ==> (frame.encodedWidth, frame.encodedHeight) != (s.width, s.height)
  {
    ToInt32(frame.encodedWidth * frame.encodedHeight) > 0 &&
    (frame.encodedWidth != s.width || frame.encodedHeight != s.height)
  }

  predicate IsCompleteKeyFrame(frame: EncodedImage)
  {
    frame.frameType == HardwareVideoEncoder.VideoFrameKey && frame.completeFrame
  }

  /** The key-frame gate: as written it applies when `keyFrameRequired` is false. */
  predicate GateRejects(v: Variant, keyFrameRequired: bool, frame: EncodedImage): (r: bool)
    ensures IsCompleteKeyFrame(frame) ==> !r
    ensures v == Corrected && !keyFrameRequired ==> !r
    ensures v == AsWritten && keyFrameRequired ==> !r
  {
    (if v == AsWritten then !keyFrameRequired else keyFrameRequired) && !IsCompleteKeyFrame(frame)
  }

  /** `decode`. */
  function Decoded(v: Variant, s: DecoderState, frame: EncodedImage, env: DecodeEnv): (r: (DecoderState, Status))
    ensures r.1 == Uninitialized <==> !s.hasCodec || !s.hasCallback
    ensures s.hasCodec && s.hasCallback && !frame.hasBuffer ==> r == (s, ErrParameter)
    ensures s.hasCodec && s.hasCallback && frame.hasBuffer && frame.size == 0 ==> r == (s, Error)
    ensures r.1 == Ok ==> r.0.hasCodec && !r.0.keyFrameRequired && frame.size > 0 &&
                          env.input.InputBuffer? && frame.size <= env.input.capacity && env.queueOk
    ensures r.1 != Ok && s.keyFrameRequired ==> r.0.keyFrameRequired
    ensures !NeedsReset(s, frame) ==>
              r.0.(keyFrameRequired := s.keyFrameRequired) == s && (r.1 != Ok ==> r.0 == s)
  {
    if !s.hasCodec || !s.hasCallback then (s, Uninitialized)
    else if !frame.hasBuffer then (s, ErrParameter)
    else if frame.size == 0 then (s, Error)
    else
      var reset := if NeedsReset(s, frame) then AfterReset(v, s, frame.encodedWidth, frame.encodedHeight, env.reset)
                   else (s, Ok);
      if reset.1 != Ok then (reset.0, FallbackSoftware)
      else if GateRejects(v, reset.0.keyFrameRequired, frame) then (reset.0, Error)
      else match env.input
        case InputBuffer(capacity) =>
          if capacity < frame.size || !env.queueOk then (reset.0, FallbackSoftware)
          else (reset.0.(keyFrameRequired := false), Ok)
        case _ => (reset.0, FallbackSoftware)
  }

  /** Statuses of a sequence of `decode` calls. */
  function DecodeAll(v: Variant, s: DecoderState, calls: seq<(EncodedImage, DecodeEnv)>)
    : (r: (DecoderState, seq<Status>))
    ensures |r.1| == |calls|
    decreases |calls|
  {
    if calls == [] then (s, [])
    else
      var first := Decoded(v, s, calls[0].0, calls[0].1);
      var rest := DecodeAll(v, first.0, calls[1..]);
      (rest.0, [first.1] + rest.1)
  }

  /** With the gate repaired, once a key frame is required the first frame `decode`
      accepts is a complete key frame. */
  lemma {:induction false} FirstAcceptedIsKeyFrame(s: DecoderState, calls: seq<(EncodedImage, DecodeEnv)>, i: nat)
    requires s.keyFrameRequired
    requires i < |calls| && DecodeAll(Corrected, s, calls).1[i] == Ok
    requires forall j :: 0 <= j < i ==> DecodeAll(Corrected, s, calls).1[j] != Ok
    ensures IsCompleteKeyFrame(calls[i].0)
    decreases i
  {
    var first := Decoded(Corrected, s, calls[0].0, calls[0].1);
    var rest := DecodeAll(Corrected, first.0, calls[1..]);
    assert DecodeAll(Corrected, s, calls).1 == [first.1] + rest.1;
    if i > 0 {
      assert DecodeAll(Corrected, s, calls).1[0] == first.1;
      forall j | 0 <= j < i - 1 ensures rest.1[j] != Ok {
        assert rest.1[j] == DecodeAll(Corrected, s, calls).1[j + 1];
      }
      assert rest.1[i - 1] == DecodeAll(Corrected, s, calls).1[i];
      assert calls[1..][i - 1] == calls[i];
      FirstAcceptedIsKeyFrame(first.0, calls[1..], i - 1);
    }
  }

  /** A ready decoder that is not waiting for a key frame, given a frame of its own size,
      hands delta frames to the codec under the repaired gate. */
  lemma DeltaFramesFlowAfterKeyFrame(s: DecoderState, frame: EncodedImage, env: DecodeEnv)
    requires s.hasCodec && s.hasCallback && !s.keyFrameRequired
    requires frame.hasBuffer && frame.size > 0 && !NeedsReset(s, frame)
    requires env.input.InputBuffer? && frame.size <= env.input.capacity && env.queueOk
    ensures Decoded(Corrected, s, frame, env) == (s, Ok)
  {
  }

  /** The state `initDecode` leaves on success, at 640x480. */
  function FreshDecoder(): DecoderState
  {
    DecoderState(true, true, ColorFormatYUV420Planar, 640, 480, 640, 480, false, true, true, false)
  }

  const DeltaFrame: EncodedImage := EncodedImage(true, 100, 640, 480, HardwareVideoEncoder.VideoFrameDelta, true, 0)
  const GoodEnv: DecodeEnv := DecodeEnv(ResetEnv(true, InitEnv(true, true, true)), InputBuffer(1000), true)

  /** As written, a fresh decoder accepts a delta frame first and then refuses every
      further delta frame; the repaired gate does the opposite. */
  lemma KeyFrameGateInverted()
    ensures Decoded(AsWritten, FreshDecoder(), DeltaFrame, GoodEnv).1 == Ok
    ensures Decoded(AsWritten, Decoded(AsWritten, FreshDecoder(), DeltaFrame, GoodEnv).0, DeltaFrame, GoodEnv).1 == Error
    ensures Decoded(Corrected, FreshDecoder(), DeltaFrame, GoodEnv).1 == Error
  {
    assert !NeedsReset(FreshDecoder(), DeltaFrame);
  }

  /** As written, a successful resize leaves the decoder without a callback, so every later
      `decode` reports UNINITIALIZED. */
  lemma ResetDropsCallback(s: DecoderState, frame: EncodedImage, env: DecodeEnv,
                           next: EncodedImage, nextEnv: DecodeEnv)
    requires NeedsReset(s, frame) && Decoded(AsWritten, s, frame, env).1 == Ok
    ensures Decoded(AsWritten, Decoded(AsWritten, s, frame, env).0, next, nextEnv).1 == Uninitialized
  {
  }

  /** With the callback kept across the reset, the resized decoder stays ready. */
  lemma ResetKeepsCallback(s: DecoderState, frame: EncodedImage, env: DecodeEnv)
    requires Decoded(Corrected, s, frame, env).1 == Ok
    ensures Decoded(Corrected, s, frame, env).0.hasCodec && Decoded(Corrected, s, frame, env).0.hasCallback
    ensures NeedsReset(s, frame) ==>
              (Decoded(Corrected, s, frame, env).0.width == frame.encodedWidth &&
               Decoded(Corrected, s, frame, env).0.height == frame.encodedHeight)
  {
  }

  type MediaFormat = map<FormatKey, int>

  predicate HasCrop(format: MediaFormat)
  {
    FormatKeyCropLeft in format && FormatKeyCropRight in format &&
    FormatKeyCropBottom in format && FormatKeyCropTop in format
  }

  /** A format the codec can report: its size is either a crop rectangle or a width and height. */
  predicate WellFormedFormat(format: MediaFormat)
  {
    HasCrop(format) || (KeyWidth in format && KeyHeight in format)
  }

  function NewWidth(format: MediaFormat): int
    requires WellFormedFormat(format)
  {
    if HasCrop(format) then ToInt32(1 + format[FormatKeyCropRight] - format[FormatKeyCropLeft])
    else format[KeyWidth]
  }

  function NewHeight(format: MediaFormat): int
    requires WellFormedFormat(format)
  {
    if HasCrop(format) then ToInt32(1 + format[FormatKeyCropBottom] - format[FormatKeyCropTop])
    else format[KeyHeight]
  }

  predicate StopsOnSizeChange(s: DecoderState, format: MediaFormat)
    requires WellFormedFormat(format)
  {
    s.hasDecodedFirstFrame && (s.width != NewWidth(format) || s.height != NewHeight(format))
  }

  predicate StopsOnColorFormat(format: MediaFormat)
  {
    KeyColorFormat in format && format[KeyColorFormat] !in SupportedColorFormats
  }

  /** `reformat`. */
  function Reformatted(s: DecoderState, format: MediaFormat): (r: DecoderState)
    requires WellFormedFormat(format)
    ensures r.hasCodec == s.hasCodec && r.hasCallback == s.hasCallback
    ensures r.keyFrameRequired == s.keyFrameRequired && r.hasDecodedFirstFrame == s.hasDecodedFirstFrame
    ensures r.running ==> s.running
    ensures r.running != s.running ==> r.shutdownError
    ensures !StopsOnSizeChange(s, format) ==> r.width == NewWidth(format) && r.height == NewHeight(format)
  {
    if StopsOnSizeChange(s, format) then s.(running := false, shutdownError := true)
    else
      var s1 := s.(width := NewWidth(format), height := NewHeight(format));
      if StopsOnColorFormat(format) then
        s1.(colorFormat := format[KeyColorFormat], running := false, shutdownError := true)
      else
        var s2 := if KeyColorFormat in format then s1.(colorFormat := format[KeyColorFormat]) else s1;
        StrideFromFormat(s2, format)
  }

  /** The end of `reformat`: stride and slice height from the format, at least the size. */
  function StrideFromFormat(s: DecoderState, format: MediaFormat): (r: DecoderState)
    ensures r.stride >= s.width && r.sliceHeight >= s.height
    ensures r.(stride := s.stride, sliceHeight := s.sliceHeight) == s
    ensures FormatKeyStride !in format && s.stride >= s.width ==> r.stride == s.stride
  {
    var stride := if FormatKeyStride in format then format[FormatKeyStride] else s.stride;
    var sliceHeight := if FormatKeySliceHeight in format then format[FormatKeySliceHeight] else s.sliceHeight;
    s.(stride := Max(s.width, stride), sliceHeight := Max(s.height, sliceHeight))
  }

  /** A size change after the first decoded frame stops the output thread with an error. */
  lemma ReformatStopsOnSizeChange(s: DecoderState, format: MediaFormat)
    requires WellFormedFormat(format) && StopsOnSizeChange(s, format)
    ensures Reformatted(s, format) == s.(running := false, shutdownError := true)
  {
  }

  /** Otherwise the size follows the crop or the format; an unsupported colour format stops the thread. */
  lemma ReformatStopsOnColorFormat(s: DecoderState, format: MediaFormat)
    requires WellFormedFormat(format) && !StopsOnSizeChange(s, format) && StopsOnColorFormat(format)
    ensures var r := Reformatted(s, format);
      && r.width == NewWidth(format) && r.height == NewHeight(format)
      && !r.running && r.shutdownError && r.colorFormat == format[KeyColorFormat]
      && r.hasCodec == s.hasCodec && r.hasCallback == s.hasCallback && r.keyFrameRequired == s.keyFrameRequired
  {
  }

  /** A supported format sets the size, the colour format if given, and a stride and
      slice height of at least the size, leaving the thread running as it was. */
  lemma ReformatResizes(s: DecoderState, format: MediaFormat)
    requires WellFormedFormat(format) && !StopsOnSizeChange(s, format) && !StopsOnColorFormat(format)
    ensures var r := Reformatted(s, format);
      && r.width == NewWidth(format) && r.height == NewHeight(format)
      && r.stride >= r.width && r.sliceHeight >= r.height
      && (FormatKeyStride in format ==> r.stride == Max(r.width, format[FormatKeyStride]))
      && (FormatKeySliceHeight in format ==> r.sliceHeight == Max(r.height, format[FormatKeySliceHeight]))
      && r.colorFormat == (if KeyColorFormat in format then format[KeyColorFormat] else s.colorFormat)
      && r.running == s.running && r.shutdownError == s.shutdownError
      && r.hasCodec == s.hasCodec && r.hasCallback == s.hasCallback && r.keyFrameRequired == s.keyFrameRequired
  {
    var s1 := s.(width := NewWidth(format), height := NewHeight(format));
    var s2 := if KeyColorFormat in format then s1.(colorFormat := format[KeyColorFormat]) else s1;
    assert Reformatted(s, format) == StrideFromFormat(s2, format);
  }

  /** Bytes of an I420 or NV12 frame, `w * h * 3 / 2` in Java `int` arithmetic. */
  function FrameBytes(w: int, h: int): (r: int)
    ensures 0 <= w && 0 <= h && w * h * 3 < 0x8000_0000 ==> r == w * h * 3 / 2
  {
    TruncDiv(ToInt32(w * h * 3), 2)
  }

  /** What `dequeueOutputBuffer` reports. */
  datatype OutputResult = FormatChanged(format: MediaFormat) | NoOutput | OutputBuffer(offset: int, size: nat, presentationTimeUs: int)

  /** What is copied out of a decoded buffer: the geometry `deliverDecodedFrame` uses. */
  datatype Copy = Copy(planar: bool, offset: int, width: int, height: int, stride: int, sliceHeight: int,
                       presentationTimeNs: int)

  /** The stride after the correction for codecs that report too large a stride. */
  function CorrectedStride(s: DecoderState, size: nat): (r: int)
    ensures r != s.stride ==> size < FrameBytes(s.stride, s.height) && s.sliceHeight == s.height && s.stride > s.width
  {
    var d := ToInt32(s.height * 3);
    if size < FrameBytes(s.stride, s.height) && s.sliceHeight == s.height && s.stride > s.width && d != 0
    then TruncDiv(ToInt32(size * 2), d)
    else s.stride
  }

  /** The state effect of `deliverDecodedFrame` and the copy it performs, if any. */
  function AfterOutput(s: DecoderState, out: OutputResult): (r: (DecoderState, Option<Copy>))
    requires out.FormatChanged? ==> WellFormedFormat(out.format)
    ensures out.FormatChanged? ==> r == (Reformatted(s, out.format), None)
    ensures out.NoOutput? ==> r == (s, None)
    ensures out.OutputBuffer? ==> r.0.hasDecodedFirstFrame
    ensures r.1.Some? <==> out.OutputBuffer? && out.size >= FrameBytes(s.width, s.height)
    ensures r.1.Some? ==> r.1.value.width == s.width && r.1.value.height == s.height &&
                          r.1.value.stride == r.0.stride && r.1.value.offset == out.offset
  {
    match out
    case FormatChanged(format) => (Reformatted(s, format), None)
    case NoOutput => (s, None)
    case OutputBuffer(offset, size, ptsUs) =>
      var s1 := s.(hasDecodedFirstFrame := true);
      if size < FrameBytes(s.width, s.height) then (s1, None)
      else
        var s2 := s1.(stride := CorrectedStride(s, size));
        (s2, Some(Copy(s.colorFormat == ColorFormatYUV420Planar, offset, s.width, s.height, s2.stride,
                       s.sliceHeight, ptsUs * 1000)))
  }

  /** A size change after the first decoded frame is fatal to the output thread. */
  lemma SizeChangeAfterFirstFrameStops(s: DecoderState, out: OutputResult)
    requires out.FormatChanged? && WellFormedFormat(out.format)
    requires s.hasDecodedFirstFrame && NewWidth(out.format) != s.width
    ensures !AfterOutput(s, out).0.running && AfterOutput(s, out).0.shutdownError
  {
  }

  // ---------------------------------------------------------------------------------------
  // Plane copies

  /** Start of row `r` of a plane at `pos` whose rows are `stride` apart. */
  function RowStart(pos: int, stride: int, r: nat): int
  {
    if r == 0 then pos else RowStart(pos, stride, r - 1) + stride
  }

  /** Index of column `c` of row `r`. */
  function Cell(pos: int, stride: int, r: nat, c: int): int
  {
    RowStart(pos, stride, r) + c
  }

  /** Index `k` lies in one of the first `rows` rows of `width` cells. */
  predicate InRows(k: int, pos: int, stride: int, width: int, rows: nat)
    decreases rows
  {
    rows > 0 && (InRows(k, pos, stride, width, rows - 1) ||
                 RowStart(pos, stride, rows - 1) <= k < RowStart(pos, stride, rows - 1) + width)
  }

  /** The plane fits in a buffer of `length` bytes. */
  predicate PlaneFits(length: int, pos: int, stride: int, width: nat, height: nat)
  {
    stride >= 0 &&
    forall r: nat :: r < height ==> 0 <= RowStart(pos, stride, r) && RowStart(pos, stride, r) + width <= length
  }

  /** Rows are laid out in order: a cell of an earlier row lies before a later row. */
  lemma {:induction false} RowsOrdered(pos: int, stride: int, r: nat, i: nat, c: int)
    requires r < i && 0 <= c < stride
    ensures Cell(pos, stride, r, c) < RowStart(pos, stride, i)
    decreases i
  {
    if i - 1 > r {
      RowsOrdered(pos, stride, r, i - 1, c);
    }
  }

  lemma {:induction false} RowStartMono(pos: int, stride: int, i: nat, j: nat)
    requires i <= j && stride >= 0
    ensures pos <= RowStart(pos, stride, i) <= RowStart(pos, stride, j)
    decreases j
  {
    if i < j {
      RowStartMono(pos, stride, i, j - 1);
    } else if i > 0 {
      RowStartMono(pos, stride, i - 1, i - 1);
    }
  }

  /** Position `pos + i`. */
  function Shift(pos: int, i: int): int
  {
    pos + i
  }

  /** `copyRow`: copies `width` bytes from `srcPos` to `dstPos`; `src` and `dst` may be one
      buffer when the two ranges are disjoint. */
  method CopyRow(src: array<byte>, srcPos: int, dst: array<byte>, dstPos: int, width: nat)
    requires 0 <= srcPos && srcPos + width <= src.Length
    requires 0 <= dstPos && dstPos + width <= dst.Length
    requires src == dst ==> srcPos + width <= dstPos || dstPos + width <= srcPos
    modifies dst
    ensures forall i :: 0 <= i < width ==> dst[Shift(dstPos, i)] == old(src[Shift(srcPos, i)])
    ensures forall k :: 0 <= k < dst.Length && !(dstPos <= k < dstPos + width) ==> dst[k] == old(dst[k])
  {
    var i := 0;
    while i < width
      invariant 0 <= i <= width
      invariant forall j :: 0 <= j < i ==> dst[Shift(dstPos, j)] == old(src[Shift(srcPos, j)])
      invariant forall j :: i <= j < width ==> src[Shift(srcPos, j)] == old(src[Shift(srcPos, j)])
      invariant forall k :: 0 <= k < dst.Length && !(dstPos <= k < dstPos + i) ==> dst[k] == old(dst[k])
    {
      dst[dstPos + i] := src[srcPos + i];
      i := i + 1;
    }
  }

  /** `copyPlane`: `height` rows of `width` bytes, each side advancing by its own stride. */
  method CopyPlane(src: array<byte>, srcPos: int, srcStride: int, dst: array<byte>, dstPos: int, dstStride: int,
                   width: nat, height: nat)
    requires src != dst && width <= dstStride
    requires PlaneFits(src.Length, srcPos, srcStride, width, height)
    requires PlaneFits(dst.Length, dstPos, dstStride, width, height)
    modifies dst
    ensures forall r: nat, c :: r < height && 0 <= c < width ==>
              dst[Cell(dstPos, dstStride, r, c)] == src[Cell(srcPos, srcStride, r, c)]
    ensures forall k :: 0 <= k < dst.Length && !InRows(k, dstPos, dstStride, width, height) ==> dst[k] == old(dst[k])
  {
    var sp := srcPos;
    var dp := dstPos;
    var i := 0;
    while i < height
      invariant 0 <= i <= height
      invariant sp == RowStart(srcPos, srcStride, i) && dp == RowStart(dstPos, dstStride, i)
      invariant forall r: nat, c :: r < i && 0 <= c < width ==>
                  dst[Cell(dstPos, dstStride, r, c)] == src[Cell(srcPos, srcStride, r, c)]
      invariant forall k :: 0 <= k < dst.Length && !InRows(k, dstPos, dstStride, width, i) ==> dst[k] == old(dst[k])
    {
      RowStartMono(srcPos, srcStride, i, height - 1);
      RowStartMono(dstPos, dstStride, i, height - 1);
      ghost var before := dst[..];
      CopyRow(src, sp, dst, dp, width);
      forall r: nat, c | r < i && 0 <= c < width
        ensures dst[Cell(dstPos, dstStride, r, c)] == src[Cell(srcPos, srcStride, r, c)]
      {
        RowsOrdered(dstPos, dstStride, r, i, c);
        RowStartMono(dstPos, dstStride, r, i);
        assert before[Cell(dstPos, dstStride, r, c)] == src[Cell(srcPos, srcStride, r, c)];
      }
      forall c | 0 <= c < width
        ensures dst[Cell(dstPos, dstStride, i, c)] == src[Cell(srcPos, srcStride, i, c)]
      {
        assert dst[Shift(dp, c)] == src[Shift(sp, c)];
      }
      sp := sp + srcStride;
      dp := dp + dstStride;
      i := i + 1;
    }
  }

  /** Chroma rows read from a planar buffer: hardware truncates an odd slice height. */
  function ChromaHeight(sliceHeight: int, height: int): (r: int)
    ensures height >= 0 && sliceHeight % 2 == 0 ==> r == (height + 1) / 2
    ensures height >= 0 && sliceHeight % 2 != 0 ==> r == height / 2
  {
    if sliceHeight % 2 == 0 then TruncDiv(height + 1, 2) else TruncDiv(height, 2)
  }

  /** With an odd slice height and an odd frame height the chroma plane is one row short,
      which the duplicated last row makes up. */
  lemma ChromaRowsWithDuplicate(sliceHeight: int, height: nat)
    requires sliceHeight % 2 != 0 && height % 2 == 1
    ensures ChromaHeight(sliceHeight, height) + 1 == (height + 1) / 2
  {
  }

  /** The duplication step: row `rows` becomes a copy of row `rows - 1`; the rows before
      it are left as they were. */
  method DuplicateLastRow(data: array<byte>, stride: nat, width: nat, rows: nat)
    requires width <= stride && rows >= 1
    requires PlaneFits(data.Length, 0, stride, width, rows + 1)
    modifies data
    ensures forall c :: 0 <= c < width ==> data[Cell(0, stride, rows, c)] == data[Cell(0, stride, rows - 1, c)]
    ensures forall r: nat, c :: r < rows && 0 <= c < width ==>
              data[Cell(0, stride, r, c)] == old(data[Cell(0, stride, r, c)])
    ensures forall k :: 0 <= k < data.Length && !(RowStart(0, stride, rows) <= k < RowStart(0, stride, rows) + width) ==>
              data[k] == old(data[k])
  {
    var pos := rows * stride;
    RowStartIsProduct(stride, rows);
    RowStartMono(0, stride, rows - 1, rows);
    ghost var before := data[..];
    CopyRow(data, pos - stride, data, pos, width);
    forall r: nat, c | r < rows && 0 <= c < width
      ensures data[Cell(0, stride, r, c)] == before[Cell(0, stride, r, c)]
    {
      RowsOrdered(0, stride, r, rows, c);
      RowStartMono(0, stride, r, rows);
    }
    forall c | 0 <= c < width
      ensures data[Cell(0, stride, rows, c)] == data[Cell(0, stride, rows - 1, c)]
    {
      assert data[Shift(pos, c)] == before[Shift(pos - stride, c)];
      RowsOrdered(0, stride, rows - 1, rows, c);
    }
  }

  /** `chromaHeight * strideU`, the position the duplication step computes, is the start of
      row `chromaHeight`. */
  lemma {:induction false} RowStartIsProduct(stride: int, r: nat)
    ensures RowStart(0, stride, r) == r * stride
    decreases r
  {
    if r > 0 {
      RowStartIsProduct(stride, r - 1);
      assert r * stride == (r - 1) * stride + stride;
    }
  }

  /** The planar branch of `deliverDecodedFrame`: Y, then U and V at half stride, with the
      last chroma row duplicated when the slice height is odd. */
  method CopyFromPlanar(buffer: array<byte>, offset: int, width: nat, height: nat, stride: nat, sliceHeight: nat,
                        dataY: array<byte>, strideY: nat, dataU: array<byte>, strideU: nat,
                        dataV: array<byte>, strideV: nat)
    requires buffer != dataY && buffer != dataU && buffer != dataV
    requires dataY != dataU && dataY != dataV && dataU != dataV
    requires width <= strideY && (width + 1) / 2 <= strideU && (width + 1) / 2 <= strideV
    requires PlaneFits(buffer.Length, offset, stride, width, height)
    requires PlaneFits(buffer.Length, offset + stride * sliceHeight, stride / 2,
                       (width + 1) / 2, ChromaHeight(sliceHeight, height))
    requires PlaneFits(buffer.Length, offset + stride * sliceHeight + stride / 2 * sliceHeight / 2, stride / 2,
                       (width + 1) / 2, ChromaHeight(sliceHeight, height))
    requires PlaneFits(dataY.Length, 0, strideY, width, height)
    requires sliceHeight % 2 != 0 ==> ChromaHeight(sliceHeight, height) >= 1
    requires PlaneFits(dataU.Length, 0, strideU, (width + 1) / 2, ChromaHeight(sliceHeight, height) + sliceHeight % 2)
    requires PlaneFits(dataV.Length, 0, strideV, (width + 1) / 2, ChromaHeight(sliceHeight, height) + sliceHeight % 2)
    modifies dataY, dataU, dataV
    ensures forall r: nat, c :: r < height && 0 <= c < width ==>
              dataY[Cell(0, strideY, r, c)] == buffer[Cell(offset, stride, r, c)]
    ensures forall r: nat, c :: r < ChromaHeight(sliceHeight, height) && 0 <= c < (width + 1) / 2 ==>
              dataU[Cell(0, strideU, r, c)] == buffer[Cell(offset + stride * sliceHeight, stride / 2, r, c)] &&
              dataV[Cell(0, strideV, r, c)] ==
                buffer[Cell(offset + stride * sliceHeight + stride / 2 * sliceHeight / 2, stride / 2, r, c)]
    ensures sliceHeight % 2 != 0 ==>
              forall c :: 0 <= c < (width + 1) / 2 ==>
                dataU[Cell(0, strideU, ChromaHeight(sliceHeight, height), c)] ==
                  dataU[Cell(0, strideU, ChromaHeight(sliceHeight, height) - 1, c)] &&
                dataV[Cell(0, strideV, ChromaHeight(sliceHeight, height), c)] ==
                  dataV[Cell(0, strideV, ChromaHeight(sliceHeight, height) - 1, c)]
  {
    var uvStride := stride / 2;
    var chromaWidth := (width + 1) / 2;
    var chromaHeight := ChromaHeight(sliceHeight, height);
    var yPos := offset;
    var uPos := yPos + stride * sliceHeight;
    var vPos := uPos + uvStride * sliceHeight / 2;
    CopyPlane(buffer, yPos, stride, dataY, 0, strideY, width, height);
    CopyPlane(buffer, uPos, uvStride, dataU, 0, strideU, chromaWidth, chromaHeight);
    CopyPlane(buffer, vPos, uvStride, dataV, 0, strideV, chromaWidth, chromaHeight);
    if sliceHeight % 2 != 0 {
      DuplicateLastRow(dataU, strideU, chromaWidth, chromaHeight);
      DuplicateLastRow(dataV, strideV, chromaWidth, chromaHeight);
    }
  }

  /** One chroma row of the NV12 branch, with the U and V samples written at half the
      source column. */
  method SplitUvRow(buffer: array<byte>, uvPos: int, width: nat,
                    dataU: array<byte>, dstUPos: int, dataV: array<byte>, dstVPos: int)
    requires buffer != dataU && buffer != dataV && dataU != dataV
    requires width >= 2 ==> 0 <= uvPos && uvPos + width / 2 * 2 <= buffer.Length
    requires 0 <= dstUPos && dstUPos + width / 2 <= dataU.Length
    requires 0 <= dstVPos && dstVPos + width / 2 <= dataV.Length
    modifies dataU, dataV
    ensures forall c :: 0 <= c < width / 2 ==>
              dataU[Shift(dstUPos, c)] == buffer[Shift(uvPos, 2 * c)] &&
              dataV[Shift(dstVPos, c)] == buffer[Shift(uvPos, 2 * c + 1)]
    ensures forall k :: 0 <= k < dataU.Length && !(dstUPos <= k < dstUPos + width / 2) ==> dataU[k] == old(dataU[k])
    ensures forall k :: 0 <= k < dataV.Length && !(dstVPos <= k < dstVPos + width / 2) ==> dataV[k] == old(dataV[k])
  {
    var j := 0;
    while j < width - 1
      invariant 0 <= j <= width && j % 2 == 0 && (j < width - 1 || j / 2 == width / 2)
      invariant forall c :: 0 <= c < j / 2 ==>
                  dataU[Shift(dstUPos, c)] == buffer[Shift(uvPos, 2 * c)] &&
                  dataV[Shift(dstVPos, c)] == buffer[Shift(uvPos, 2 * c + 1)]
      invariant forall k :: 0 <= k < dataU.Length && !(dstUPos <= k < dstUPos + j / 2) ==> dataU[k] == old(dataU[k])
      invariant forall k :: 0 <= k < dataV.Length && !(dstVPos <= k < dstVPos + j / 2) ==> dataV[k] == old(dataV[k])
    {
      dataU[dstUPos + j / 2] := buffer[uvPos + j];
      dataV[dstVPos + j / 2] := buffer[uvPos + j + 1];
      j := j + 2;
    }
  }

  /** One chroma row of the NV12 branch as written: the samples land at the source column
      itself, every other cell. */
  method SplitUvRowAsWritten(buffer: array<byte>, uvPos: int, width: nat,
                             dataU: array<byte>, dstUPos: int, dataV: array<byte>, dstVPos: int)
    requires buffer != dataU && buffer != dataV && dataU != dataV
    requires width >= 2 ==> 0 <= uvPos && uvPos + width / 2 * 2 <= buffer.Length
    requires width >= 2 ==> 0 <= dstUPos && dstUPos + width / 2 * 2 - 1 <= dataU.Length
    requires width >= 2 ==> 0 <= dstVPos && dstVPos + width / 2 * 2 - 1 <= dataV.Length
    modifies dataU, dataV
    ensures forall c :: 0 <= c < width / 2 ==>
              dataU[Shift(dstUPos, 2 * c)] == buffer[Shift(uvPos, 2 * c)] &&
              dataV[Shift(dstVPos, 2 * c)] == buffer[Shift(uvPos, 2 * c + 1)]
    ensures forall k :: 0 <= k < dataU.Length && (k < dstUPos || k >= dstUPos + width / 2 * 2 || (k - dstUPos) % 2 == 1) ==>
              dataU[k] == old(dataU[k])
  {
    var j := 0;
    while j < width - 1
      invariant 0 <= j <= width && j % 2 == 0 && (j < width - 1 || j / 2 == width / 2)
      invariant forall c :: 0 <= c < j / 2 ==>
                  dataU[Shift(dstUPos, 2 * c)] == buffer[Shift(uvPos, 2 * c)] &&
                  dataV[Shift(dstVPos, 2 * c)] == buffer[Shift(uvPos, 2 * c + 1)]
      invariant forall k :: 0 <= k < dataU.Length && (k < dstUPos || k >= dstUPos + j || (k - dstUPos) % 2 == 1) ==>
                  dataU[k] == old(dataU[k])
    {
      dataU[dstUPos + j] := buffer[uvPos + j];
      dataV[dstVPos + j] := buffer[uvPos + j + 1];
      j := j + 2;
    }
  }

  /** Chroma offsets within a row that the NV12 split writes, as written. */
  function UOffsetsAsWritten(width: nat): (r: set<int>)
    ensures forall c :: c in r ==> c % 2 == 0 && 0 <= c < width
  {
    set c | 0 <= c < width / 2 :: 2 * c
  }

  /** For a frame 4 pixels wide (2 chroma samples a row) the row as written fills chroma
      column 0 and offset 2, past the row's samples, and never column 1. */
  lemma SplitAsWrittenMissesChromaColumn()
    ensures UOffsetsAsWritten(4) == {0, 2} && 1 !in UOffsetsAsWritten(4)
    ensures 2 >= (4 + 1) / 2
  {
    assert 2 * 1 in UOffsetsAsWritten(4);
    assert 2 * 0 in UOffsetsAsWritten(4);
  }

  /** The NV12 branch of `deliverDecodedFrame` with the repaired row split. */
  method CopyFromNv12(buffer: array<byte>, offset: int, width: nat, height: nat, stride: nat, sliceHeight: nat,
                      dataY: array<byte>, strideY: nat, dataU: array<byte>, strideU: nat,
                      dataV: array<byte>, strideV: nat)
    requires buffer != dataY && buffer != dataU && buffer != dataV
    requires dataY != dataU && dataY != dataV && dataU != dataV
    requires width <= strideY && width / 2 <= strideU && width / 2 <= strideV
    requires PlaneFits(buffer.Length, offset, stride, width, height)
    requires PlaneFits(buffer.Length, offset + stride * sliceHeight, stride, width / 2 * 2, (height + 1) / 2)
    requires PlaneFits(dataY.Length, 0, strideY, width, height)
    requires PlaneFits(dataU.Length, 0, strideU, width / 2, (height + 1) / 2)
    requires PlaneFits(dataV.Length, 0, strideV, width / 2, (height + 1) / 2)
    modifies dataY, dataU, dataV
    ensures forall r: nat, c :: r < height && 0 <= c < width ==>
              dataY[Cell(0, strideY, r, c)] == buffer[Cell(offset, stride, r, c)]
    ensures forall r: nat, c :: r < (height + 1) / 2 && 0 <= c < width / 2 ==>
              dataU[Cell(0, strideU, r, c)] == buffer[Cell(offset + stride * sliceHeight, stride, r, 2 * c)] &&
              dataV[Cell(0, strideV, r, c)] == buffer[Cell(offset + stride * sliceHeight, stride, r, 2 * c + 1)]
  {
    var yPos := offset;
    var uvPos := yPos + stride * sliceHeight;
    CopyPlane(buffer, yPos, stride, dataY, 0, strideY, width, height);
    SplitUvPlane(buffer, uvPos, stride, width, (height + 1) / 2, dataU, strideU, dataV, strideV);
  }

  /** The chroma loop of the NV12 branch: each interleaved UV row is split into a U row and a
      V row. */
  method SplitUvPlane(buffer: array<byte>, uvStart: int, stride: nat, width: nat, chromaHeight: nat,
                      dataU: array<byte>, strideU: nat, dataV: array<byte>, strideV: nat)
    requires buffer != dataU && buffer != dataV && dataU != dataV
    requires width / 2 <= strideU && width / 2 <= strideV
    requires PlaneFits(buffer.Length, uvStart, stride, width / 2 * 2, chromaHeight)
    requires PlaneFits(dataU.Length, 0, strideU, width / 2, chromaHeight)
    requires PlaneFits(dataV.Length, 0, strideV, width / 2, chromaHeight)
    modifies dataU, dataV
    ensures forall r: nat, c :: r < chromaHeight && 0 <= c < width / 2 ==>
              dataU[Cell(0, strideU, r, c)] == buffer[Cell(uvStart, stride, r, 2 * c)] &&
              dataV[Cell(0, strideV, r, c)] == buffer[Cell(uvStart, stride, r, 2 * c + 1)]
  {
    var uvPos := uvStart;
    var dstUPos := 0;
    var dstVPos := 0;
    var i := 0;
    while i < chromaHeight
      invariant 0 <= i <= chromaHeight
      invariant uvPos == RowStart(uvStart, stride, i)
      invariant dstUPos == RowStart(0, strideU, i) && dstVPos == RowStart(0, strideV, i)
      invariant forall r: nat, c :: r < i && 0 <= c < width / 2 ==>
                  dataU[Cell(0, strideU, r, c)] == buffer[Cell(uvStart, stride, r, 2 * c)] &&
                  dataV[Cell(0, strideV, r, c)] == buffer[Cell(uvStart, stride, r, 2 * c + 1)]
    {
      RowStartMono(uvStart, stride, i, chromaHeight - 1);
      RowStartMono(0, strideU, i, chromaHeight - 1);
      RowStartMono(0, strideV, i, chromaHeight - 1);
      ghost var beforeU := dataU[..];
      ghost var beforeV := dataV[..];
      assert 0 <= uvPos && uvPos + width / 2 * 2 <= buffer.Length;
      assert 0 <= dstUPos && dstUPos + width / 2 <= dataU.Length;
      assert 0 <= dstVPos && dstVPos + width / 2 <= dataV.Length;
      SplitUvRow(buffer, uvPos, width, dataU, dstUPos, dataV, dstVPos);
      forall r: nat, c | r < i && 0 <= c < width / 2
        ensures dataU[Cell(0, strideU, r, c)] == buffer[Cell(uvStart, stride, r, 2 * c)] &&
                dataV[Cell(0, strideV, r, c)] == buffer[Cell(uvStart, stride, r, 2 * c + 1)]
      {
        RowsOrdered(0, strideU, r, i, c);
        RowsOrdered(0, strideV, r, i, c);
        RowStartMono(0, strideU, r, i);
        RowStartMono(0, strideV, r, i);
        assert beforeU[Cell(0, strideU, r, c)] == dataU[Cell(0, strideU, r, c)];
        assert beforeV[Cell(0, strideV, r, c)] == dataV[Cell(0, strideV, r, c)];
      }
      forall c | 0 <= c < width / 2
        ensures dataU[Cell(0, strideU, i, c)] == buffer[Cell(uvStart, stride, i, 2 * c)] &&
                dataV[Cell(0, strideV, i, c)] == buffer[Cell(uvStart, stride, i, 2 * c + 1)]
      {
        assert dataU[Shift(dstUPos, c)] == buffer[Shift(uvPos, 2 * c)];
        assert dataV[Shift(dstVPos, c)] == buffer[Shift(uvPos, 2 * c + 1)];
      }
      dstUPos := dstUPos + strideU;
      dstVPos := dstVPos + strideV;
      uvPos := uvPos + stride;
      i := i + 1;
    }
  }

  // ---------------------------------------------------------------------------------------
  // The decoder object

  class Decoder {
    var hasCodec: bool
    var hasCallback: bool
    var colorFormat: int
    var width: int
    var height: int
    var stride: int
    var sliceHeight: int
    var hasDecodedFirstFrame: bool
    var keyFrameRequired: bool
    var running: bool
    var shutdownError: bool

    function Snapshot(): DecoderState
      reads this
    {
      DecoderState(hasCodec, hasCallback, colorFormat, width, height, stride, sliceHeight,
                   hasDecodedFirstFrame, keyFrameRequired, running, shutdownError)
    }

    /** The constructor refuses a colour format outside the supported set. */
    constructor(colorFormat: int)
      requires colorFormat in SupportedColorFormats
      ensures Snapshot() == Constructed(colorFormat)
    {
      hasCodec := false;
      hasCallback := false;
      this.colorFormat := colorFormat;
      width := 0;
      height := 0;
      stride := 0;
      sliceHeight := 0;
      hasDecodedFirstFrame := false;
      keyFrameRequired := false;
      running := false;
      shutdownError := false;
    }

    method Release(joined: bool) returns (status: Status)
      modifies this
      ensures (Snapshot(), status) == Released(old(Snapshot()), joined)
    {
      running := false;
      if !joined {
        status := Timeout;
      } else if shutdownError {
        status := Error;
      } else {
        status := Ok;
      }
      hasCodec := false;
      hasCallback := false;
    }

    method InitDecode(newWidth: int, newHeight: int, callback: bool, env: InitEnv) returns (status: Status)
      modifies this
      ensures (Snapshot(), status) == Initialized(old(Snapshot()), newWidth, newHeight, callback, env)
    {
      width := newWidth;
      height := newHeight;
      stride := newWidth;
      sliceHeight := newHeight;
      hasCallback := callback;
      hasCodec := env.createOk;
      if !env.createOk {
        return Error;
      }
      if !env.configureOk {
        var _ := Release(env.releaseJoined);
        return Error;
      }
      hasDecodedFirstFrame := false;
      keyFrameRequired := true;
      running := true;
      status := Ok;
    }

    /** `decode`, with the key-frame gate and the reset's callback repaired. */
    method Decode(frame: EncodedImage, env: DecodeEnv) returns (status: Status)
      modifies this
      ensures (Snapshot(), status) == Decoded(Corrected, old(Snapshot()), frame, env)
    {
      if !hasCodec || !hasCallback {
        return Uninitialized;
      }
      if !frame.hasBuffer {
        return ErrParameter;
      }
      if frame.size == 0 {
        return Error;
      }
      if NeedsReset(Snapshot(), frame) {
        var callback := hasCallback;
        var st := Release(env.reset.releaseJoined);
        if st == Ok {
          st := InitDecode(frame.encodedWidth, frame.encodedHeight, callback, env.reset.init);
        }
        if st != Ok {
          return FallbackSoftware;
        }
      }
      if keyFrameRequired && !IsCompleteKeyFrame(frame) {
        return Error;
      }
      if !env.input.InputBuffer? || env.input.capacity < frame.size || !env.queueOk {
        return FallbackSoftware;
      }
      keyFrameRequired := false;
      status := Ok;
    }

    method Reformat(format: MediaFormat)
      requires WellFormedFormat(format)
      modifies this
      ensures Snapshot() == Reformatted(old(Snapshot()), format)
    {
      var newWidth := NewWidth(format);
      var newHeight := NewHeight(format);
      if hasDecodedFirstFrame && (width != newWidth || height != newHeight) {
        running := false;
        shutdownError := true;
        return;
      }
      width := newWidth;
      height := newHeight;
      if KeyColorFormat in format {
        colorFormat := format[KeyColorFormat];
        if colorFormat !in SupportedColorFormats {
          running := false;
          shutdownError := true;
          return;
        }
      }
      assert Reformatted(old(Snapshot()), format) == StrideFromFormat(Snapshot(), format);
      ApplyStride(format);
    }

    /** The end of `reformat`: stride and slice height from the format, at least the size. */
    method ApplyStride(format: MediaFormat)
      modifies this`stride, this`sliceHeight
      ensures Snapshot() == StrideFromFormat(old(Snapshot()), format)
      ensures stride >= width && sliceHeight >= height
    {
      if FormatKeyStride in format {
        stride := format[FormatKeyStride];
      }
      if FormatKeySliceHeight in format {
        sliceHeight := format[FormatKeySliceHeight];
      }
      stride := Max(width, stride);
      sliceHeight := Max(height, sliceHeight);
    }

    /** `deliverDecodedFrame` up to the copy: returns the geometry of the copy to make, if
        the buffer holds a whole frame. */
    method DeliverDecodedFrame(out: OutputResult) returns (copy: Option<Copy>)
      requires out.FormatChanged? ==> WellFormedFormat(out.format)
      modifies this
      ensures (Snapshot(), copy) == AfterOutput(old(Snapshot()), out)
    {
      if out.FormatChanged? {
        Reformat(out.format);
        return None;
      }
      if out.NoOutput? {
        return None;
      }
      hasDecodedFirstFrame := true;
      if out.size < FrameBytes(width, height) {
        return None;
      }
      var d := ToInt32(height * 3);
      if out.size < FrameBytes(stride, height) && sliceHeight == height && stride > width && d != 0 {
        stride := TruncDiv(ToInt32(out.size * 2), d);
      }
      copy := Some(Copy(colorFormat == ColorFormatYUV420Planar, out.offset, width, height, stride,
                        sliceHeight, out.presentationTimeUs * 1000));
    }
  }
}
