/** The native wrapper around a Java video decoder: it remembers, in submission order, the
    capture time and RTP timestamp of every frame handed to the Java decoder, and gives each
    decoded frame the RTP timestamp of the entry whose capture time matches. The JNI calls
    themselves are not modelled; the frames handed to the decode-complete callback are
    recorded in `delivered`. */
module VideoDecoderWrapper {
  import opened Common
  import HardwareVideoEncoder

  /** `FrameExtraInfo`. */
  datatype FrameExtraInfo = FrameExtraInfo(captureTimeMs: int, timestampRtp: int)

  /** Native frame types; `OtherFrameType` is any value outside the three the switch handles. */
  datatype NativeFrameType = EmptyFrame | VideoFrameKey | VideoFrameDelta | OtherFrameType

  /** The frame-type switch of `ConvertEncodedImageToJavaEncodedImage`. */
  function ToJavaFrameType(t: NativeFrameType): (r: Option<HardwareVideoEncoder.FrameType>)
    ensures r.None? <==> t == OtherFrameType
    ensures t == EmptyFrame ==> r == Some(HardwareVideoEncoder.EmptyFrame)
    ensures t == VideoFrameKey ==> r == Some(HardwareVideoEncoder.VideoFrameKey)
    ensures t == VideoFrameDelta ==> r == Some(HardwareVideoEncoder.VideoFrameDelta)
  {
    match t
    case EmptyFrame => Some(HardwareVideoEncoder.EmptyFrame)
    case VideoFrameKey => Some(HardwareVideoEncoder.VideoFrameKey)
    case VideoFrameDelta => Some(HardwareVideoEncoder.VideoFrameDelta)
    case OtherFrameType => None
  }

  /** Frame types with a Java counterpart map one to one. */
  lemma FrameTypeMappingInjective(a: NativeFrameType, b: NativeFrameType)
    requires ToJavaFrameType(a).Some? && ToJavaFrameType(a) == ToJavaFrameType(b)
    ensures a == b
  {
  }

  /** The capture time in milliseconds `OnDecodedFrame` looks for, as written: the
      nanosecond timestamp divided twice by 1000 and stored in a `uint32_t`. */
  function CaptureKeyAsWritten(timestampNs: int): (r: int)
    ensures 0 <= r < UInt32Modulus
  {
    ToUInt32(TruncDiv(TruncDiv(timestampNs, 1000), 1000))
  }

  /** The capture time kept at the 64-bit width of the stored entries. */
  function CaptureKey(timestampNs: int): (r: int)
    ensures timestampNs >= 0 ==> r == timestampNs / 1000000
  {
    TruncDiv(TruncDiv(timestampNs, 1000), 1000)
  }

  /** The pop loop of `OnDecodedFrame`: entries are removed from the front up to and
      including the first whose capture time is `key`; with none, the FIFO empties. */
  function PopUntil(fifo: seq<FrameExtraInfo>, key: int): (r: (seq<FrameExtraInfo>, Option<FrameExtraInfo>))
    ensures r.1.None? ==> r.0 == [] && forall i :: 0 <= i < |fifo| ==> fifo[i].captureTimeMs != key
    ensures r.1.Some? ==> r.1.value.captureTimeMs == key
    ensures |r.0| <= |fifo| && r.0 == fifo[|fifo| - |r.0|..]
  {
    if fifo == [] then ([], None)
    else if fifo[0].captureTimeMs == key then (fifo[1..], Some(fifo[0]))
    else PopUntil(fifo[1..], key)
  }

  /** The matched entry is the first one with the key; it and everything before it leave
      the FIFO, everything after it stays in order. */
  lemma {:induction false} PopUntilFirstMatch(fifo: seq<FrameExtraInfo>, key: int, i: nat)
    requires i < |fifo| && fifo[i].captureTimeMs == key
    requires forall j :: 0 <= j < i ==> fifo[j].captureTimeMs != key
    ensures PopUntil(fifo, key) == (fifo[i + 1..], Some(fifo[i]))
    decreases i
  {
    if i > 0 {
      PopUntilFirstMatch(fifo[1..], key, i - 1);
      assert fifo[1..][i - 1 + 1..] == fifo[i + 1..];
    }
  }

  /** Entries pushed after the one a frame matches are never discarded by that frame. */
  lemma {:induction false} PopUntilKeepsLaterEntries(fifo: seq<FrameExtraInfo>, later: seq<FrameExtraInfo>,
                                                     key: int, i: nat)
    requires i < |fifo| && fifo[i].captureTimeMs == key
    ensures PopUntil(fifo + later, key) == (PopUntil(fifo, key).0 + later, PopUntil(fifo, key).1)
    decreases i
  {
    assert (fifo + later)[0] == fifo[0];
    assert (fifo + later)[1..] == fifo[1..] + later;
    if fifo[0].captureTimeMs != key {
      PopUntilKeepsLaterEntries(fifo[1..], later, key, i - 1);
    }
  }

  /** As written, a capture time of 2^32 ms can never be matched: the key wraps to 0, the
      whole FIFO is discarded and no frame is delivered. */
  lemma CaptureKeyWraps()
    ensures var fifo := [FrameExtraInfo(UInt32Modulus, 7)];
      && PopUntil(fifo, CaptureKeyAsWritten(UInt32Modulus * 1000000)) == ([], None)
      && PopUntil(fifo, CaptureKey(UInt32Modulus * 1000000)) == ([], Some(FrameExtraInfo(UInt32Modulus, 7)))
  {
    assert TruncDiv(UInt32Modulus * 1000000, 1000) == UInt32Modulus * 1000;
    assert TruncDiv(UInt32Modulus * 1000, 1000) == UInt32Modulus;
  }

  /** A decoded frame as handed to the callback: the RTP timestamp of its matched entry. */
  datatype DecodedFrame = DecodedFrame(timestampRtp: int, timestampNs: int)

  class Wrapper {
    var frameExtraInfos: seq<FrameExtraInfo>
    var delivered: seq<DecodedFrame>

    constructor()
      ensures frameExtraInfos == [] && delivered == []
    {
      frameExtraInfos := [];
      delivered := [];
    }

    /** `Decode`: remembers the frame's capture time and RTP timestamp, then passes the
        frame, with its type converted, to the Java decoder. */
    method Decode(captureTimeMs: int, timestampRtp: int, frameType: NativeFrameType)
      returns (javaFrameType: Option<HardwareVideoEncoder.FrameType>)
      modifies this
      ensures frameExtraInfos == old(frameExtraInfos) + [FrameExtraInfo(captureTimeMs, timestampRtp)]
      ensures delivered == old(delivered)
      ensures javaFrameType == ToJavaFrameType(frameType)
    {
      frameExtraInfos := frameExtraInfos + [FrameExtraInfo(captureTimeMs, timestampRtp)];
      javaFrameType := ToJavaFrameType(frameType);
    }

    /** `Release`: the FIFO is emptied. */
    method Release()
      modifies this
      ensures frameExtraInfos == [] && delivered == old(delivered)
    {
      frameExtraInfos := [];
    }

    /** `OnDecodedFrame`, matching on the full 64-bit capture time. */
    method OnDecodedFrame(timestampNs: int)
      modifies this
      ensures var (rest, matched) := PopUntil(old(frameExtraInfos), CaptureKey(timestampNs));
        && frameExtraInfos == rest
        && delivered == old(delivered) + (if matched.Some? then [DecodedFrame(matched.value.timestampRtp, timestampNs)] else [])
    {
      var key := CaptureKey(timestampNs);
      var info: FrameExtraInfo;
      while true
        invariant PopUntil(frameExtraInfos, key) == PopUntil(old(frameExtraInfos), key)
        invariant delivered == old(delivered)
        decreases |frameExtraInfos|
      {
        if frameExtraInfos == [] {
          return;
        }
        info := frameExtraInfos[0];
        frameExtraInfos := frameExtraInfos[1..];
        if info.captureTimeMs == key {
          break;
        }
      }
      delivered := delivered + [DecodedFrame(info.timestampRtp, timestampNs)];
    }
  }
}
