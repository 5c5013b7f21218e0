/** The stereo RTP payload format: each packet of an inner (VP9) packetizer is wrapped in a
    one-byte marker, and the first packet of a frame also carries the `RTPVideoStereoInfo`
    header bytes. The depacketizer strips these again. The inner packetizer is an oracle
    (the packets it produces for a frame are given), and the inner depacketizer receives
    the bytes that remain. */
module RtpFormatVideoStereo {
  import opened Common

  /** `RtpFormatVideoStereo::kFirstPacketBit`. */
  const FirstPacketBit: byte := 0x02
  /** `kStereoHeaderMarkerLength`. */
  const StereoHeaderMarkerLength: nat := 1
  /** `kStereoHeaderLength`, `sizeof(RTPVideoStereoInfo)`: a codec type, two one-byte
      indices and a 64-bit picture index, padded. */
  const StereoHeaderLength: nat := 16

  /** `(marker & kFirstPacketBit) != 0`. */
  predicate HasFirstPacketBit(marker: byte)
  {
    (marker as int / 2) % 2 == 1
  }

  /** `marker & ~kFirstPacketBit`. */
  function ClearFirstPacketBit(marker: byte): (r: byte)
    ensures !HasFirstPacketBit(r)
    ensures !HasFirstPacketBit(marker) ==> r == marker
  {
    if HasFirstPacketBit(marker) then marker - 2 else marker
  }

  /** The payload `NextPacket` makes of an inner payload with the given marker. The
      packetizer only ever holds `kFirstPacketBit` or zero, and it compares the whole byte
      with `kFirstPacketBit`. */
  function Wrap(marker: byte, stereoInfo: seq<byte>, innerPayload: seq<byte>): (r: seq<byte>)
    ensures |r| == 1 + (if marker == FirstPacketBit then |stereoInfo| else 0) + |innerPayload|
    ensures r[0] == marker
  {
    [marker] + (if marker == FirstPacketBit then stereoInfo else []) + innerPayload
  }

  /** The payloads of one frame, from the marker `SetPayloadData` leaves onward. */
  function Packetized(marker: byte, stereoInfo: seq<byte>, inner: seq<seq<byte>>): (r: seq<seq<byte>>)
    ensures |r| == |inner|
    decreases |inner|
  {
    if inner == [] then []
    else [Wrap(marker, stereoInfo, inner[0])] + Packetized(ClearFirstPacketBit(marker), stereoInfo, inner[1..])
  }

  /** A frame's first payload is the first-packet marker, the stereo header and the first
      inner payload; every later one is a zero marker and its inner payload. */
  lemma {:induction false} PacketizedShape(marker: byte, stereoInfo: seq<byte>, inner: seq<seq<byte>>)
    requires marker == FirstPacketBit || marker == 0
    ensures var r := Packetized(marker, stereoInfo, inner);
      && (|r| > 0 ==> r[0] == Wrap(marker, stereoInfo, inner[0]))
      && forall i :: 1 <= i < |r| ==> r[i] == [0 as byte] + inner[i]
    decreases |inner|
  {
    if |inner| > 1 {
      var next := ClearFirstPacketBit(marker);
      assert next == 0;
      PacketizedShape(next, stereoInfo, inner[1..]);
      var r := Packetized(marker, stereoInfo, inner);
      var rest := Packetized(next, stereoInfo, inner[1..]);
      forall i | 1 <= i < |r|
        ensures r[i] == [0 as byte] + inner[i]
      {
        assert r[i] == rest[i - 1];
        if i > 1 {
          assert rest[i - 1] == [0 as byte] + inner[1..][i - 1];
        }
      }
    }
  }

  /** What `Parse` hands on: the stereo header when the packet carries one, and the
      payload left for the inner depacketizer. */
  datatype Parsed = Parsed(stereoInfo: Option<seq<byte>>, innerPayload: seq<byte>)

  /** `Parse`, corrected: an empty payload is rejected, and so is a first packet too short
      to hold the stereo header. */
  function Parse(payload: seq<byte>): (r: Option<Parsed>)
    ensures payload == [] ==> r == None
    ensures r.Some? ==> |r.value.innerPayload| < |payload|
    ensures r.Some? && r.value.stereoInfo.Some? ==> |r.value.stereoInfo.value| == StereoHeaderLength
  {
    if |payload| == 0 then None
    else
      var marker := payload[0];
      var rest := payload[1..];
      if HasFirstPacketBit(marker) then
        if |rest| < StereoHeaderLength then None
        else Some(Parsed(Some(rest[..StereoHeaderLength]), rest[StereoHeaderLength..]))
      else Some(Parsed(None, rest))
  }

  /** The length `Parse` as written hands to the inner depacketizer: the header length is
      subtracted from the remaining length in `size_t` arithmetic, without a check. */
  function ParsedLengthAsWritten(payload: seq<byte>): (n: int)
    requires |payload| > 0
    ensures !HasFirstPacketBit(payload[0]) ==> n == |payload| - 1
    ensures HasFirstPacketBit(payload[0]) && 1 + StereoHeaderLength <= |payload| <= SizeTModulus ==>
      n == |payload| - 1 - StereoHeaderLength
    ensures HasFirstPacketBit(payload[0]) && |payload| < 1 + StereoHeaderLength ==> n > |payload|
  {
    var remaining := |payload| - 1;
    if HasFirstPacketBit(payload[0]) then ToSizeT(remaining - StereoHeaderLength) else remaining
  }

  /** A one-byte first packet: `Parse` as written copies 16 header bytes from beyond the
      payload and tells the inner depacketizer that almost 2^64 bytes follow. */
  lemma ShortFirstPacketOverreads()
    ensures ParsedLengthAsWritten([FirstPacketBit]) == SizeTModulus - StereoHeaderLength
    ensures ParsedLengthAsWritten([FirstPacketBit]) > |[FirstPacketBit]|
    ensures Parse([FirstPacketBit]) == None
  {
  }

  /** For a payload long enough, the corrected parse hands on exactly the length `Parse` as
      written computes. */
  lemma ParseAgreesWhenLongEnough(payload: seq<byte>)
    requires 0 < |payload| < SizeTModulus
    requires HasFirstPacketBit(payload[0]) ==> |payload| >= 1 + StereoHeaderLength
    ensures Parse(payload).Some?
    ensures |Parse(payload).value.innerPayload| == ParsedLengthAsWritten(payload)
  {
  }

  /** Round trip: parsing the payloads of a frame gives back the stereo header on the first
      packet only, and every inner payload unchanged. */
  lemma {:induction false} ParsePacketized(stereoInfo: seq<byte>, inner: seq<seq<byte>>, i: nat)
    requires |stereoInfo| == StereoHeaderLength && i < |inner|
    ensures Parse(Packetized(FirstPacketBit, stereoInfo, inner)[i])
         == Some(Parsed(if i == 0 then Some(stereoInfo) else None, inner[i]))
  {
    PacketizedShape(FirstPacketBit, stereoInfo, inner);
    var p := Packetized(FirstPacketBit, stereoInfo, inner)[i];
    if i == 0 {
      assert p[1..] == stereoInfo + inner[0];
      assert p[1..][..StereoHeaderLength] == stereoInfo;
      assert p[1..][StereoHeaderLength..] == inner[0];
    } else {
      assert p[1..] == inner[i];
      assert !HasFirstPacketBit(0);
    }
  }

  class Packetizer {
    /** `max_payload_len_`: the budget handed to the inner packetizer. */
    const maxPayloadLen: int
    const lastPacketReductionLen: int
    const stereoInfo: seq<byte>
    var headerMarker: byte
    /** The inner packetizer's packets still to come. */
    var inner: seq<seq<byte>>

    constructor(maxPayloadLength: nat, lastPacketReduction: nat, info: seq<byte>)
      requires |info| == StereoHeaderLength
      ensures maxPayloadLen == ToSizeT(maxPayloadLength - StereoHeaderMarkerLength - StereoHeaderLength)
      ensures lastPacketReductionLen == lastPacketReduction && stereoInfo == info
      ensures inner == [] && headerMarker == 0
    {
      maxPayloadLen := ToSizeT(maxPayloadLength - StereoHeaderMarkerLength - StereoHeaderLength);
      lastPacketReductionLen := lastPacketReduction;
      stereoInfo := info;
      headerMarker := 0;
      inner := [];
    }

    /** `SetPayloadData`: the inner packetizer is given the frame, and the next packet is the
        first of the frame. */
    method SetPayloadData(innerPackets: seq<seq<byte>>) returns (numPackets: nat)
      modifies this
      ensures headerMarker == FirstPacketBit && inner == innerPackets
      ensures numPackets == |innerPackets|
    {
      headerMarker := FirstPacketBit;
      inner := innerPackets;
      numPackets := |inner|;
    }

    /** `NextPacket`: the inner packetizer must have a packet left (`RTC_CHECK(rv)`). */
    method NextPacket() returns (payload: seq<byte>)
      requires inner != []
      modifies this
      ensures [payload] + Packetized(headerMarker, stereoInfo, inner)
           == Packetized(old(headerMarker), stereoInfo, old(inner))
    {
      ghost var marker := headerMarker;
      ghost var all := inner;
      var innerPayload := inner[0];
      inner := inner[1..];
      var firstPacket := headerMarker == FirstPacketBit;
      var header := if firstPacket then [headerMarker] + stereoInfo else [headerMarker];
      headerMarker := ClearFirstPacketBit(headerMarker);
      payload := header + innerPayload;
      assert payload == Wrap(marker, stereoInfo, all[0]);
    }
  }
}
