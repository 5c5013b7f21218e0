/** The fake conference transport of the voice engine tests: packets sent by any channel
    are queued, then dispatched in order to the channel the sender's SSRC is routed to.
    The two voice engines are not modelled; what the transport hands them is recorded as a
    sequence of deliveries, and the channel numbers they create are inputs. The half-RTT
    delay before each dispatch is left out. */
module ConferenceTransport {
  import opened Common

  const ReflectorSsrc: int := 0
  const LocalSsrc: int := 1
  const FirstRemoteSsrc: int := 2

  /** `rtc::GetBE32` at `pos`. */
  function GetBE32(data: seq<byte>, pos: nat): (r: int)
    requires pos + 4 <= |data|
    ensures 0 <= r < UInt32Modulus
  {
    data[pos] as int * 0x100_0000 + data[pos + 1] as int * 0x1_0000 + data[pos + 2] as int * 0x100
      + data[pos + 3] as int
  }

  /** The four big-endian bytes of a 32-bit value. */
  function BE32Bytes(x: int): (r: seq<byte>)
    requires 0 <= x < UInt32Modulus
    ensures |r| == 4
  {
    [(x / 0x100_0000) as byte, (x / 0x1_0000 % 0x100) as byte, (x / 0x100 % 0x100) as byte,
     (x % 0x100) as byte]
  }

  /** Reading the bytes of a value gives the value back. */
  lemma GetBE32OfBytes(prefix: seq<byte>, x: int, suffix: seq<byte>)
    requires 0 <= x < UInt32Modulus
    ensures GetBE32(prefix + BE32Bytes(x) + suffix, |prefix|) == x
  {
    var d := prefix + BE32Bytes(x) + suffix;
    var n := |prefix|;
    assert d[n] == BE32Bytes(x)[0] && d[n + 1] == BE32Bytes(x)[1];
    assert d[n + 2] == BE32Bytes(x)[2] && d[n + 3] == BE32Bytes(x)[3];
    BE32Recompose(x);
  }

  /** Proof helper (arithmetic): the four bytes of `x`, weighted by their place, add up to `x`. */
  lemma BE32Recompose(x: int)
    requires 0 <= x < UInt32Modulus
    ensures (x / 0x100_0000) * 0x100_0000 + (x / 0x1_0000 % 0x100) * 0x1_0000
          + (x / 0x100 % 0x100) * 0x100 + x % 0x100 == x
  {
    var a := x / 0x100;
    var b := a / 0x100;
    assert x == a * 0x100 + x % 0x100;
    assert a == b * 0x100 + a % 0x100;
    assert b == b / 0x100 * 0x100 + b % 0x100;
    DivDiv(x, 0x100, 0x100);
    DivDiv(a, 0x100, 0x100);
    DivDiv(x, 0x100, 0x1_0000);
    assert b % 0x100 == x / 0x1_0000 % 0x100;
    assert b / 0x100 == x / 0x100_0000;
  }

  /** Proof helper (arithmetic): dividing twice is dividing by the product. */
  lemma DivDiv(x: nat, m: nat, n: nat)
    requires m > 0 && n > 0
    ensures x / m / n == x / (m * n)
  {
    var q := x / m / n;
    var r := x / m % n;
    assert x / m == q * n + r;
    assert x == (q * n + r) * m + x % m;
    assert x == q * (m * n) + (r * m + x % m);
    assert r * m + x % m < m * n by {
      assert r * m <= (n - 1) * m;
    }
    ModUnique(x, m * n, q, r * m + x % m);
  }

  /** Where the SSRC sits: offset 8 in an RTP header, 4 in an RTCP header. */
  function SsrcPos(rtcp: bool): nat
  {
    if rtcp then 4 else 8
  }

  /** `ParseSsrc`: the big-endian SSRC at its offset, or 0 when the packet is too short. */
  function ParseSsrc(data: seq<byte>, rtcp: bool): (r: int)
    ensures |data| < SsrcPos(rtcp) + 4 ==> r == 0
    ensures |data| >= SsrcPos(rtcp) + 4 ==> r == GetBE32(data, SsrcPos(rtcp))
    ensures 0 <= r < UInt32Modulus
  {
    var pos := SsrcPos(rtcp);
    if |data| >= pos + 4 then GetBE32(data, pos) else 0
  }

  /** A header whose SSRC field was written with `ssrc` parses to `ssrc`. */
  lemma ParseSsrcReadsWrittenSsrc(header: seq<byte>, ssrc: int, rest: seq<byte>, rtcp: bool)
    requires |header| == SsrcPos(rtcp)
    requires 0 <= ssrc < UInt32Modulus
    ensures ParseSsrc(header + BE32Bytes(ssrc) + rest, rtcp) == ssrc
  {
    GetBE32OfBytes(header, ssrc, rest);
  }

  datatype PacketType = Rtp | Rtcp

  /** A queued packet; the send time is only used for the delay, which is left out. */
  datatype Packet = Packet(packetType: PacketType, channel: int, data: seq<byte>)

  datatype Network = LocalNetwork | RemoteNetwork

  /** `ReceivedRTPPacket` / `ReceivedRTCPPacket` on one engine's network interface. */
  datatype Delivery = Delivery(network: Network, channel: int, packetType: PacketType, data: seq<byte>)

  /** A call that tears a stream down: `DeRegisterExternalTransport` or `DeleteChannel`. */
  datatype TeardownCall = Deregister(network: Network, channel: int) | DeleteChannel(network: Network, channel: int)

  /** `GetReceiverChannelForSsrc`: the receiving channel of the stream, or -1. */
  function ReceiverFor(streams: map<int, (int, int)>, ssrc: int): (r: int)
    ensures ssrc in streams ==> r == streams[ssrc].1
    ensures ssrc !in streams ==> r == -1
  {
    if ssrc in streams then streams[ssrc].1 else -1
  }

  /** `SendPacket(const Packet&)`: where a packet goes. RTP from the local sender goes to the
      reflector; RTCP from the local sender goes to the reflector and RTCP from the reflector
      to the local sender; any other SSRC goes to the stream's receiving channel, if it has
      one, and is dropped otherwise. */
  function Route(p: Packet, streams: map<int, (int, int)>, reflector: int, localSender: int): (r: Option<Delivery>)
    ensures r.Some? ==> r.value.packetType == p.packetType && r.value.data == p.data
    ensures r.Some? && r.value.network == RemoteNetwork ==> r.value.channel == reflector
    ensures r.Some? && r.value.network == LocalNetwork && r.value.channel != localSender ==>
      ParseSsrc(p.data, p.packetType == Rtcp) in streams
  {
    var ssrc := ParseSsrc(p.data, p.packetType == Rtcp);
    if ssrc == LocalSsrc then Some(Delivery(RemoteNetwork, reflector, p.packetType, p.data))
    else if p.packetType == Rtcp && ssrc == ReflectorSsrc then Some(Delivery(LocalNetwork, localSender, Rtcp, p.data))
    else
      var destination := ReceiverFor(streams, ssrc);
      if destination != -1 then Some(Delivery(LocalNetwork, destination, p.packetType, p.data)) else None
  }

  /** Where `Route` sends a packet, case by case; the packet itself is never changed. */
  lemma RouteCases(p: Packet, streams: map<int, (int, int)>, reflector: int, localSender: int)
    ensures var r := Route(p, streams, reflector, localSender);
      r.Some? ==> r.value.packetType == p.packetType && r.value.data == p.data
    ensures ParseSsrc(p.data, p.packetType == Rtcp) == LocalSsrc ==>
      Route(p, streams, reflector, localSender) == Some(Delivery(RemoteNetwork, reflector, p.packetType, p.data))
    ensures ParseSsrc(p.data, p.packetType == Rtcp) == ReflectorSsrc && p.packetType == Rtcp ==>
      Route(p, streams, reflector, localSender) == Some(Delivery(LocalNetwork, localSender, Rtcp, p.data))
    ensures var ssrc := ParseSsrc(p.data, p.packetType == Rtcp);
      ssrc != LocalSsrc && (ssrc != ReflectorSsrc || p.packetType == Rtp) ==>
        && (Route(p, streams, reflector, localSender).Some? <==> ReceiverFor(streams, ssrc) != -1)
        && (ReceiverFor(streams, ssrc) != -1 ==>
              Route(p, streams, reflector, localSender) == Some(Delivery(LocalNetwork, streams[ssrc].1, p.packetType, p.data)))
  {
  }

  /** The delivery of one packet, if it has one. */
  function Delivered(p: Packet, streams: map<int, (int, int)>, reflector: int, localSender: int): seq<Delivery>
  {
    match Route(p, streams, reflector, localSender)
    case Some(d) => [d]
    case None => []
  }

  /** The deliveries of a sequence of packets, in order. */
  function Routed(ps: seq<Packet>, streams: map<int, (int, int)>, reflector: int, localSender: int): (r: seq<Delivery>)
    ensures |r| <= |ps|
    decreases |ps|
  {
    if ps == [] then []
    else Routed(ps[..|ps| - 1], streams, reflector, localSender) + Delivered(ps[|ps| - 1], streams, reflector, localSender)
  }

  lemma RoutedSnoc(ps: seq<Packet>, p: Packet, streams: map<int, (int, int)>, reflector: int, localSender: int)
    ensures Routed(ps + [p], streams, reflector, localSender)
         == Routed(ps, streams, reflector, localSender) + Delivered(p, streams, reflector, localSender)
  {
    assert (ps + [p])[..|ps|] == ps;
  }

  /** Dispatch keeps order: the deliveries of two batches are those of the first followed
      by those of the second. */
  lemma {:induction false} RoutedAppend(a: seq<Packet>, b: seq<Packet>, streams: map<int, (int, int)>,
                                        reflector: int, localSender: int)
    ensures Routed(a + b, streams, reflector, localSender)
         == Routed(a, streams, reflector, localSender) + Routed(b, streams, reflector, localSender)
    decreases |b|
  {
    if b == [] {
      assert a + b == a;
    } else {
      var front, last := b[..|b| - 1], b[|b| - 1];
      var d := Delivered(last, streams, reflector, localSender);
      SplitLast(a, b);
      calc {
        Routed(a + b, streams, reflector, localSender);
        Routed((a + front) + [last], streams, reflector, localSender);
        { RoutedSnoc(a + front, last, streams, reflector, localSender); }
        Routed(a + front, streams, reflector, localSender) + d;
        { RoutedAppend(a, front, streams, reflector, localSender); }
        Routed(a, streams, reflector, localSender) + Routed(front, streams, reflector, localSender) + d;
        { RoutedSnoc(front, last, streams, reflector, localSender); }
        Routed(a, streams, reflector, localSender) + Routed(b, streams, reflector, localSender);
      }
    }
  }

  lemma SplitLast(a: seq<Packet>, b: seq<Packet>)
    requires b != []
    ensures a + b == (a + b[..|b| - 1]) + [b[|b| - 1]]
    ensures b == b[..|b| - 1] + [b[|b| - 1]]
  {
  }

  /** The teardown calls `RemoveStream` makes for a stream as written: the receiving
      channel, which the local engine created, is deregistered from and deleted on the
      remote engine, and the sending channel, which the remote engine created, on the
      local engine. */
  function TeardownAsWritten(stream: (int, int)): (r: seq<TeardownCall>)
    ensures |r| == 4
    ensures forall k :: 0 <= k < |r| ==>
      (r[k].network == RemoteNetwork ==> r[k].channel == stream.1)
      && (r[k].network == LocalNetwork ==> r[k].channel == stream.0)
  {
    [Deregister(RemoteNetwork, stream.1), Deregister(LocalNetwork, stream.0),
     DeleteChannel(RemoteNetwork, stream.1), DeleteChannel(LocalNetwork, stream.0)]
  }

  /** The teardown each engine needs: the sending channel on the remote engine that created
      it, the receiving channel on the local one. */
  function Teardown(stream: (int, int)): (r: seq<TeardownCall>)
    ensures forall k :: 0 <= k < |r| ==>
      (r[k].network == RemoteNetwork ==> r[k].channel == stream.0)
      && (r[k].network == LocalNetwork ==> r[k].channel == stream.1)
    ensures |r| == 4
  {
    [Deregister(RemoteNetwork, stream.0), Deregister(LocalNetwork, stream.1),
     DeleteChannel(RemoteNetwork, stream.0), DeleteChannel(LocalNetwork, stream.1)]
  }

  /** As written, a stream whose two channel numbers differ has its sending channel left
      registered on the remote engine: the remote engine is asked to drop the receiver's
      number instead. */
  lemma TeardownAsWrittenMissesSender(stream: (int, int))
    requires stream.0 != stream.1
    ensures Deregister(RemoteNetwork, stream.0) !in TeardownAsWritten(stream)
    ensures Deregister(RemoteNetwork, stream.0) in Teardown(stream)
  {
  }

  /** Channels (1, 2): the remote engine is told to drop channel 2, which it never gave to
      this stream. */
  lemma TeardownAsWrittenExample()
    ensures TeardownAsWritten((1, 2))[0] == Deregister(RemoteNetwork, 2)
    ensures Teardown((1, 2))[0] == Deregister(RemoteNetwork, 1)
  {
  }

  /** The outcome of `packet_event_->Wait(1000)`. */
  datatype WaitResult = Signaled | Timeout | WaitError

  class Transport {
    const reflector: int
    const localSender: int
    var rttMs: int
    var streamCount: nat
    /** `streams_`: stream id (the remote SSRC) to (sending channel, receiving channel). */
    var streams: map<int, (int, int)>
    var queue: seq<Packet>
    var delivered: seq<Delivery>
    var teardowns: seq<TeardownCall>

    /** The constructor, with the channels the two engines create for the local sender and
        the reflector. */
    constructor(localSenderChannel: int, reflectorChannel: int)
      ensures localSender == localSenderChannel && reflector == reflectorChannel
      ensures rttMs == 0 && streamCount == 0 && streams == map[] && queue == [] && delivered == [] && teardowns == []
    {
      localSender := localSenderChannel;
      reflector := reflectorChannel;
      rttMs := 0;
      streamCount := 0;
      streams := map[];
      queue := [];
      delivered := [];
      teardowns := [];
    }

    /** `SendPacket` / `SendRTCPPacket`: the packet is queued and its length returned. */
    method StorePacket(packetType: PacketType, channel: int, data: seq<byte>) returns (sent: int)
      modifies this
      ensures queue == old(queue) + [Packet(packetType, channel, data)]
      ensures sent == ToInt32(|data|)
      ensures streams == old(streams) && streamCount == old(streamCount) && delivered == old(delivered)
      ensures teardowns == old(teardowns) && rttMs == old(rttMs)
    {
      queue := queue + [Packet(packetType, channel, data)];
      sent := ToInt32(|data|);
    }

    /** `GetReceiverChannelForSsrc`. */
    method GetReceiverChannelForSsrc(ssrc: int) returns (channel: int)
      ensures channel == ReceiverFor(streams, ssrc)
    {
      if ssrc in streams {
        channel := streams[ssrc].1;
      } else {
        channel := -1;
      }
    }

    /** `DispatchPackets`: after a signal, the whole queue is sent in order; a timeout or an
        error sends nothing. It always asks to be called again. */
    method DispatchPackets(wait: WaitResult) returns (again: bool)
      modifies this`queue, this`delivered
      ensures again
      ensures wait != Signaled ==> queue == old(queue) && delivered == old(delivered)
      ensures wait == Signaled ==> queue == []
      ensures wait == Signaled ==> delivered == old(delivered) + Routed(old(queue), streams, reflector, localSender)
    {
      if wait != Signaled {
        return true;
      }
      ghost var sent: seq<Packet> := [];
      while queue != []
        invariant old(queue) == sent + queue
        invariant delivered == old(delivered) + Routed(sent, streams, reflector, localSender)
        decreases |queue|
      {
        var packet := SendFirst();
        RoutedSnoc(sent, packet, streams, reflector, localSender);
        sent := sent + [packet];
      }
      assert sent == old(queue);
      again := true;
    }

    /** One step of the dispatch loop: the first queued packet is taken off and routed. */
    method SendFirst() returns (packet: Packet)
      requires queue != []
      modifies this`queue, this`delivered
      ensures [packet] + queue == old(queue)
      ensures delivered == old(delivered) + Delivered(packet, streams, reflector, localSender)
    {
      packet := queue[0];
      queue := queue[1..];
      var d := Route(packet, streams, reflector, localSender);
      if d.Some? {
        delivered := delivered + [d.value];
      }
    }

    /** `SetRtt`. */
    method SetRtt(rtt: int)
      modifies this
      ensures rttMs == rtt
      ensures streams == old(streams) && streamCount == old(streamCount) && queue == old(queue)
      ensures delivered == old(delivered) && teardowns == old(teardowns)
    {
      rttMs := rtt;
    }

    /** `AddStream`, with the channels the two engines create: the stream gets SSRC
        `FirstRemoteSsrc + streamCount` (an unsigned 32-bit value), which is also its id. */
    method AddStream(newSender: int, newReceiver: int) returns (ssrc: int)
      modifies this
      ensures ssrc == ToUInt32(FirstRemoteSsrc + old(streamCount))
      ensures streamCount == old(streamCount) + 1
      ensures streams == old(streams)[ssrc := (newSender, newReceiver)]
      ensures queue == old(queue) && delivered == old(delivered) && teardowns == old(teardowns)
      ensures rttMs == old(rttMs)
    {
      ssrc := ToUInt32(FirstRemoteSsrc + streamCount);
      streamCount := streamCount + 1;
      streams := streams[ssrc := (newSender, newReceiver)];
    }

    /** `RemoveStream`: false for an unknown id; otherwise the stream's channels are torn
        down and the stream is erased. */
    method RemoveStream(id: int) returns (removed: bool)
      modifies this
      ensures removed <==> id in old(streams)
      ensures removed ==> streams == old(streams) - {id}
      ensures removed ==> teardowns == old(teardowns) + Teardown(old(streams)[id])
      ensures !removed ==> streams == old(streams) && teardowns == old(teardowns)
      ensures streamCount == old(streamCount) && queue == old(queue) && delivered == old(delivered)
      ensures rttMs == old(rttMs)
    {
      if id !in streams {
        return false;
      }
      teardowns := teardowns + Teardown(streams[id]);
      streams := streams - {id};
      removed := true;
    }

    /** `StartPlayout` and `GetReceiverStatistics`: they act only for a stream with a
        receiving channel. */
    method HasReceiver(id: int) returns (found: bool)
      ensures found <==> ReceiverFor(streams, id) != -1
    {
      var dst := GetReceiverChannelForSsrc(id);
      found := dst != -1;
    }
  }

  /** Streams added one after another get consecutive SSRCs, the first one right after the
      local sender's. */
  lemma AddedStreamsGetConsecutiveSsrcs(count: nat)
    requires FirstRemoteSsrc + count + 1 < UInt32Modulus
    ensures ToUInt32(FirstRemoteSsrc + count + 1) == ToUInt32(FirstRemoteSsrc + count) + 1
    ensures ToUInt32(FirstRemoteSsrc + count) != LocalSsrc && ToUInt32(FirstRemoteSsrc + count) != ReflectorSsrc
  {
  }
}
