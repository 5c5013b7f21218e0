/** The packet senders of the bandwidth estimation test framework: the extraction of a
    flow's feedback from the packet list, the TCP-like sender's congestion window, loss
    detection and packet generation, and the paced sender's next process time. The
    congestion window, a `float` in the source, is a real; packet lists ordered by send
    time are sequences, and `std::list::merge` is a pure merge. */
module PacketSender {
  import opened Common

  const SequenceModulus: int := 0x1_0000
  /** The payload size of a generated TCP packet. */
  const TcpPayloadSize: int := 1200

  /** A media packet, or a TCP feedback packet with the sequence numbers it acknowledges. */
  datatype Packet =
    | Media(flowId: int, sendTimeUs: int, payloadSize: int, sequenceNumber: int)
    | Feedback(flowId: int, sendTimeUs: int, ackedPackets: seq<int>)

  /** `Packets` are kept in send-time order. */
  predicate Sorted(ps: seq<Packet>)
  {
    forall i, j :: 0 <= i < j < |ps| ==> ps[i].sendTimeUs <= ps[j].sendTimeUs
  }

  /** `std::list::merge` with the send-time comparator: stable, and on equal times the
      elements of the receiving list come first. */
  function Merge(a: seq<Packet>, b: seq<Packet>): (r: seq<Packet>)
    ensures multiset(r) == multiset(a) + multiset(b)
    ensures |r| == |a| + |b|
    decreases |a| + |b|
  {
    if a == [] then b
    else if b == [] then a
    else if b[0].sendTimeUs < a[0].sendTimeUs then
      assert b == [b[0]] + b[1..];
      [b[0]] + Merge(a, b[1..])
    else
      assert a == [a[0]] + a[1..];
      [a[0]] + Merge(a[1..], b)
  }

  /** A bound below every element of both lists bounds the merge. */
  lemma {:induction false} MergeLowerBound(a: seq<Packet>, b: seq<Packet>, t: int)
    requires forall k :: 0 <= k < |a| ==> t <= a[k].sendTimeUs
    requires forall k :: 0 <= k < |b| ==> t <= b[k].sendTimeUs
    ensures forall k :: 0 <= k < |Merge(a, b)| ==> t <= Merge(a, b)[k].sendTimeUs
    decreases |a| + |b|
  {
    if a != [] && b != [] {
      if b[0].sendTimeUs < a[0].sendTimeUs {
        MergeLowerBound(a, b[1..], t);
      } else {
        MergeLowerBound(a[1..], b, t);
      }
    }
  }

  /** Merging two ordered lists gives an ordered list. */
  lemma {:induction false} MergeSorted(a: seq<Packet>, b: seq<Packet>)
    requires Sorted(a) && Sorted(b)
    ensures Sorted(Merge(a, b))
    decreases |a| + |b|
  {
    if a != [] && b != [] {
      if b[0].sendTimeUs < a[0].sendTimeUs {
        MergeSorted(a, b[1..]);
        MergeLowerBound(a, b[1..], b[0].sendTimeUs);
      } else {
        MergeSorted(a[1..], b);
        MergeLowerBound(a[1..], b, a[0].sendTimeUs);
      }
    }
  }

  /** A feedback packet of the flow. */
  predicate IsFlowFeedback(p: Packet, flowId: int)
  {
    p.Feedback? && p.flowId == flowId
  }

  /** `GetFeedbackPackets`: walking the list up to the first packet sent after the end
      time, the flow's feedback packets are taken out in order; everything else stays, in
      order. */
  function SplitFeedback(ps: seq<Packet>, endTimeMs: int, flowId: int): (r: (seq<Packet>, seq<Packet>))
    ensures |r.0| + |r.1| == |ps|
    decreases |ps|
  {
    if ps == [] then ([], [])
    else if ps[0].sendTimeUs > 1000 * endTimeMs then ([], ps)
    else
      var rest := SplitFeedback(ps[1..], endTimeMs, flowId);
      if IsFlowFeedback(ps[0], flowId) then ([ps[0]] + rest.0, rest.1)
      else (rest.0, [ps[0]] + rest.1)
  }

  /** The split loses and invents nothing, and what it takes are the flow's feedback
      packets sent by the end time. */
  lemma {:induction false} SplitFeedbackParts(ps: seq<Packet>, endTimeMs: int, flowId: int)
    ensures multiset(SplitFeedback(ps, endTimeMs, flowId).0) + multiset(SplitFeedback(ps, endTimeMs, flowId).1)
         == multiset(ps)
    ensures forall p :: p in SplitFeedback(ps, endTimeMs, flowId).0 ==>
      IsFlowFeedback(p, flowId) && p.sendTimeUs <= 1000 * endTimeMs
    decreases |ps|
  {
    if ps != [] && ps[0].sendTimeUs <= 1000 * endTimeMs {
      SplitFeedbackParts(ps[1..], endTimeMs, flowId);
      assert ps == [ps[0]] + ps[1..];
    }
  }

  /** In an ordered list every one of the flow's feedback packets sent by the end time is
      taken, and what remains holds none of them. */
  lemma {:induction false} SplitFeedbackTakesAll(ps: seq<Packet>, endTimeMs: int, flowId: int)
    requires Sorted(ps)
    ensures forall p :: p in SplitFeedback(ps, endTimeMs, flowId).1 ==>
      !(IsFlowFeedback(p, flowId) && p.sendTimeUs <= 1000 * endTimeMs)
    decreases |ps|
  {
    if ps != [] && ps[0].sendTimeUs <= 1000 * endTimeMs {
      SplitFeedbackTakesAll(ps[1..], endTimeMs, flowId);
    } else if ps != [] {
      forall p | p in ps ensures p.sendTimeUs > 1000 * endTimeMs {
        var i :| 0 <= i < |ps| && ps[i] == p;
      }
    }
  }

  /** One step of the walk. */
  lemma SplitFeedbackStep(ps: seq<Packet>, endTimeMs: int, flowId: int)
    requires ps != [] && ps[0].sendTimeUs <= 1000 * endTimeMs
    ensures IsFlowFeedback(ps[0], flowId) ==>
      SplitFeedback(ps, endTimeMs, flowId).0 == [ps[0]] + SplitFeedback(ps[1..], endTimeMs, flowId).0
      && SplitFeedback(ps, endTimeMs, flowId).1 == SplitFeedback(ps[1..], endTimeMs, flowId).1
    ensures !IsFlowFeedback(ps[0], flowId) ==>
      SplitFeedback(ps, endTimeMs, flowId).0 == SplitFeedback(ps[1..], endTimeMs, flowId).0
      && SplitFeedback(ps, endTimeMs, flowId).1 == [ps[0]] + SplitFeedback(ps[1..], endTimeMs, flowId).1
  {
  }

  /** The same walk, erasing from the list as it goes. */
  method GetFeedbackPackets(inOut: seq<Packet>, endTimeMs: int, flowId: int) returns (feedbacks: seq<Packet>, rest: seq<Packet>)
    ensures feedbacks == SplitFeedback(inOut, endTimeMs, flowId).0
    ensures rest == SplitFeedback(inOut, endTimeMs, flowId).1
  {
    feedbacks := [];
    var kept: seq<Packet> := [];
    var i := 0;
    assert inOut[0..] == inOut;
    while i < |inOut| && inOut[i].sendTimeUs <= 1000 * endTimeMs
      invariant 0 <= i <= |inOut|
      invariant SplitFeedback(inOut, endTimeMs, flowId).0 == feedbacks + SplitFeedback(inOut[i..], endTimeMs, flowId).0
      invariant SplitFeedback(inOut, endTimeMs, flowId).1 == kept + SplitFeedback(inOut[i..], endTimeMs, flowId).1
    {
      SplitFeedbackStep(inOut[i..], endTimeMs, flowId);
      assert inOut[i..][1..] == inOut[i + 1..];
      ghost var here := SplitFeedback(inOut[i..], endTimeMs, flowId);
      ghost var next := SplitFeedback(inOut[i + 1..], endTimeMs, flowId);
      if IsFlowFeedback(inOut[i], flowId) {
        assert feedbacks + here.0 == (feedbacks + [inOut[i]]) + next.0;
        feedbacks := feedbacks + [inOut[i]];
      } else {
        assert kept + here.1 == (kept + [inOut[i]]) + next.1;
        kept := kept + [inOut[i]];
      }
      i := i + 1;
    }
    if i < |inOut| {
      assert SplitFeedback(inOut[i..], endTimeMs, flowId) == ([], inOut[i..]);
    } else {
      assert inOut[i..] == [];
    }
    rest := kept + inOut[i..];
  }

  /** The number of sequence numbers in `(lo, hi]` missing from the acknowledgements. */
  function MissingCount(lo: int, hi: int, acked: seq<int>): (n: nat)
    ensures n <= Max(hi - lo, 0)
    decreases hi - lo
  {
    if hi <= lo then 0
    else MissingCount(lo, hi - 1, acked) + (if hi in acked then 0 else 1)
  }

  /** There is a loss exactly when some sequence number in the range is not acknowledged. */
  lemma {:induction false} MissingCountPositive(lo: int, hi: int, acked: seq<int>)
    ensures MissingCount(lo, hi, acked) > 0 <==> (exists i :: lo < i <= hi && i !in acked)
    decreases hi - lo
  {
    if hi > lo {
      MissingCountPositive(lo, hi - 1, acked);
      if MissingCount(lo, hi, acked) == 0 {
        assert forall i :: lo < i <= hi ==> i in acked by {
          forall i | lo < i <= hi ensures i in acked {
            if i < hi {
              assert !(exists j :: lo < j <= hi - 1 && j !in acked);
            }
          }
        }
      }
    }
  }

  /** `IsNewerSequenceNumber` of 16-bit sequence numbers: newer by less than half the
      sequence space. */
  predicate IsNewerSequenceNumber(a: int, b: int)
  {
    a != b && (a - b) % SequenceModulus < 0x8000
  }

  /** `LatestSequenceNumber`: the newer of the two. */
  function LatestSequenceNumber(a: int, b: int): (r: int)
    ensures r == a || r == b
    ensures r == a <==> IsNewerSequenceNumber(a, b) || a == b
  {
    if IsNewerSequenceNumber(a, b) then a else b
  }

  /** `std::ceil` followed by the conversion to `int`. */
  function Ceil(x: real): (r: int)
    ensures x <= r as real < x + 1.0
  {
    -((-x).Floor)
  }

  /** The `count` media packets of `flow` that `GeneratePackets` makes at send time
      `sendTimeUs`: consecutive 16-bit sequence numbers from `first`, all stamped alike. */
  function Generated(flow: int, sendTimeUs: int, first: int, count: nat): (r: seq<Packet>)
    ensures |r| == count && Sorted(r)
    ensures forall i :: 0 <= i < count ==>
      r[i] == Media(flow, sendTimeUs, TcpPayloadSize, (first + i) % SequenceModulus)
  {
    seq(count, i requires 0 <= i < count => Media(flow, sendTimeUs, TcpPayloadSize, (first + i) % SequenceModulus))
  }

  /** `TcpSender`. */
  class TcpSender {
    const flowId: int
    var cwnd: real
    var inFlight: int
    var ackReceived: bool
    var lastAckedSeqNum: int
    var nextSequenceNumber: int
    var inSlowStart: bool
    var nowMs: int

    ghost predicate Valid()
      reads this
    {
      cwnd > 0.0 && 0 <= lastAckedSeqNum < SequenceModulus && 0 <= nextSequenceNumber < SequenceModulus
    }

    /** A sender in slow start with a window of ten packets, nothing in flight and sequence
        numbers from zero. */
    constructor(flow: int)
      ensures Valid() && flowId == flow
      ensures cwnd == 10.0 && inFlight == 0 && !ackReceived && lastAckedSeqNum == 0
      ensures nextSequenceNumber == 0 && inSlowStart && nowMs == 0
    {
      flowId := flow;
      cwnd := 10.0;
      inFlight := 0;
      ackReceived := false;
      lastAckedSeqNum := 0;
      nextSequenceNumber := 0;
      inSlowStart := true;
      nowMs := 0;
    }

    /** `GeneratePackets`: `count` media packets stamped with the current time, with
        consecutive 16-bit sequence numbers from the next one. */
    method GeneratePackets(count: nat) returns (generated: seq<Packet>)
      requires Valid()
      modifies this`nextSequenceNumber
      ensures Valid()
      ensures generated == Generated(flowId, 1000 * nowMs, old(nextSequenceNumber), count)
      ensures nextSequenceNumber == (old(nextSequenceNumber) + count) % SequenceModulus
      ensures cwnd == old(cwnd) && inFlight == old(inFlight) && ackReceived == old(ackReceived)
      ensures lastAckedSeqNum == old(lastAckedSeqNum) && inSlowStart == old(inSlowStart) && nowMs == old(nowMs)
    {
      generated := [];
      for i := 0 to count
        invariant Valid() && |generated| == i
        invariant forall k :: 0 <= k < i ==>
          generated[k] == Media(flowId, 1000 * nowMs, TcpPayloadSize, (old(nextSequenceNumber) + k) % SequenceModulus)
        invariant nextSequenceNumber == (old(nextSequenceNumber) + i) % SequenceModulus
        invariant cwnd == old(cwnd) && inFlight == old(inFlight) && ackReceived == old(ackReceived)
        invariant lastAckedSeqNum == old(lastAckedSeqNum) && inSlowStart == old(inSlowStart) && nowMs == old(nowMs)
      {
        generated := generated + [Media(flowId, 1000 * nowMs, TcpPayloadSize, nextSequenceNumber)];
        nextSequenceNumber := (nextSequenceNumber + 1) % SequenceModulus;
      }
    }

    /** The packets `SendPackets` may add: the window, rounded up, less what is in
        flight, and never negative. */
    function PacketsToSend(): (n: nat)
      reads this
      ensures n == Max(Ceil(cwnd) - inFlight, 0)
    {
      if Ceil(cwnd) - inFlight > 0 then Ceil(cwnd) - inFlight else 0
    }

    /** `SendPackets`: tops the packets in flight up to the window and merges the new
        packets into the list. */
    method SendPackets(inOut: seq<Packet>) returns (out: seq<Packet>)
      requires Valid()
      modifies this`inFlight, this`nextSequenceNumber
      ensures Valid()
      ensures inFlight == old(inFlight) + old(PacketsToSend())
      ensures old(PacketsToSend()) > 0 ==> inFlight >= Ceil(cwnd)
      ensures |out| == |inOut| + old(PacketsToSend())
      ensures old(PacketsToSend()) == 0 ==> out == inOut
      ensures old(PacketsToSend()) > 0 ==>
        out == Merge(inOut, Generated(flowId, 1000 * nowMs, old(nextSequenceNumber), old(PacketsToSend())))
      ensures multiset(out) == multiset(inOut)
                               + multiset(Generated(flowId, 1000 * nowMs, old(nextSequenceNumber), old(PacketsToSend())))
      ensures Sorted(inOut) ==> Sorted(out)
      ensures nextSequenceNumber == (old(nextSequenceNumber) + old(PacketsToSend())) % SequenceModulus
      ensures cwnd == old(cwnd) && ackReceived == old(ackReceived) && lastAckedSeqNum == old(lastAckedSeqNum)
      ensures inSlowStart == old(inSlowStart) && nowMs == old(nowMs)
    {
      var window := Ceil(cwnd);
      var packetsToSend := Max(window - inFlight, 0);
      assert packetsToSend == PacketsToSend();
      ghost var toSend := Generated(flowId, 1000 * nowMs, nextSequenceNumber, packetsToSend);
      out := inOut;
      if packetsToSend > 0 {
        var generated := GeneratePackets(packetsToSend);
        assert generated == toSend;
        inFlight := inFlight + |generated|;
        out := Merge(inOut, generated);
        if Sorted(inOut) {
          MergeSorted(inOut, generated);
        }
      } else {
        assert toSend == [];
      }
    }

    /** `LossEvent`: the sequence numbers after the last acknowledged one, up to the last
        one acknowledged now, that are missing are taken off the packets in flight. */
    method LossEvent(acked: seq<int>) returns (loss: bool)
      requires acked != []
      modifies this
      ensures inFlight == old(inFlight) - MissingCount(lastAckedSeqNum, acked[|acked| - 1], acked)
      ensures loss <==> MissingCount(lastAckedSeqNum, acked[|acked| - 1], acked) > 0
      ensures cwnd == old(cwnd) && ackReceived == old(ackReceived) && lastAckedSeqNum == old(lastAckedSeqNum)
      ensures nextSequenceNumber == old(nextSequenceNumber) && inSlowStart == old(inSlowStart) && nowMs == old(nowMs)
    {
      var missing := 0;
      var last := acked[|acked| - 1];
      var i := lastAckedSeqNum + 1;
      while i <= last
        invariant lastAckedSeqNum + 1 <= i <= Max(last + 1, lastAckedSeqNum + 1)
        invariant missing == MissingCount(lastAckedSeqNum, i - 1, acked)
        decreases last - i
      {
        if i !in acked {
          missing := missing + 1;
        }
        i := i + 1;
      }
      inFlight := inFlight - missing;
      loss := missing > 0;
    }

    /** `UpdateCongestionControl`: the acknowledged packets leave the flight; a loss halves
        the window and ends slow start; otherwise slow start grows the window by the
        packets acknowledged and congestion avoidance by one packet per window. */
    method UpdateCongestionControl(acked: seq<int>)
      requires Valid() && acked != []
      requires forall k :: 0 <= k < |acked| ==> 0 <= acked[k] < SequenceModulus
      modifies this
      ensures Valid() && ackReceived
      ensures var missing := MissingCount(old(lastAckedSeqNum), acked[|acked| - 1], acked);
        inFlight == old(inFlight) - |acked| - missing
        && (missing > 0 ==> cwnd == old(cwnd) / 2.0 && !inSlowStart)
        && (missing == 0 && old(inSlowStart) ==> cwnd == old(cwnd) + |acked| as real && inSlowStart)
        && (missing == 0 && !old(inSlowStart) ==> cwnd == old(cwnd) + 1.0 / old(cwnd) && !inSlowStart)
      ensures lastAckedSeqNum == LatestSequenceNumber(acked[|acked| - 1], old(lastAckedSeqNum))
      ensures nextSequenceNumber == old(nextSequenceNumber) && nowMs == old(nowMs)
    {
      ackReceived := true;
      inFlight := inFlight - |acked|;
      var loss := LossEvent(acked);
      if loss {
        cwnd := cwnd / 2.0;
        inSlowStart := false;
      } else if inSlowStart {
        cwnd := cwnd + |acked| as real;
      } else {
        cwnd := cwnd + 1.0 / cwnd;
      }
      lastAckedSeqNum := LatestSequenceNumber(acked[|acked| - 1], lastAckedSeqNum);
    }
  }

  /** The window never shrinks without a loss, and a loss halves it. */
  lemma WindowChange(cwnd: real, ackedCount: nat, missing: nat, slowStart: bool)
    requires cwnd > 0.0
    ensures missing > 0 ==> cwnd / 2.0 < cwnd
    ensures missing == 0 && slowStart ==> cwnd + ackedCount as real >= cwnd
    ensures missing == 0 && !slowStart ==> cwnd + 1.0 / cwnd > cwnd
  {
  }

  /** `PacedVideoSender::TimeUntilNextProcess` over the modules' own times: the smallest,
      at most 10 ms and never negative. */
  function NextProcessTime(times: seq<int>): (r: int)
    ensures 0 <= r <= 10
    ensures forall k :: 0 <= k < |times| ==> r <= Max(times[k], 0)
    ensures r == 10 || r == 0 || r in times
    decreases |times|
  {
    if times == [] then 10
    else
      var rest := NextProcessTime(times[..|times| - 1]);
      var t := times[|times| - 1];
      if t < rest then Max(t, 0) else rest
  }

  /** The loop of `TimeUntilNextProcess`. */
  method TimeUntilNextProcess(times: seq<int>) returns (next: int)
    ensures next == NextProcessTime(times)
  {
    next := 10;
    var m := 10;
    for i := 0 to |times|
      invariant next == m
      invariant Max(m, 0) == NextProcessTime(times[..i])
      invariant m <= 10
    {
      assert times[..i + 1][..i] == times[..i];
      if times[i] < m {
        m := times[i];
      }
      next := m;
    }
    assert times[..|times|] == times;
    if m < 0 {
      m := 0;
    }
    next := m;
  }
}
