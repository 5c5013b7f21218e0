/** The RTCP transceiver: a validated configuration, and periodic compound RTCP reports made
    of one receiver report followed by an SDES block when a CNAME is configured. Two
    revisions exist: one driven by a process thread (`Process` and
    `TimeUntilNextProcess`), one by a task queue on which a periodic task re-posts itself.
    The clock is a parameter, and the transport is the list of packets handed to it. */
module RtcpTransceiver {

  /** `IP_PACKET_SIZE`. */
  const IpPacketSize: nat := 1500
  const MaxCNameLength: nat := 255
  const MinPacketSize: nat := 100

  /** `RtcpTransceiver::Configuration`, with the pointers reduced to whether they are set. */
  datatype Configuration = Configuration(feedbackSsrc: int, cname: string, maxPacketSize: nat,
                                         hasOutgoingTransport: bool, minPeriodicReportMs: int,
                                         hasReceiveStatistics: bool)

  /** The member defaults of `Configuration`. */
  const DefaultConfiguration: Configuration := Configuration(1, "", 1200, false, 1000, false)

  /** `Configuration::Valid`: each check rejects in turn; a zero feedback SSRC and missing
      receive statistics only log a warning. */
  function ConfigValid(c: Configuration): (r: bool)
    ensures r ==> |c.cname| <= MaxCNameLength && MinPacketSize <= c.maxPacketSize <= IpPacketSize
    ensures r ==> c.hasOutgoingTransport && c.minPeriodicReportMs > 0
  {
    if |c.cname| > MaxCNameLength then false
    else if c.maxPacketSize < MinPacketSize then false
    else if c.maxPacketSize > IpPacketSize then false
    else if !c.hasOutgoingTransport then false
    else if c.minPeriodicReportMs <= 0 then false
    else true
  }

  /** The checks `Valid` makes are the only ones: a configuration passing all of them is
      valid. */
  lemma ConfigValidComplete(c: Configuration)
    requires |c.cname| <= MaxCNameLength && MinPacketSize <= c.maxPacketSize <= IpPacketSize
    requires c.hasOutgoingTransport && c.minPeriodicReportMs > 0
    ensures ConfigValid(c)
  {
  }

  /** The warnings do not affect validity. */
  lemma WarningsDoNotInvalidate(c: Configuration)
    ensures ConfigValid(c) == ConfigValid(c.(feedbackSsrc := 0, hasReceiveStatistics := false))
  {
  }

  /** The defaults, once a transport is set, are valid. */
  lemma DefaultWithTransportValid()
    ensures ConfigValid(DefaultConfiguration.(hasOutgoingTransport := true))
  {
  }

  /** The blocks of a compound RTCP packet. */
  datatype Block =
    | ReceiverReport(senderSsrc: int, withReportBlocks: bool)
    | Sdes(ssrc: int, cname: string)

  /** The blocks `SendReport` adds, in order. */
  function ReportBlocks(c: Configuration): (r: seq<Block>)
    ensures |r| >= 1 && r[0] == ReceiverReport(c.feedbackSsrc, c.hasReceiveStatistics)
    ensures |r| == 2 <==> c.cname != ""
    ensures |r| <= 2
    ensures |r| == 2 ==> r[1] == Sdes(c.feedbackSsrc, c.cname)
  {
    var rr := ReceiverReport(c.feedbackSsrc, c.hasReceiveStatistics);
    if c.cname != "" then [rr, Sdes(c.feedbackSsrc, c.cname)] else [rr]
  }

  /** The compound-packet builder: blocks accumulate in the buffer and `Send` hands a
      non-empty buffer to the transport. Every block serialises to at least one byte, so
      `index_ > 0` is a non-empty buffer; splitting on `max_packet_size` is left to the
      block serialiser, which is not part of this model. */
  class PacketSender {
    var buffer: seq<Block>
    var sent: seq<seq<Block>>

    constructor()
      ensures buffer == [] && sent == []
    {
      buffer := [];
      sent := [];
    }

    method AddBlock(block: Block)
      modifies this
      ensures buffer == old(buffer) + [block] && sent == old(sent)
    {
      buffer := buffer + [block];
    }

    method Send()
      modifies this
      ensures buffer == []
      ensures sent == if old(buffer) == [] then old(sent) else old(sent) + [old(buffer)]
    {
      if |buffer| > 0 {
        sent := sent + [buffer];
        buffer := [];
      }
    }
  }

  /** `SendReport`: the packets handed to the transport. */
  method SendReport(c: Configuration) returns (packets: seq<seq<Block>>)
    ensures packets == [ReportBlocks(c)]
  {
    var sender := new PacketSender();
    sender.AddBlock(ReceiverReport(c.feedbackSsrc, c.hasReceiveStatistics));
    if c.cname != "" {
      sender.AddBlock(Sdes(c.feedbackSsrc, c.cname));
    }
    assert sender.buffer == ReportBlocks(c);
    sender.Send();
    packets := sender.sent;
  }

  /** The process-thread revision. */
  class ProcessTransceiver {
    const config: Configuration
    var nextReportMs: int
    var hasProcessThread: bool
    var wakeUps: nat
    var sent: seq<seq<Block>>

    constructor(c: Configuration, nowMs: int)
      requires ConfigValid(c)
      ensures config == c && nextReportMs == nowMs && !hasProcessThread && wakeUps == 0 && sent == []
    {
      config := c;
      nextReportMs := nowMs;
      hasProcessThread := false;
      wakeUps := 0;
      sent := [];
    }

    /** `Process`: a report is sent and the next one is due one period after now. */
    method Process(nowMs: int)
      modifies this
      ensures sent == old(sent) + [ReportBlocks(config)]
      ensures nextReportMs == nowMs + config.minPeriodicReportMs
      ensures hasProcessThread == old(hasProcessThread) && wakeUps == old(wakeUps)
    {
      var packets := SendReport(config);
      sent := sent + packets;
      nextReportMs := nowMs + config.minPeriodicReportMs;
    }

    /** `TimeUntilNextProcess`. */
    method TimeUntilNextProcess(nowMs: int) returns (delayMs: int)
      ensures nowMs + delayMs == nextReportMs
    {
      delayMs := nextReportMs - nowMs;
    }

    /** `ProcessThreadAttached`, with `attached` whether the thread pointer is non-null. */
    method ProcessThreadAttached(attached: bool)
      modifies this
      ensures hasProcessThread == attached
      ensures nextReportMs == old(nextReportMs) && wakeUps == old(wakeUps) && sent == old(sent)
    {
      hasProcessThread := attached;
    }

    /** `ForceSendReport`: the process thread, if any, is woken up. */
    method ForceSendReport()
      modifies this
      ensures wakeUps == if old(hasProcessThread) then old(wakeUps) + 1 else old(wakeUps)
      ensures nextReportMs == old(nextReportMs) && hasProcessThread == old(hasProcessThread) && sent == old(sent)
    {
      if hasProcessThread {
        wakeUps := wakeUps + 1;
      }
    }
  }

  /** Process-thread revision: right after `Process`, the time until the next process is
      one period, so reports are spaced by the configured period. */
  method ProcessThenWait(t: ProcessTransceiver, nowMs: int) returns (delayMs: int)
    requires ConfigValid(t.config)
    modifies t
    ensures delayMs == t.config.minPeriodicReportMs && delayMs > 0
  {
    t.Process(nowMs);
    delayMs := t.TimeUntilNextProcess(nowMs);
  }

  /** The task-queue revision's periodic task, run at the times `nowsMs`: the due time
      after the runs, and the delay each run re-posts itself with. */
  function PeriodicRuns(nextRunMs: int, periodMs: int, nowsMs: seq<int>): (r: (int, seq<int>))
    ensures |r.1| == |nowsMs|
    decreases |nowsMs|
  {
    if nowsMs == [] then (nextRunMs, [])
    else
      var next := nextRunMs + periodMs;
      var rest := PeriodicRuns(next, periodMs, nowsMs[1..]);
      (rest.0, [next - nowsMs[0]] + rest.1)
  }

  /** `k` periods after `start`. */
  function Periods(startMs: int, periodMs: int, k: nat): (r: int)
    ensures r == startMs + k * periodMs
  {
    if k == 0 then startMs else Periods(startMs, periodMs, k - 1) + periodMs
  }

  /** The due time advances by exactly one period per run, whenever the runs happen: a late
      run does not push later runs back. */
  lemma {:induction false} PeriodicRunsIgnoreLateness(nextRunMs: int, periodMs: int, nowsMs: seq<int>)
    ensures var r := PeriodicRuns(nextRunMs, periodMs, nowsMs);
      && r.0 == Periods(nextRunMs, periodMs, |nowsMs|)
      && forall i :: 0 <= i < |nowsMs| ==> r.1[i] == Periods(nextRunMs, periodMs, i + 1) - nowsMs[i]
    decreases |nowsMs|
  {
    if nowsMs != [] {
      var r := PeriodicRuns(nextRunMs, periodMs, nowsMs);
      var rest := PeriodicRuns(nextRunMs + periodMs, periodMs, nowsMs[1..]);
      PeriodicRunsIgnoreLateness(nextRunMs + periodMs, periodMs, nowsMs[1..]);
      PeriodsShift(nextRunMs, periodMs, |nowsMs| - 1);
      forall i | 0 <= i < |nowsMs|
        ensures r.1[i] == Periods(nextRunMs, periodMs, i + 1) - nowsMs[i]
      {
        if i == 0 {
          assert Periods(nextRunMs, periodMs, 1) == nextRunMs + periodMs;
        } else {
          assert r.1[i] == rest.1[i - 1];
          PeriodsShift(nextRunMs, periodMs, i);
        }
      }
    }
  }

  lemma {:induction false} PeriodsShift(startMs: int, periodMs: int, k: nat)
    ensures Periods(startMs + periodMs, periodMs, k) == Periods(startMs, periodMs, k + 1)
  {
    if k > 0 {
      PeriodsShift(startMs, periodMs, k - 1);
    }
  }

  /** The task-queue revision's `PeriodicReport` task. It is only created by a transceiver,
      whose constructor checks the configuration. */
  class PeriodicReport {
    const config: Configuration
    var nextRunMs: int
    var sent: seq<seq<Block>>

    constructor(c: Configuration, nowMs: int)
      requires ConfigValid(c)
      ensures config == c && nextRunMs == nowMs && sent == []
    {
      config := c;
      nextRunMs := nowMs;
      sent := [];
    }

    /** `Run`: a report is sent and the task re-posts itself with the returned delay. */
    method Run(nowMs: int) returns (untilNextRunMs: int)
      requires ConfigValid(config)
      modifies this
      ensures sent == old(sent) + [ReportBlocks(config)]
      ensures nextRunMs == old(nextRunMs) + config.minPeriodicReportMs > old(nextRunMs)
      ensures (nextRunMs, [untilNextRunMs]) == PeriodicRuns(old(nextRunMs), config.minPeriodicReportMs, [nowMs])
    {
      var packets := SendReport(config);
      sent := sent + packets;
      nextRunMs := nextRunMs + config.minPeriodicReportMs;
      untilNextRunMs := nextRunMs - nowMs;
      assert [nowMs][1..] == [];
      assert PeriodicRuns(nextRunMs, config.minPeriodicReportMs, []) == (nextRunMs, []);
      assert [untilNextRunMs] + [] == [untilNextRunMs];
    }
  }
}
