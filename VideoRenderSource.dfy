// The Media Foundation stream behind the WinRT video renderer
// (video_render_source_winrt.cc, `VideoRenderMediaStreamWinRT`): its
// start/stop/shutdown state machine, the queues of pending samples and of
// the renderer's sample requests, the delivery loop that pairs them, and
// the drop logic (late-sample drop mode, the time window to skip, clean
// points).
module VideoRenderSource {
  import opened Common

  datatype SourceState = SourceInvalid | SourceStarting | SourceStarted | SourceStopped | SourceShutdown

  /** The HRESULTs the stream returns or reports. */
  datatype Status = Ok | ErrShutdown | ErrInvalidStateTransition | ErrInvalidRequest
                  | ErrUnexpected | ErrNoMoreDropModes | ErrInvalidArg

  /** `MF_QUALITY_DROP_MODE`: NONE is 0, MODE_1 is 1, MODE_2 is 2. */
  const DropModeNone: int := 0
  const DropMode1: int := 1
  const DropMode2: int := 2

  /** Sample lag, in 100 ns units, above which the stream enters drop mode 1. */
  const EnterDropModeLag: int := 30000000

  /** A media sample: its time stamp and whether it is a clean point. */
  datatype Sample = Sample(time: int, cleanPoint: bool)

  /** An entry of the sample queue: a sample or a media type. */
  datatype Entry = SampleEntry(sample: Sample) | FormatEntry(format: int)

  /** The events the stream queues for its client. */
  datatype Event =
    | StreamStarted
    | StreamStopped
    | MediaSample(sample: Sample, token: Option<int>, discontinuity: bool)
    | FormatChanged(format: int)
    | Error(status: Status)

  /** The drop state: mode, the time window to drop and the clean-point wait. */
  datatype DropState = DropState(
    mode: int,
    dropTime: bool,
    initDropTime: bool,
    waitingForCleanPoint: bool,
    startDroppingAt: int,
    amountToDrop: int)

  /** `ResetDropTime`: no window, and wait for the next clean point. */
  function ResetDropTime(d: DropState): (r: DropState)
    ensures !r.dropTime && !r.initDropTime && r.waitingForCleanPoint
    ensures r.startDroppingAt == 0 && r.amountToDrop == 0 && r.mode == d.mode
  {
    d.(dropTime := false, initDropTime := false, startDroppingAt := 0, amountToDrop := 0,
       waitingForCleanPoint := true)
  }

  /**
   * `ShouldDropSample`: whether `s` is dropped, and the drop state after
   * looking at it.
   */
  function ShouldDrop(d: DropState, rate: real, s: Sample): (r: (bool, DropState))
    ensures r.1.mode == d.mode
    ensures !d.dropTime ==> r.1 == d || r.1 == d.(waitingForCleanPoint := false)
  {
    var drop0 := rate != 1.0 && !s.cleanPoint;
    var (drop1, d1) :=
      if !drop0 && d.dropTime then
        var d0 := if d.initDropTime then d.(startDroppingAt := s.time, initDropTime := false) else d;
        var inWindow := s.time < d0.startDroppingAt + d0.amountToDrop;
        if inWindow then (true, d0) else (false, ResetDropTime(d0))
      else (drop0, d);
    if !drop1 && (d1.mode == DropMode1 || d1.waitingForCleanPoint) then
      (!s.cleanPoint, if s.cleanPoint then d1.(waitingForCleanPoint := false) else d1)
    else (drop1, d1)
  }

  /** Off normal rate, a sample that is not a clean point is always dropped. */
  lemma OffRateDropsNonCleanPoints(d: DropState, rate: real, s: Sample)
    requires rate != 1.0 && !s.cleanPoint
    ensures ShouldDrop(d, rate, s).0 && ShouldDrop(d, rate, s).1 == d
  {
  }

  /**
   * In drop mode 1, or while waiting for a clean point, only clean points
   * pass, and a clean point that passes ends the wait.
   */
  lemma DropModeKeepsOnlyCleanPoints(d: DropState, rate: real, s: Sample)
    ensures var (drop, d') := ShouldDrop(d, rate, s);
      && ((d.mode == DropMode1 || d.waitingForCleanPoint) && !s.cleanPoint ==> drop)
      && (!drop && s.cleanPoint ==> !d'.waitingForCleanPoint)
      && (!drop && !s.cleanPoint ==> rate == 1.0 && d'.mode != DropMode1 && !d'.waitingForCleanPoint)
  {
  }

  /**
   * The drop window: the first sample seen after it is armed fixes its
   * start and is itself dropped; later samples are dropped while they are
   * before start + amount; the first one past it closes the window.
   */
  lemma DropWindow(d: DropState, rate: real, s: Sample)
    requires d.dropTime && !(rate != 1.0 && !s.cleanPoint)
    ensures var (drop, d') := ShouldDrop(d, rate, s);
      var start := if d.initDropTime then s.time else d.startDroppingAt;
      && (s.time < start + d.amountToDrop ==> drop && d'.dropTime && d'.startDroppingAt == start && !d'.initDropTime)
      && (s.time >= start + d.amountToDrop ==> !d'.dropTime && d'.amountToDrop == 0)
      && (d.initDropTime && d.amountToDrop > 0 ==> drop)
  {
  }

  /**
   * The samples the stream produces itself are all clean points, so only
   * the time window can drop them.
   */
  lemma CleanPointsDropOnlyInWindow(d: DropState, rate: real, s: Sample)
    requires s.cleanPoint
    ensures var start := if d.initDropTime then s.time else d.startDroppingAt;
      ShouldDrop(d, rate, s).0 <==> d.dropTime && s.time < start + d.amountToDrop
  {
  }

  /** The part of the stream's state the delivery loop touches. */
  datatype Queues = Queues(
    samples: seq<Entry>,
    tokens: seq<Option<int>>,
    discontinuity: bool,
    drop: DropState,
    events: seq<Event>)

  /** One turn of `DeliverSamples`, on non-empty queues. */
  function DeliverOne(q: Queues, rate: real): (r: Queues)
    requires q.samples != [] && q.tokens != []
    ensures |r.samples| == |q.samples| - 1
  {
    var rest := q.samples[1..];
    match q.samples[0]
    case SampleEntry(s) =>
      var (drop, d) := ShouldDrop(q.drop, rate, s);
      if drop then q.(samples := rest, discontinuity := true, drop := d)
      else q.(samples := rest, tokens := q.tokens[1..], discontinuity := false, drop := d,
              events := q.events + [MediaSample(s, q.tokens[0], q.discontinuity)])
    case FormatEntry(f) =>
      q.(samples := rest, events := q.events + [FormatChanged(f)])
  }

  /** `DeliverSamples`: turns until the sample or the token queue is empty. */
  function Deliver(q: Queues, rate: real): (r: Queues)
    ensures r.drop.mode == q.drop.mode && |r.samples| <= |q.samples| && |r.tokens| <= |q.tokens|
    decreases |q.samples|
  {
    if q.samples == [] || q.tokens == [] then q
    else Deliver(DeliverOne(q, rate), rate)
  }

  /** Each turn takes the front entry; a dropped sample takes no token and marks a discontinuity, a delivered one takes the front token and clears it. */
  lemma DeliverOneStep(q: Queues, rate: real)
    requires q.samples != [] && q.tokens != []
    ensures var r := DeliverOne(q, rate);
      && r.samples == q.samples[1..]
      && (q.samples[0].SampleEntry? && ShouldDrop(q.drop, rate, q.samples[0].sample).0 ==>
            r.tokens == q.tokens && r.discontinuity && r.events == q.events)
      && (q.samples[0].SampleEntry? && !ShouldDrop(q.drop, rate, q.samples[0].sample).0 ==>
            && r.tokens == q.tokens[1..] && !r.discontinuity
            && r.events == q.events + [MediaSample(q.samples[0].sample, q.tokens[0], q.discontinuity)])
      && (q.samples[0].FormatEntry? ==> r.tokens == q.tokens && r.discontinuity == q.discontinuity)
  {
  }

  /** The events one turn adds: none for a dropped sample, otherwise one. */
  function TurnEvents(q: Queues, rate: real): (r: seq<Event>)
    requires q.samples != [] && q.tokens != []
    ensures |r| <= 1
  {
    match q.samples[0]
    case SampleEntry(s) =>
      if ShouldDrop(q.drop, rate, s).0 then [] else [MediaSample(s, q.tokens[0], q.discontinuity)]
    case FormatEntry(f) => [FormatChanged(f)]
  }

  /** The tokens carried by the sample events of `events`, in order. */
  function DeliveredTokens(events: seq<Event>): (r: seq<Option<int>>)
    ensures |r| <= |events|
  {
    if events == [] then []
    else (if events[0].MediaSample? then [events[0].token] else []) + DeliveredTokens(events[1..])
  }

  /** A turn appends its events, and a sample event carries the token the turn consumed. */
  lemma DeliverOneEvents(q: Queues, rate: real)
    requires q.samples != [] && q.tokens != []
    ensures var r := DeliverOne(q, rate);
      && r.events == q.events + TurnEvents(q, rate)
      && DeliveredTokens(TurnEvents(q, rate)) + r.tokens == q.tokens
  {
    var e := TurnEvents(q, rate);
    if e != [] {
      assert e[1..] == [];
    }
    if e != [] && e[0].MediaSample? {
      assert [q.tokens[0]] + q.tokens[1..] == q.tokens;
    }
  }

  lemma {:induction false} DeliveredTokensConcat(a: seq<Event>, b: seq<Event>)
    ensures DeliveredTokens(a + b) == DeliveredTokens(a) + DeliveredTokens(b)
    decreases |a|
  {
    if a == [] {
      assert a + b == b;
    } else {
      assert (a + b)[0] == a[0];
      assert (a + b)[1..] == a[1..] + b;
      DeliveredTokensConcat(a[1..], b);
    }
  }

  /** Delivery stops only when one of the queues is empty. */
  lemma {:induction false} DeliverEmptiesAQueue(q: Queues, rate: real)
    ensures Deliver(q, rate).samples == [] || Deliver(q, rate).tokens == []
    decreases |q.samples|
  {
    if q.samples != [] && q.tokens != [] {
      DeliverEmptiesAQueue(DeliverOne(q, rate), rate);
    }
  }

  /** Delivery keeps the earlier events. */
  lemma {:induction false} DeliverKeepsEvents(q: Queues, rate: real)
    ensures var r := Deliver(q, rate);
      |r.events| >= |q.events| && r.events[..|q.events|] == q.events
    decreases |q.samples|
  {
    if q.samples != [] && q.tokens != [] {
      var q1 := DeliverOne(q, rate);
      DeliverKeepsEvents(q1, rate);
      DeliverOneEvents(q, rate);
      assert Deliver(q, rate) == Deliver(q1, rate);
      PrefixOfExtension(q.events, TurnEvents(q, rate), Deliver(q1, rate).events);
    }
  }

  /** Delivery leaves a suffix of the token queue. */
  lemma DeliverLeavesTokenSuffix(q: Queues, rate: real)
    ensures var r := Deliver(q, rate);
      |r.tokens| <= |q.tokens| && r.tokens == q.tokens[|q.tokens| - |r.tokens|..]
  {
    DeliverPairsTokens(q, rate);
    var r := Deliver(q, rate);
    SuffixOfConcat(DeliveredTokens(r.events[|q.events|..]), r.tokens, q.tokens);
  }

  /** Delivery leaves a suffix of the sample queue. */
  lemma {:induction false} DeliverLeavesSampleSuffix(q: Queues, rate: real)
    ensures var r := Deliver(q, rate);
      |r.samples| <= |q.samples| && r.samples == q.samples[|q.samples| - |r.samples|..]
    decreases |q.samples|
  {
    if q.samples != [] && q.tokens != [] {
      var q1 := DeliverOne(q, rate);
      DeliverLeavesSampleSuffix(q1, rate);
      DeliverOneStep(q, rate);
      var r := Deliver(q1, rate);
      assert Deliver(q, rate) == r;
      SliceOfSlice(q.samples, 1, |q1.samples| - |r.samples|);
    }
  }

  /**
   * The sample events delivery adds carry the consumed tokens in request
   * order: those tokens followed by the ones left are the original queue.
   */
  lemma {:induction false} DeliverPairsTokens(q: Queues, rate: real)
    ensures var r := Deliver(q, rate);
      |r.events| >= |q.events| && DeliveredTokens(r.events[|q.events|..]) + r.tokens == q.tokens
    decreases |q.samples|
  {
    if q.samples == [] || q.tokens == [] {
      assert q.events[|q.events|..] == [];
    } else {
      var q1 := DeliverOne(q, rate);
      DeliverPairsTokens(q1, rate);
      DeliverKeepsEvents(q1, rate);
      DeliverOneEvents(q, rate);
      var r := Deliver(q1, rate);
      assert Deliver(q, rate) == r;
      ComposeTurn(q.events, TurnEvents(q, rate), q1.events, r.events, q.tokens, q1.tokens, r.tokens);
    }
  }

  /** A turn followed by the rest of the delivery, on the events and tokens alone. */
  lemma ComposeTurn(qe: seq<Event>, e: seq<Event>, q1e: seq<Event>, re: seq<Event>,
                    qt: seq<Option<int>>, q1t: seq<Option<int>>, rt: seq<Option<int>>)
    requires q1e == qe + e && |re| >= |q1e| && re[..|q1e|] == q1e
    requires DeliveredTokens(e) + q1t == qt && DeliveredTokens(re[|q1e|..]) + rt == q1t
    ensures |re| >= |qe| && DeliveredTokens(re[|qe|..]) + rt == qt
  {
    PrefixOfExtension(qe, e, re);
    DeliveredTokensConcat(e, re[|q1e|..]);
  }

  /** Slicing a suffix again, and splitting a prefix at a point. */
  lemma SliceOfSlice<T>(s: seq<T>, i: nat, j: nat)
    requires i + j <= |s|
    ensures s[i..][j..] == s[i + j..] && s[..i + j] == s[..i] + s[i..][..j]
  {
  }

  lemma SuffixOfConcat<T>(a: seq<T>, b: seq<T>, c: seq<T>)
    requires a + b == c
    ensures b == c[|a|..]
  {
    assert c[|a|..] == (a + b)[|a|..];
  }

  lemma PrefixOfExtension(a: seq<Event>, e: seq<Event>, r: seq<Event>)
    requires |r| >= |a + e| && r[..|a + e|] == a + e
    ensures r[..|a|] == a && r[|a|..] == e + r[|a + e|..]
  {
    assert r[..|a|] == (a + e)[..|a|];
  }

  /** `VideoRenderMediaStreamWinRT` (its event queue is the `events` field). */
  /** Whether a queue entry is a clean-point sample, the key frame the queue cleaning keeps. */
  predicate IsCleanPoint(e: Entry)
  {
    e.SampleEntry? && e.sample.cleanPoint
  }

  /** A queue of clean-point samples only: the only entries the stream ever queues are the
      samples `ProcessSample` marks as clean points. */
  predicate CleanPointQueue(samples: seq<Entry>)
  {
    forall i :: 0 <= i < |samples| ==> IsCleanPoint(samples[i])
  }

  /** Delivery keeps a queue of clean-point samples one: it leaves a suffix of it. */
  lemma DeliverKeepsCleanPointQueue(q: Queues, rate: real)
    requires CleanPointQueue(q.samples)
    ensures CleanPointQueue(Deliver(q, rate).samples)
  {
    DeliverLeavesSampleSuffix(q, rate);
    var r := Deliver(q, rate);
    forall i | 0 <= i < |r.samples|
      ensures IsCleanPoint(r.samples[i])
    {
      assert r.samples[i] == q.samples[|q.samples| - |r.samples| + i];
    }
  }

  /**
   * `CleanSampleQueue` as the code runs it: the search loop never advances
   * its iterator, so only the front entry is ever looked at. A front
   * clean-point sample ends the search and is all that stays queued, an
   * empty queue stays empty, and any other front entry keeps the loop
   * spinning forever, which is `None` here.
   */
  function CleanSampleQueueAsWritten(samples: seq<Entry>): (r: Option<seq<Entry>>)
    ensures r.Some? <==> samples == [] || IsCleanPoint(samples[0])
    ensures r.Some? ==> r.value == samples[..if samples == [] then 0 else 1]
  {
    if samples == [] then Some([])
    else if IsCleanPoint(samples[0]) then Some([samples[0]])
    else None
  }

  /** `CleanSampleQueue` as its comment describes it: only the first key frame stays queued. */
  function CleanSampleQueue(samples: seq<Entry>): (r: seq<Entry>)
    ensures |r| <= 1
    ensures r == [] <==> forall i :: 0 <= i < |samples| ==> !IsCleanPoint(samples[i])
    ensures r != [] ==> IsCleanPoint(r[0]) && r[0] in samples
    decreases |samples|
  {
    if samples == [] then []
    else if IsCleanPoint(samples[0]) then [samples[0]]
    else
      var rest := CleanSampleQueue(samples[1..]);
      assert forall i :: 1 <= i < |samples| ==> samples[i] == samples[1..][i - 1];
      rest
  }

  /** The sample kept is the first clean point of the queue. */
  lemma {:induction false} CleanSampleQueueKeepsFirstKeyFrame(samples: seq<Entry>, i: nat)
    requires i < |samples| && IsCleanPoint(samples[i])
    requires forall j :: 0 <= j < i ==> !IsCleanPoint(samples[j])
    ensures CleanSampleQueue(samples) == [samples[i]]
    decreases i
  {
    if i > 0 {
      assert forall j :: 0 <= j < i - 1 ==> samples[1..][j] == samples[j + 1];
      CleanSampleQueueKeepsFirstKeyFrame(samples[1..], i - 1);
    }
  }

  /** Whenever the code as written finishes, it leaves what the corrected cleaning leaves. */
  lemma CleanSampleQueueAsWrittenAgrees(samples: seq<Entry>)
    ensures CleanSampleQueueAsWritten(samples).Some? ==>
      CleanSampleQueueAsWritten(samples).value == CleanSampleQueue(samples)
  {
    if samples != [] && IsCleanPoint(samples[0]) {
      CleanSampleQueueKeepsFirstKeyFrame(samples, 0);
    }
  }

  /**
   * A media-type entry ahead of a key frame: the code as written never
   * leaves its search loop, while the corrected cleaning keeps the key
   * frame. The stream itself never builds such a queue (see `Valid`).
   */
  lemma CleanSampleQueueAsWrittenSpins(format: int, s: Sample)
    requires s.cleanPoint
    ensures CleanSampleQueueAsWritten([FormatEntry(format), SampleEntry(s)]) == None
    ensures CleanSampleQueue([FormatEntry(format), SampleEntry(s)]) == [SampleEntry(s)]
  {
    CleanSampleQueueKeepsFirstKeyFrame([FormatEntry(format), SampleEntry(s)], 1);
  }

  /**
   * On the queues the stream can hold — clean-point samples only — the code as
   * written finishes and leaves what the corrected cleaning leaves, so the spin
   * above is latent.
   */
  lemma CleanSampleQueueAsWrittenOnStreamQueues(samples: seq<Entry>)
    requires CleanPointQueue(samples)
    ensures CleanSampleQueueAsWritten(samples) == Some(CleanSampleQueue(samples))
  {
  }

  class RenderStream {
    var state: SourceState
    var active: bool
    var rate: real
    var samples: seq<Entry>
    var tokens: seq<Option<int>>
    var discontinuity: bool
    var drop: DropState
    var events: seq<Event>

    function Pending(): Queues
      reads this
    {
      Queues(samples, tokens, discontinuity, drop, events)
    }

    /** The class invariant: only clean-point samples are ever queued. */
    predicate Valid()
      reads this
    {
      CleanPointQueue(samples)
    }

    constructor()
      ensures state == SourceInvalid && !active && rate == 1.0 && !discontinuity
      ensures drop == DropState(DropModeNone, false, false, true, 0, 0)
      ensures samples == [] && tokens == [] && events == []
      ensures Valid()
    {
      state := SourceInvalid;
      active := false;
      rate := 1.0;
      samples := [];
      tokens := [];
      discontinuity := false;
      drop := DropState(DropModeNone, false, false, true, 0, 0);
      events := [];
    }

    /** `Initialize`: once the stream descriptor exists the stream is stopped. */
    method Initialize()
      modifies this`state
      ensures state == SourceStopped
    {
      state := SourceStopped;
    }

    /** `HandleError`: anything but a shutdown is reported to the client. */
    method HandleError(status: Status)
      modifies this`events
      ensures events == old(events) + (if status == ErrShutdown then [] else [Error(status)])
    {
      if status != ErrShutdown {
        events := events + [Error(status)];
      }
    }

    /** `Start`: from Stopped or Started to Started; always returns S_OK. */
    method Start() returns (r: Status)
      requires Valid()
      modifies this
      ensures Valid()
      ensures r == Ok
      ensures old(state) in {SourceStopped, SourceStarted} ==> state == SourceStarted && events == old(events) + [StreamStarted]
      ensures old(state) == SourceShutdown ==> state == SourceShutdown && events == old(events)
      ensures old(state) in {SourceInvalid, SourceStarting} ==>
        state == old(state) && events == old(events) + [Error(ErrInvalidStateTransition)]
      ensures samples == old(samples) && tokens == old(tokens) && drop == old(drop)
      ensures active == old(active) && discontinuity == old(discontinuity) && rate == old(rate)
    {
      var hr := Ok;
      if state == SourceShutdown {
        hr := ErrShutdown;
      }
      if hr == Ok {
        if state == SourceStopped || state == SourceStarted {
          state := SourceStarted;
          events := events + [StreamStarted];
        } else {
          hr := ErrInvalidStateTransition;
        }
      }
      if hr != Ok {
        HandleError(hr);
      }
      r := Ok;
    }

    /** `Stop`: only from Started, emptying both queues; always returns S_OK. */
    method Stop() returns (r: Status)
      requires Valid()
      modifies this
      ensures Valid()
      ensures r == Ok
      ensures old(state) == SourceStarted ==>
        state == SourceStopped && samples == [] && tokens == [] && events == old(events) + [StreamStopped]
      ensures old(state) == SourceShutdown ==> state == SourceShutdown && events == old(events)
      ensures old(state) !in {SourceStarted, SourceShutdown} ==>
        state == old(state) && events == old(events) + [Error(ErrInvalidStateTransition)]
      ensures old(state) != SourceStarted ==> samples == old(samples) && tokens == old(tokens)
      ensures drop == old(drop) && active == old(active) && discontinuity == old(discontinuity)
      ensures rate == old(rate)
    {
      var hr := Ok;
      if state == SourceShutdown {
        hr := ErrShutdown;
      }
      if hr == Ok {
        if state == SourceStarted {
          state := SourceStopped;
          while tokens != []
            invariant state == SourceStopped && events == old(events) && samples == old(samples)
            invariant drop == old(drop) && active == old(active) && discontinuity == old(discontinuity)
            invariant rate == old(rate)
            decreases |tokens|
          {
            tokens := tokens[1..];
          }
          while samples != []
            invariant state == SourceStopped && events == old(events) && tokens == []
            invariant drop == old(drop) && active == old(active) && discontinuity == old(discontinuity)
            invariant rate == old(rate)
            decreases |samples|
          {
            samples := samples[1..];
          }
          events := events + [StreamStopped];
        } else {
          hr := ErrInvalidStateTransition;
        }
      }
      if hr != Ok {
        HandleError(hr);
      }
      r := Ok;
    }

    /** `Flush`: empty both queues and put the drop state back to its defaults. */
    method Flush() returns (r: Status)
      requires Valid()
      modifies this
      ensures Valid()
      ensures r == Ok && samples == [] && tokens == [] && !discontinuity
      ensures drop == ResetDropTime(old(drop)).(mode := DropModeNone)
      ensures state == old(state) && events == old(events) && active == old(active) && rate == old(rate)
    {
      tokens := [];
      samples := [];
      discontinuity := false;
      drop := drop.(mode := DropModeNone);
      drop := ResetDropTime(drop);
      r := Ok;
    }

    /** `Shutdown`: flushes and shuts down; a second call reports MF_E_SHUTDOWN. */
    method Shutdown() returns (r: Status)
      requires Valid()
      modifies this
      ensures Valid()
      ensures state == SourceShutdown
      ensures old(state) == SourceShutdown <==> r == ErrShutdown
      ensures old(state) != SourceShutdown ==>
        && r == Ok && samples == [] && tokens == [] && !discontinuity
        && drop == ResetDropTime(old(drop)).(mode := DropModeNone)
      ensures old(state) == SourceShutdown ==>
        && samples == old(samples) && tokens == old(tokens) && drop == old(drop)
        && discontinuity == old(discontinuity)
      ensures events == old(events) && active == old(active) && rate == old(rate)
    {
      if state == SourceShutdown {
        return ErrShutdown;
      }
      var _ := Flush();
      state := SourceShutdown;
      r := Ok;
    }

    /**
     * `SetRate`: records the rate and, away from the normal rate, cleans the
     * sample queue down to its first key frame; after shutdown nothing
     * changes and the shutdown error is swallowed.
     */
    method SetRate(flRate: real) returns (r: Status)
      requires Valid()
      modifies this`rate, this`samples, this`events
      ensures Valid()
      ensures r == Ok && events == old(events)
      ensures state == SourceShutdown ==> rate == old(rate) && samples == old(samples)
      ensures state != SourceShutdown ==> rate == flRate
      ensures state != SourceShutdown && flRate != 1.0 ==> samples == CleanSampleQueue(old(samples))
      ensures state != SourceShutdown && flRate != 1.0 ==> CleanSampleQueueAsWritten(old(samples)) == Some(samples)
      ensures flRate == 1.0 ==> samples == old(samples)
    {
      if state == SourceShutdown {
        HandleError(ErrShutdown);
        return Ok;
      }
      rate := flRate;
      if rate != 1.0 {
        CleanSampleQueueAsWrittenOnStreamQueues(samples);
        samples := CleanSampleQueue(samples);
      }
      r := Ok;
    }

    /** `SetActive`: only in Stopped or Started. */
    method SetActive(fActive: bool) returns (r: Status)
      modifies this`active
      ensures state == SourceShutdown ==> r == ErrShutdown
      ensures state in {SourceInvalid, SourceStarting} ==> r == ErrInvalidRequest
      ensures state in {SourceStopped, SourceStarted} ==> r == Ok
      ensures r == Ok ==> active == fActive
      ensures r != Ok ==> active == old(active)
    {
      r := Ok;
      if state == SourceShutdown {
        r := ErrShutdown;
      }
      if r == Ok {
        if state != SourceStopped && state != SourceStarted {
          r := ErrInvalidRequest;
        }
      }
      if r == Ok {
        active := fActive;
      }
    }

    /** `SetDropMode`: only NONE and MODE_1; a change waits for a clean point. */
    method SetDropMode(mode: int) returns (r: Status)
      modifies this`drop
      ensures state == SourceShutdown ==> r == ErrShutdown
      ensures state != SourceShutdown && (mode < DropModeNone || mode >= DropMode2) ==> r == ErrNoMoreDropModes
      ensures r == Ok <==> state != SourceShutdown && DropModeNone <= mode < DropMode2
      ensures r == Ok && mode != old(drop).mode ==> drop == old(drop).(mode := mode, waitingForCleanPoint := true)
      ensures r != Ok || mode == old(drop).mode ==> drop == old(drop)
    {
      r := Ok;
      if state == SourceShutdown {
        r := ErrShutdown;
      }
      if r == Ok && (mode < DropModeNone || mode >= DropMode2) {
        r := ErrNoMoreDropModes;
      }
      if r == Ok && drop.mode != mode {
        drop := drop.(mode := mode, waitingForCleanPoint := true);
      }
    }

    /** `DropTime`: a positive amount arms the window, zero resets it, a negative one is invalid. */
    method DropTime(amount: int) returns (r: Status)
      modifies this`drop
      ensures state == SourceShutdown ==> r == ErrShutdown && drop == old(drop)
      ensures state != SourceShutdown && amount > 0 ==>
        r == Ok && drop == old(drop).(dropTime := true, initDropTime := true, amountToDrop := amount)
      ensures state != SourceShutdown && amount == 0 ==> r == Ok && drop == ResetDropTime(old(drop))
      ensures state != SourceShutdown && amount < 0 ==> r == ErrInvalidArg && drop == old(drop)
    {
      r := Ok;
      if state == SourceShutdown {
        r := ErrShutdown;
      }
      if r == Ok {
        if amount > 0 {
          drop := drop.(dropTime := true, initDropTime := true, amountToDrop := amount);
        } else if amount == 0 {
          drop := ResetDropTime(drop);
        } else {
          r := ErrInvalidArg;
        }
      }
    }

    /**
     * The sample-lag branch of `NotifyQualityEvent`: a lag over three
     * seconds enters drop mode 1, a negative lag in mode 1 leaves it.
     */
    method NotifySampleLag(lag: int) returns (r: Status)
      modifies this`drop
      ensures state == SourceShutdown ==> r == ErrShutdown && drop == old(drop)
      ensures state != SourceShutdown ==> r == Ok
      ensures state != SourceShutdown && old(drop).mode == DropModeNone && lag > EnterDropModeLag ==>
        drop == old(drop).(mode := DropMode1, waitingForCleanPoint := true)
      ensures state != SourceShutdown && old(drop).mode == DropMode1 && lag < 0 ==>
        drop == old(drop).(mode := DropModeNone, waitingForCleanPoint := true)
      ensures (!(old(drop).mode == DropModeNone && lag > EnterDropModeLag)
        && !(old(drop).mode == DropMode1 && lag < 0)) ==> drop == old(drop)
    {
      r := Ok;
      if state == SourceShutdown {
        r := ErrShutdown;
      }
      if r == Ok {
        if drop.mode == DropModeNone && lag > EnterDropModeLag {
          r := SetDropMode(DropMode1);
        } else if drop.mode == DropMode1 && lag < 0 {
          r := SetDropMode(DropModeNone);
        }
      }
    }

    /** `ShouldDropSample` on the stream's own drop state. */
    method ShouldDropSample(s: Sample) returns (fDrop: bool)
      modifies this`drop
      ensures (fDrop, drop) == ShouldDrop(old(drop), rate, s)
    {
      var fCleanPoint := s.cleanPoint;
      fDrop := rate != 1.0 && !fCleanPoint;
      if !fDrop && drop.dropTime {
        if drop.initDropTime {
          drop := drop.(startDroppingAt := s.time, initDropTime := false);
        }
        fDrop := s.time < drop.startDroppingAt + drop.amountToDrop;
        if !fDrop {
          drop := ResetDropTime(drop);
        }
      }
      if !fDrop && (drop.mode == DropMode1 || drop.waitingForCleanPoint) {
        fDrop := !fCleanPoint;
        if fCleanPoint {
          drop := drop.(waitingForCleanPoint := false);
        }
      }
    }

    /** `DeliverSamples`: pair queued samples with queued requests. */
    method DeliverSamples()
      modifies this
      ensures old(Valid()) ==> Valid()
      ensures Pending() == Deliver(old(Pending()), rate)
      ensures state == old(state) && active == old(active) && rate == old(rate)
    {
      while samples != [] && tokens != []
        invariant Deliver(Pending(), rate) == Deliver(old(Pending()), rate)
        invariant old(Valid()) ==> Valid()
        invariant state == old(state) && active == old(active) && rate == old(rate)
        decreases |samples|
      {
        DeliverNext();
      }
    }

    /** One turn of `DeliverSamples`: the front entry is taken off the queue and either
        dropped, delivered with the front token, or reported as a format change. */
    method DeliverNext()
      requires samples != [] && tokens != []
      modifies this
      ensures old(Valid()) ==> Valid()
      ensures Pending() == DeliverOne(old(Pending()), rate)
      ensures state == old(state) && active == old(active) && rate == old(rate)
    {
      var entry := samples[0];
      samples := samples[1..];
      match entry
      case SampleEntry(s) =>
        var fDrop := ShouldDropSample(s);
        if !fDrop {
          var token := tokens[0];
          tokens := tokens[1..];
          events := events + [MediaSample(s, token, discontinuity)];
          discontinuity := false;
        } else {
          discontinuity := true;
        }
      case FormatEntry(f) =>
        events := events + [FormatChanged(f)];
    }

    /** `RequestSample`: queue the request while started and deliver. */
    method RequestSample(token: Option<int>)
      requires Valid()
      modifies this
      ensures Valid()
      ensures old(state) == SourceStarted ==>
        Pending() == Deliver(old(Pending()).(tokens := old(tokens) + [token]), rate)
      ensures old(state) == SourceShutdown ==> Pending() == old(Pending())
      ensures old(state) !in {SourceStarted, SourceShutdown} ==>
        Pending() == old(Pending()).(events := old(events) + [Error(ErrInvalidRequest)])
      ensures state == old(state) && rate == old(rate)
    {
      if state == SourceShutdown {
        return;
      }
      if state != SourceStarted {
        HandleError(ErrInvalidRequest);
        return;
      }
      tokens := tokens + [token];
      DeliverSamples();
    }

    /**
     * `ProcessSample`: the sample gets its time stamp and is marked a clean
     * point, then is queued and delivered while started.
     */
    method ProcessSample(time: int)
      requires Valid()
      modifies this
      ensures Valid()
      ensures old(state) == SourceStarted ==>
        Pending() == Deliver(old(Pending()).(samples := old(samples) + [SampleEntry(Sample(time, true))]), rate)
      ensures old(state) == SourceShutdown ==> Pending() == old(Pending())
      ensures old(state) !in {SourceStarted, SourceShutdown} ==>
        Pending() == old(Pending()).(events := old(events) + [Error(ErrUnexpected)])
      ensures state == old(state) && rate == old(rate)
    {
      if state == SourceShutdown {
        return;
      }
      var sample := Sample(time, true);
      if state == SourceStarted {
        samples := samples + [SampleEntry(sample)];
        DeliverSamples();
      } else {
        HandleError(ErrUnexpected);
      }
    }
  }
}
