// Spatial audio mixer of the Unity plugin example (vraudio_wrap.cc): the
// set of remote audio sources keyed by SSRC, the choice of the mixing
// frequency, the spatializer's processing-buffer size, and the ring buffers
// that adapt 10 ms WebRTC frames to the spatializer's power-of-two buffers.
// The spatializer itself is foreign: its rendered samples are a parameter.
module VrAudio {
  import opened Common

  /** The frequency used when no better one can be chosen (48 kHz). */
  const DefaultFrequency: int := 48000

  /** The native rates of the audio processing module, ascending. */
  const NativeRates: seq<int> := [8000, 16000, 32000, 48000]

  /** The smallest spatializer processing buffer. */
  const MinProcessingBuffer: nat := 64

  /** A remote source as the mixer sees it when adding or removing it: its SSRC. The
      rate it prefers is asked for afresh whenever the mixing frequency is chosen. */
  datatype Source = Source(ssrc: int)

  /** What `GetAudioFrameWithInfo` reports for one source. */
  datatype FrameStatus = Normal | Muted | Error

  /** One 10 ms frame of a source: status, channel count and interleaved samples. */
  datatype SourceFrame = SourceFrame(status: FrameStatus, numChannels: nat, data: seq<int>)

  /**
   * The per-source record. `setUp` says the source is registered with the
   * current spatializer; `ring` is the input ring buffer of interleaved samples.
   */
  datatype SourceInfo = SourceInfo(
    setUp: bool,
    hasData: bool,
    numChannels: nat,
    frame: seq<int>,
    ring: seq<int>)

  function NewSourceInfo(): SourceInfo
  {
    SourceInfo(false, false, 1, [], [])
  }

  // ---------------------------------------------------------------------
  // Mixing frequency

  /**
   * `m` is the maximum of 0 and the preferred rate of every source in `keys`;
   * `rates` maps an SSRC to what that source's `PreferredSampleRate` reports.
   */
  ghost predicate IsMaximalRate(keys: set<int>, rates: int -> int, m: int)
  {
    && m >= 0
    && (forall k :: k in keys ==> rates(k) <= m)
    && (m == 0 || exists k :: k in keys && rates(k) == m)
  }

  /** The maximal preferred rate of the sources in `keys`, or 0 when none exceeds it. */
  ghost function MaxRate(keys: set<int>, rates: int -> int): (m: int)
    ensures IsMaximalRate(keys, rates, m)
    decreases keys
  {
    if keys == {} then 0
    else
      EmptyOrHasElement(keys);
      var k :| k in keys;
      Max(MaxRate(keys - {k}, rates), rates(k))
  }

  lemma MaximalRateUnique(keys: set<int>, rates: int -> int, m1: int, m2: int)
    requires IsMaximalRate(keys, rates, m1) && IsMaximalRate(keys, rates, m2)
    ensures m1 == m2
  {
  }

  /** `std::lower_bound`: the index of the first element of `rates` not below `m`. */
  function LowerBound(rates: seq<int>, m: int): (i: nat)
    ensures i <= |rates|
    ensures forall j :: 0 <= j < i ==> rates[j] < m
    ensures i < |rates| ==> rates[i] >= m
  {
    if rates == [] || rates[0] >= m then 0 else 1 + LowerBound(rates[1..], m)
  }

  /** The rate chosen for a maximal preferred rate `m`. */
  function RoundedUpRate(m: int): (r: int)
    ensures r in NativeRates
    ensures m < 8000 || m > 48000 ==> r == DefaultFrequency
    ensures 8000 <= m <= 48000 ==> m <= r && forall x :: x in NativeRates && x < r ==> x < m
  {
    if m < NativeRates[0] || m > NativeRates[3] then DefaultFrequency
    else
      var i := LowerBound(NativeRates, m);
      if i == |NativeRates| then DefaultFrequency else NativeRates[i]
  }

  /** The mixing frequency for the sources in `keys`, which prefer `rates` now. */
  ghost function MixingFrequency(keys: set<int>, rates: int -> int): int
  {
    if keys == {} then DefaultFrequency else RoundedUpRate(MaxRate(keys, rates))
  }

  /** The mixing frequency is always a native rate. */
  lemma MixingFrequencyIsNative(keys: set<int>, rates: int -> int)
    ensures MixingFrequency(keys, rates) in NativeRates
  {
  }

  /**
   * With a maximal preferred rate inside [8 kHz, 48 kHz] the mixing frequency
   * is the smallest native rate at or above every preferred rate; otherwise it
   * is 48 kHz.
   */
  lemma MixingFrequencyRoundsUp(keys: set<int>, rates: int -> int)
    ensures var m := MaxRate(keys, rates);
      && (keys == {} || m < 8000 || m > 48000 ==> MixingFrequency(keys, rates) == DefaultFrequency)
      && (keys != {} && 8000 <= m <= 48000 ==>
            && (forall k :: k in keys ==> rates(k) <= MixingFrequency(keys, rates))
            && (forall r :: r in NativeRates && r < MixingFrequency(keys, rates) ==> r < m))
  {
    var m := MaxRate(keys, rates);
    if keys != {} && 8000 <= m <= 48000 {
      var i := LowerBound(NativeRates, m);
      assert NativeRates[3] == 48000;
      assert i < |NativeRates|;
      assert MixingFrequency(keys, rates) == NativeRates[i];
      forall r | r in NativeRates && r < MixingFrequency(keys, rates)
        ensures r < m
      {
        var j :| 0 <= j < |NativeRates| && NativeRates[j] == r;
        assert j < i;
      }
    }
  }

  // ---------------------------------------------------------------------
  // Processing-buffer size

  /** `n` is 64 times a power of two. */
  predicate PowerOfTwoTimes64(n: nat)
    decreases n
  {
    n == MinProcessingBuffer || (n > MinProcessingBuffer && n % 2 == 0 && PowerOfTwoTimes64(n / 2))
  }

  /**
   * `buf` is the largest 64 * 2^k not above `frame`, or 64 when even that
   * is above it.
   */
  predicate IsProcessingBufferSize(frame: nat, buf: nat)
  {
    PowerOfTwoTimes64(buf) && (buf == MinProcessingBuffer || buf <= frame) && buf * 2 > frame
  }

  lemma {:induction false} PowersAreSpread(a: nat, b: nat)
    requires PowerOfTwoTimes64(a) && PowerOfTwoTimes64(b) && a < b
    ensures 2 * a <= b
    decreases b
  {
    assert b > MinProcessingBuffer && b % 2 == 0 && PowerOfTwoTimes64(b / 2);
    if a < b / 2 {
      PowersAreSpread(a, b / 2);
    } else if a > b / 2 {
      PowersAreSpread(b / 2, a);
      assert false;
    }
  }

  /** The buffer size is determined by the frame size. */
  lemma ProcessingBufferSizeUnique(frame: nat, b1: nat, b2: nat)
    requires IsProcessingBufferSize(frame, b1) && IsProcessingBufferSize(frame, b2)
    ensures b1 == b2
  {
    if b1 < b2 {
      PowersAreSpread(b1, b2);
    } else if b2 < b1 {
      PowersAreSpread(b2, b1);
    }
  }

  /** 64, doubled while twice the value still fits in one frame. */
  method ProcessingBufferSize(frame: nat) returns (buf: nat)
    ensures IsProcessingBufferSize(frame, buf)
  {
    buf := MinProcessingBuffer;
    while buf * 2 <= frame
      invariant PowerOfTwoTimes64(buf)
      invariant buf == MinProcessingBuffer || buf <= frame
      decreases frame - buf
    {
      buf := buf * 2;
    }
  }

  /** For the native rates the processing buffers are 64, 128, 256 and 256 samples. */
  lemma NativeProcessingBufferSizes()
    ensures IsProcessingBufferSize(8000 / 100, 64)
    ensures IsProcessingBufferSize(16000 / 100, 128)
    ensures IsProcessingBufferSize(32000 / 100, 256)
    ensures IsProcessingBufferSize(48000 / 100, 256)
  {
    assert PowerOfTwoTimes64(128) by { assert PowerOfTwoTimes64(64); }
    assert PowerOfTwoTimes64(256) by { assert PowerOfTwoTimes64(128); }
  }

  /** The processing buffer for a mixer with or without zero padding. */
  predicate IsBufferSizeFor(zeroPadding: bool, frame: nat, buf: nat)
  {
    if zeroPadding then buf == frame else IsProcessingBufferSize(frame, buf)
  }

  // ---------------------------------------------------------------------
  // Ring buffers

  /** The ring resized to `size` samples: oldest samples popped, or zeros appended. */
  function Resized(ring: seq<int>, size: nat): (r: seq<int>)
    ensures |r| == size
    ensures |ring| >= size ==> r == ring[|ring| - size..]
    ensures |ring| <= size ==> r[..|ring|] == ring && r[|ring|..] == Zeros(size - |ring|)
  {
    if |ring| > size then ring[|ring| - size..]
    else ring + Zeros(size - |ring|)
  }

  /** `AudioVector::PopFront`: removes `n` samples, or all when fewer are held. */
  function Dropped(ring: seq<int>, n: nat): (r: seq<int>)
    ensures |r| == if n >= |ring| then 0 else |ring| - n
    ensures n < |ring| ==> r == ring[n..]
  {
    if n >= |ring| then [] else ring[n..]
  }

  /** A source's ring brought to `count` samples per channel, then fed one frame (or silence). */
  function Refilled(info: SourceInfo, count: nat, frameLen: nat): SourceInfo
  {
    info.(ring := Resized(info.ring, count * info.numChannels)
                  + (if info.hasData then info.frame else Zeros(info.numChannels * frameLen)))
  }

  /** One processing step takes one buffer per channel from a source's ring. */
  function Consumed(info: SourceInfo, buf: nat): SourceInfo
  {
    info.(ring := Dropped(info.ring, info.numChannels * buf))
  }

  function ConsumedN(info: SourceInfo, buf: nat, n: nat): SourceInfo
  {
    if n == 0 then info else Consumed(ConsumedN(info, buf, n - 1), buf)
  }

  /** The output of the spatializer at processing step `step`: two channels of `buf` samples. */
  function Block(render: (nat, nat) -> int, buf: nat, step: nat): (r: seq<int>)
    ensures |r| == 2 * buf
  {
    seq(2 * buf, j requires 0 <= j => render(step, j))
  }

  function Blocks(render: (nat, nat) -> int, buf: nat, n: nat): (r: seq<int>)
    ensures |r| == 2 * buf * n
  {
    if n == 0 then [] else Blocks(render, buf, n - 1) + Block(render, buf, n - 1)
  }

  lemma BlocksStep(render: (nat, nat) -> int, buf: nat, n: nat)
    ensures Blocks(render, buf, n + 1) == Blocks(render, buf, n) + Block(render, buf, n)
  {
  }

  /**
   * Taking one output frame of `2 * frameLen` samples from the output ring:
   * nothing is lost or repeated, and a short ring is drained and padded with
   * zeros.
   */
  function Drain(produced: seq<int>, frameLen: nat): (r: (seq<int>, seq<int>))
    ensures |r.0| == 2 * frameLen
    ensures |produced| < 2 * frameLen ==> r.1 == [] && r.0 == produced + Zeros(2 * frameLen - |produced|)
    ensures |produced| >= 2 * frameLen ==> r.0 + r.1 == produced
  {
    if |produced| < 2 * frameLen then
      (produced + Zeros(2 * frameLen - |produced|), [])
    else
      (produced[..2 * frameLen], produced[2 * frameLen..])
  }

  /** Every source's ring holds `count` samples per channel. */
  predicate RingsInStep(sources: map<int, SourceInfo>, count: nat)
  {
    forall k :: k in sources ==> |sources[k].ring| == count * sources[k].numChannels
  }

  /** Every frame with data holds one 10 ms frame per channel. */
  predicate FramesWellSized(sources: map<int, SourceInfo>, frameLen: nat)
  {
    forall k :: k in sources && sources[k].hasData ==> |sources[k].frame| == sources[k].numChannels * frameLen
  }

  /** After a refill, a well-sized source holds `count + frameLen` samples per channel. */
  lemma RefilledSize(info: SourceInfo, count: nat, frameLen: nat)
    requires info.hasData ==> |info.frame| == info.numChannels * frameLen
    ensures |Refilled(info, count, frameLen).ring| == (count + frameLen) * info.numChannels
  {
    assert (count + frameLen) * info.numChannels == count * info.numChannels + info.numChannels * frameLen;
  }

  /** A ring in step with `count` stays in step after consuming `n` buffers. */
  lemma {:induction false} ConsumedNSize(info: SourceInfo, buf: nat, n: nat, count: nat)
    requires |info.ring| == count * info.numChannels && n * buf <= count
    ensures |ConsumedN(info, buf, n).ring| == (count - n * buf) * info.numChannels
    ensures ConsumedN(info, buf, n).numChannels == info.numChannels
  {
    if n > 0 {
      var ch := info.numChannels;
      var q := count - n * buf;
      MulPred(n, buf);
      ConsumedNSize(info, buf, n - 1, count);
      var before := ConsumedN(info, buf, n - 1);
      assert |before.ring| == (q + buf) * ch;
      MulAddRight(q, buf, ch);
    }
  }

  /** Proof helper (arithmetic). */
  lemma MulPred(n: nat, b: nat)
    requires n > 0
    ensures (n - 1) * b == n * b - b
  {
  }

  /** Proof helper (arithmetic). */
  lemma MulAddRight(q: int, b: int, c: int)
    ensures (q + b) * c == q * c + c * b
  {
  }

  /** `n * b`, as the processing loop accumulates it. */
  function Multiple(n: nat, b: nat): (r: nat)
    ensures r == n * b
  {
    if n == 0 then 0 else Multiple(n - 1, b) + b
  }

  lemma MultipleStep(n: nat, m: nat, b: nat)
    requires m == n + 1
    ensures Multiple(m, b) == Multiple(n, b) + b
  {
  }

  /**
   * `Mix_ringBuffers` on the ring state: every source ring is resized and
   * fed one frame; then, while a whole processing buffer is pending, every
   * ring gives up one buffer per channel and the spatializer's output is
   * appended to the output ring; finally one output frame is taken.
   */
  method MixRings(st: RingState, frameLen: nat, buf: nat, render: (nat, nat) -> int)
    returns (output: seq<int>, next: RingState)
    requires buf > 0
    ensures (output, next) == RingMix(st, frameLen, buf, render)
  {
    var count := st.pending;
    var refilled := map k | k in st.sources :: Refilled(st.sources[k], count, frameLen);
    var start: nat := count + frameLen;
    var rings := refilled;
    var pending: nat := start;
    var produced := st.outRing;
    var steps: nat := 0;
    while pending >= buf
      invariant pending + Multiple(steps, buf) == start
      invariant RingsAfter(rings, refilled, buf, steps)
      invariant produced == st.outRing + Blocks(render, buf, steps)
      decreases pending
    {
      ConsumeAllStep(rings, refilled, buf, steps, steps + 1);
      rings := ConsumeAll(rings, buf);
      BlocksStep(render, buf, steps);
      assert st.outRing + Blocks(render, buf, steps + 1) == produced + Block(render, buf, steps);
      produced := produced + Block(render, buf, steps);
      pending := pending - buf;
      steps := steps + 1;
      MultipleStep(steps - 1, steps, buf);
    }
    ModUnique(start, buf, steps, pending);
    RingsAfterLoop(st.sources, count, frameLen, buf, rings, refilled);
    var drained := Drain(produced, frameLen);
    output := drained.0;
    next := RingState(rings, pending, drained.1);
  }

  /** One processing step on every source ring. */
  function ConsumeAll(rings: map<int, SourceInfo>, buf: nat): (r: map<int, SourceInfo>)
    ensures r.Keys == rings.Keys
  {
    map k | k in rings :: Consumed(rings[k], buf)
  }

  /** `rings` are the refilled rings after `steps` processing steps. */
  ghost predicate RingsAfter(rings: map<int, SourceInfo>, refilled: map<int, SourceInfo>, buf: nat, steps: nat)
  {
    rings.Keys == refilled.Keys && forall k :: k in rings ==> rings[k] == ConsumedN(refilled[k], buf, steps)
  }

  lemma ConsumeAllStep(rings: map<int, SourceInfo>, refilled: map<int, SourceInfo>, buf: nat, steps: nat, m: nat)
    requires RingsAfter(rings, refilled, buf, steps) && m == steps + 1
    ensures RingsAfter(ConsumeAll(rings, buf), refilled, buf, m)
  {
    var next := ConsumeAll(rings, buf);
    forall k | k in next
      ensures next[k] == ConsumedN(refilled[k], buf, m)
    {
      assert next[k] == Consumed(rings[k], buf);
    }
  }

  /** After `(count + frameLen) / buf` steps the rings are those `SpatializedSources` gives. */
  lemma RingsAfterLoop(sources: map<int, SourceInfo>, count: nat, frameLen: nat, buf: nat,
                       rings: map<int, SourceInfo>, refilled: map<int, SourceInfo>)
    requires buf > 0
    requires refilled == map k | k in sources :: Refilled(sources[k], count, frameLen)
    requires RingsAfter(rings, refilled, buf, (count + frameLen) / buf)
    ensures rings == SpatializedSources(sources, count, frameLen, buf)
  {
    var expected := SpatializedSources(sources, count, frameLen, buf);
    forall k | k in rings
      ensures rings[k] == expected[k]
    {
      assert refilled[k] == Refilled(sources[k], count, frameLen);
    }
  }

  /** A well-sized source's ring, refilled and then drained by the processing loop, holds the pending samples. */
  lemma SourceRingInStep(info: SourceInfo, count: nat, frameLen: nat, buf: nat)
    requires buf > 0
    requires info.hasData ==> |info.frame| == info.numChannels * frameLen
    ensures var r := ConsumedN(Refilled(info, count, frameLen), buf, (count + frameLen) / buf);
      |r.ring| == ((count + frameLen) % buf) * r.numChannels
  {
    var start := count + frameLen;
    DivModParts(start, buf);
    RefilledSize(info, count, frameLen);
    ConsumedNSize(Refilled(info, count, frameLen), buf, start / buf, start);
  }

  /** With well-sized frames, the rings left by the processing loop hold the pending samples. */
  lemma SpatializedRingsInStep(sources: map<int, SourceInfo>, count: nat, frameLen: nat, buf: nat,
                               rings: map<int, SourceInfo>)
    requires buf > 0
    requires rings.Keys == sources.Keys
    requires forall k :: k in rings ==>
      rings[k] == ConsumedN(Refilled(sources[k], count, frameLen), buf, (count + frameLen) / buf)
    ensures FramesWellSized(sources, frameLen) ==> RingsInStep(rings, (count + frameLen) % buf)
  {
    forall k | k in rings && FramesWellSized(sources, frameLen)
      ensures |rings[k].ring| == ((count + frameLen) % buf) * rings[k].numChannels
    {
      SourceRingInStep(sources[k], count, frameLen, buf);
    }
  }

  /** The ring-buffer part of the mixer: source rings, pending samples per channel, output ring. */
  datatype RingState = RingState(sources: map<int, SourceInfo>, pending: nat, outRing: seq<int>)

  lemma {:induction false} ConsumedNKeepsSetUp(info: SourceInfo, buf: nat, n: nat)
    ensures ConsumedN(info, buf, n).setUp == info.setUp
  {
    if n > 0 {
      ConsumedNKeepsSetUp(info, buf, n - 1);
    }
  }

  /** The sources after the refill and the processing loop of one mixing call. */
  function SpatializedSources(sources: map<int, SourceInfo>, count: nat, frameLen: nat, buf: nat): (r: map<int, SourceInfo>)
    requires buf > 0
    ensures r.Keys == sources.Keys
    ensures forall k :: k in r ==> r[k].setUp == sources[k].setUp
  {
    assert forall k :: k in sources ==>
      var info := Refilled(sources[k], count, frameLen);
      ConsumedN(info, buf, (count + frameLen) / buf).setUp == info.setUp
    by {
      forall k | k in sources {
        ConsumedNKeepsSetUp(Refilled(sources[k], count, frameLen), buf, (count + frameLen) / buf);
      }
    }
    map k | k in sources :: ConsumedN(Refilled(sources[k], count, frameLen), buf, (count + frameLen) / buf)
  }

  /** The output ring after the processing loop of one mixing call. */
  function SpatializedOutput(outRing: seq<int>, count: nat, frameLen: nat, buf: nat, render: (nat, nat) -> int): (r: seq<int>)
    requires buf > 0
    ensures outRing <= r && |r| == |outRing| + 2 * buf * ((count + frameLen) / buf)
  {
    outRing + Blocks(render, buf, (count + frameLen) / buf)
  }

  /**
   * One `Mix_ringBuffers` call: the output frame and the new ring state.
   * Fewer than one processing buffer stays pending.
   */
  function RingMix(st: RingState, frameLen: nat, buf: nat, render: (nat, nat) -> int): (r: (seq<int>, RingState))
    requires buf > 0
    ensures |r.0| == 2 * frameLen
    ensures r.1.pending == (st.pending + frameLen) % buf && r.1.pending < buf
  {
    var d := Drain(SpatializedOutput(st.outRing, st.pending, frameLen, buf, render), frameLen);
    (d.0, RingState(SpatializedSources(st.sources, st.pending, frameLen, buf), (st.pending + frameLen) % buf, d.1))
  }

  /** Every source keeps its place and its registration. */
  lemma RingMixKeepsSources(st: RingState, frameLen: nat, buf: nat, render: (nat, nat) -> int)
    requires buf > 0
    ensures var r := RingMix(st, frameLen, buf, render).1;
      && r.sources.Keys == st.sources.Keys
      && forall k :: k in r.sources ==> r.sources[k].setUp == st.sources[k].setUp
  {
  }

  /** With well-sized input frames every ring stays in step with the pending count. */
  lemma RingMixKeepsRingsInStep(st: RingState, frameLen: nat, buf: nat, render: (nat, nat) -> int)
    requires buf > 0
    ensures var r := RingMix(st, frameLen, buf, render).1;
      FramesWellSized(st.sources, frameLen) ==> RingsInStep(r.sources, r.pending)
  {
    var r := RingMix(st, frameLen, buf, render).1;
    SpatializedRingsInStep(st.sources, st.pending, frameLen, buf, r.sources);
  }

  /**
   * The output frame is taken from the front of the output ring after the
   * rendered blocks are appended; a short ring is drained and padded with zeros.
   */
  lemma RingMixDrainsOutput(st: RingState, frameLen: nat, buf: nat, render: (nat, nat) -> int)
    requires buf > 0
    ensures var r := RingMix(st, frameLen, buf, render);
      var produced := st.outRing + Blocks(render, buf, (st.pending + frameLen) / buf);
      && (|produced| < 2 * frameLen ==> r.1.outRing == [] && r.0 == produced + Zeros(2 * frameLen - |produced|))
      && (|produced| >= 2 * frameLen ==> r.0 + r.1.outRing == produced)
  {
  }

  // ---------------------------------------------------------------------
  // The mixer

  /** `VrAudioWrap`. */
  class Mixer {
    const zeroPadding: bool
    var hasSpatializer: bool
    var sampleRateHz: int
    var samplesPerBuf: nat
    var samplesPerFrame: nat
    var timeStamp: nat
    var sources: map<int, SourceInfo>
    var samplesInInputRingBuf: int
    var outRing: seq<int>

    ghost predicate Valid()
      reads this
    {
      && timeStamp < UInt32Modulus
      && 0 <= samplesInInputRingBuf
      && (hasSpatializer <==> sampleRateHz != -1)
      && (hasSpatializer ==>
            && sampleRateHz in NativeRates
            && samplesPerFrame == sampleRateHz / 100
            && IsBufferSizeFor(zeroPadding, samplesPerFrame, samplesPerBuf)
            && (forall k :: k in sources ==> sources[k].setUp))
      && (hasSpatializer && !zeroPadding ==> samplesInInputRingBuf < samplesPerBuf)
    }

    constructor(zeroPadding: bool)
      ensures Valid() && !hasSpatializer
      ensures this.zeroPadding == zeroPadding && sampleRateHz == -1
      ensures sources == map[] && timeStamp == 0 && samplesInInputRingBuf == 0
    {
      this.zeroPadding := zeroPadding;
      hasSpatializer := false;
      sampleRateHz := -1;
      samplesPerBuf := 0;
      samplesPerFrame := 0;
      timeStamp := 0;
      sources := map[];
      samplesInInputRingBuf := 0;
      outRing := [];
    }

    /** `IsInitialized` as written: it reports whether the spatializer is missing. */
    predicate IsInitializedAsWritten()
      reads this
      ensures IsInitializedAsWritten() <==> !IsInitialized()
    {
      !hasSpatializer
    }

    /** `IsInitialized` as documented: true once the spatializer exists. */
    predicate IsInitialized()
      reads this
      ensures Valid() && IsInitialized() ==> sampleRateHz in NativeRates && samplesPerFrame == sampleRateHz / 100
      ensures Valid() && !IsInitialized() ==> sampleRateHz == -1
    {
      hasSpatializer
    }

    /** A source registered with the current spatializer (if any). */
    function Registered(info: SourceInfo): (r: SourceInfo)
      reads this
      ensures r.hasData == info.hasData && r.frame == info.frame
      ensures hasSpatializer ==> r.setUp && (zeroPadding || r.ring == [])
      ensures !hasSpatializer ==> r == info
    {
      if hasSpatializer then info.(setUp := true, ring := if zeroPadding then info.ring else [])
      else info
    }

    method AddSource(src: Option<Source>) returns (added: bool)
      requires Valid()
      modifies this
      ensures Valid()
      ensures added <==> src.Some? && src.value.ssrc !in old(sources)
      ensures !added ==> sources == old(sources)
      ensures added ==> sources == old(sources)[src.value.ssrc := Registered(NewSourceInfo())]
      ensures unchanged(this`hasSpatializer) && unchanged(this`sampleRateHz) && unchanged(this`samplesPerBuf)
      ensures unchanged(this`samplesPerFrame) && unchanged(this`timeStamp)
      ensures unchanged(this`samplesInInputRingBuf) && unchanged(this`outRing)
    {
      if src.None? {
        return false;
      }
      var ssrc := src.value.ssrc;
      if ssrc in sources {
        return false;
      }
      var info := NewSourceInfo();
      if hasSpatializer {
        info := info.(setUp := true, ring := if zeroPadding then info.ring else []);
      }
      sources := sources[ssrc := info];
      added := true;
    }

    method RemoveSource(src: Option<Source>)
      requires Valid()
      modifies this
      ensures Valid()
      ensures src.None? || src.value.ssrc !in old(sources) ==> sources == old(sources)
      ensures src.Some? ==> sources == old(sources) - {src.value.ssrc}
      ensures unchanged(this`hasSpatializer) && unchanged(this`sampleRateHz) && unchanged(this`samplesPerBuf)
      ensures unchanged(this`samplesPerFrame) && unchanged(this`timeStamp)
      ensures unchanged(this`samplesInInputRingBuf) && unchanged(this`outRing)
    {
      if src.None? {
        return;
      }
      var ssrc := src.value.ssrc;
      if ssrc !in sources {
        return;
      }
      sources := sources - {ssrc};
    }

    /** `rates` is what each source's `PreferredSampleRate` reports during this call. */
    method CalculateMixingFrequency(rates: int -> int) returns (rate: int)
      ensures rate == MixingFrequency(sources.Keys, rates)
    {
      if sources == map[] {
        return DefaultFrequency;
      }
      var maximal := 0;
      var remaining := sources.Keys;
      while remaining != {}
        invariant remaining <= sources.Keys
        invariant maximal >= 0
        invariant forall k :: k in sources && k !in remaining ==> rates(k) <= maximal
        invariant maximal == 0 || exists k :: k in sources && k !in remaining && rates(k) == maximal
        decreases remaining
      {
        EmptyOrHasElement(remaining);
        var k :| k in remaining;
        maximal := Max(maximal, rates(k));
        remaining := remaining - {k};
      }
      MaximalRateUnique(sources.Keys, rates, maximal, MaxRate(sources.Keys, rates));
      if maximal < NativeRates[0] || maximal > NativeRates[3] {
        return DefaultFrequency;
      }
      var i := LowerBound(NativeRates, maximal);
      if i == |NativeRates| {
        return DefaultFrequency;
      }
      rate := NativeRates[i];
    }

    method Initialize(rate: int)
      requires Valid() && rate in NativeRates
      modifies this
      ensures Valid() && hasSpatializer && IsInitialized()
      ensures sampleRateHz == rate && samplesPerFrame == rate / 100
      ensures IsBufferSizeFor(zeroPadding, samplesPerFrame, samplesPerBuf)
      ensures !zeroPadding ==> samplesInInputRingBuf == 0 && outRing == []
      ensures zeroPadding ==> samplesInInputRingBuf == old(samplesInInputRingBuf) && outRing == old(outRing)
      ensures sources == Reregistered(old(sources), zeroPadding)
      ensures timeStamp == old(timeStamp)
    {
      sampleRateHz := rate;
      samplesPerFrame := rate / 100;
      samplesPerBuf := samplesPerFrame;
      if !zeroPadding {
        samplesPerBuf := ProcessingBufferSize(samplesPerFrame);
      }
      hasSpatializer := true;
      if !zeroPadding {
        outRing := [];
        samplesInInputRingBuf := 0;
        assert IsProcessingBufferSize(samplesPerFrame, samplesPerBuf);
      }
      sources := Reregistered(sources, zeroPadding);
    }

    /** `Mix_ringBuffers`: adapts the 10 ms frames to the spatializer's buffers. */
    method MixRingBuffers(render: (nat, nat) -> int) returns (output: seq<int>)
      requires Valid() && hasSpatializer && !zeroPadding
      modifies this`sources, this`samplesInInputRingBuf, this`outRing
      ensures Valid()
      ensures sources.Keys == old(sources).Keys
      ensures (output, RingState(sources, samplesInInputRingBuf, outRing))
        == RingMix(RingState(old(sources), old(samplesInInputRingBuf), old(outRing)), samplesPerFrame, samplesPerBuf, render)
    {
      assert PowerOfTwoTimes64(samplesPerBuf);
      ghost var st := RingState(sources, samplesInInputRingBuf, outRing);
      RingMixKeepsSources(st, samplesPerFrame, samplesPerBuf, render);
      var next;
      output, next := MixRings(RingState(sources, samplesInInputRingBuf, outRing), samplesPerFrame, samplesPerBuf, render);
      sources := next.sources;
      samplesInInputRingBuf := next.pending;
      outRing := next.outRing;
    }

    /** `Mix_zeroPadding`: one spatializer buffer per frame, or silence without input. */
    method MixZeroPadding(render: (nat, nat) -> int) returns (output: seq<int>)
      requires Valid() && hasSpatializer && zeroPadding
      ensures |output| == 2 * samplesPerFrame
      ensures (exists k :: k in sources && sources[k].hasData) ==> output == Block(render, samplesPerBuf, 0)
      ensures (forall k :: k in sources ==> !sources[k].hasData) ==> output == Zeros(2 * samplesPerFrame)
    {
      var remaining := sources.Keys;
      var sourceCount := 0;
      while remaining != {}
        invariant remaining <= sources.Keys
        invariant sourceCount == 0 <==> forall k :: k in sources && k !in remaining ==> !sources[k].hasData
        decreases remaining
      {
        EmptyOrHasElement(remaining);
        var k :| k in remaining;
        if sources[k].hasData {
          sourceCount := sourceCount + 1;
        }
        remaining := remaining - {k};
      }
      if sourceCount > 0 {
        output := Block(render, samplesPerBuf, 0);
      } else {
        output := Zeros(2 * samplesPerFrame);
      }
    }

    /** The loop over the sources in `Mix`: each source's frame is fetched. */
    method ReceiveFrames(frames: int -> SourceFrame)
      requires Valid()
      modifies this`sources
      ensures sources == ReceivedAll(old(sources), frames)
      ensures Valid()
    {
      sources := ReceivedAll(sources, frames);
    }

    /** The output frame takes the current time stamp, which then advances by one frame (modulo 2^32). */
    method AdvanceTimeStamp() returns (stamp: nat)
      requires Valid()
      modifies this`timeStamp
      ensures Valid()
      ensures stamp == old(timeStamp) && timeStamp == ToUInt32(stamp + samplesPerFrame)
    {
      stamp := timeStamp;
      timeStamp := ToUInt32(timeStamp + samplesPerFrame);
    }

    /**
     * `Mix`: re-initializes on a rate change, stamps the output with the
     * current time stamp and advances it by one frame (modulo 2^32), takes a
     * frame from every source and spatializes, by one buffer per frame with
     * zero padding and through the rings otherwise. `rates` is what each
     * source's `PreferredSampleRate` reports during this call.
     */
    method Mix(rates: int -> int, frames: int -> SourceFrame, render: (nat, nat) -> int) returns (output: seq<int>, stamp: nat)
      requires Valid()
      modifies this
      ensures Valid() && hasSpatializer
      ensures IsInitialized() && !IsInitializedAsWritten()
      ensures sampleRateHz == MixingFrequency(old(sources).Keys, rates) && samplesPerFrame == sampleRateHz / 100
      ensures stamp == old(timeStamp)
      ensures timeStamp == ToUInt32(stamp + samplesPerFrame)
      ensures |output| == 2 * samplesPerFrame
      ensures sources.Keys == old(sources).Keys
      ensures var renewed := old(sampleRateHz) != MixingFrequency(old(sources).Keys, rates);
        var fetched := ReceivedAll(if renewed then Reregistered(old(sources), zeroPadding) else old(sources), frames);
        && (zeroPadding ==>
              sources == fetched && samplesInInputRingBuf == old(samplesInInputRingBuf) && outRing == old(outRing))
        && (zeroPadding && (exists k :: k in fetched && fetched[k].hasData) ==>
              output == Block(render, samplesPerBuf, 0))
        && (zeroPadding && (forall k :: k in fetched ==> !fetched[k].hasData) ==>
              output == Zeros(2 * samplesPerFrame))
        && (!zeroPadding ==>
              (output, RingState(sources, samplesInInputRingBuf, outRing))
              == RingMix(RingState(fetched, if renewed then 0 else old(samplesInInputRingBuf),
                                   if renewed then [] else old(outRing)),
                         samplesPerFrame, samplesPerBuf, render))
    {
      var rate := CalculateMixingFrequency(rates);
      MixingFrequencyIsNative(sources.Keys, rates);
      if sampleRateHz != rate {
        Initialize(rate);
      }
      // Neither the fetch nor the mixing reads the time stamp, so the frame
      // is stamped and the time stamp advanced after them.
      ReceiveFrames(frames);
      ghost var keys := sources.Keys;
      if zeroPadding {
        output := MixZeroPadding(render);
      } else {
        output := MixRingBuffers(render);
      }
      assert sources.Keys == keys;
      stamp := AdvanceTimeStamp();
    }
  }

  /** A source after `GetAudioFrameWithInfo`: data only on a normal frame, channels unless it failed. */
  function Received(info: SourceInfo, f: SourceFrame): (r: SourceInfo)
    ensures r.hasData <==> f.status == Normal
    ensures r.numChannels == if f.status == Error then info.numChannels else f.numChannels
    ensures r.ring == info.ring && r.setUp == info.setUp
  {
    info.(hasData := f.status == Normal,
          numChannels := if f.status != Error then f.numChannels else info.numChannels,
          frame := f.data)
  }

  /** The sources once registered with a new spatializer: each is set up, and without zero
      padding its ring starts empty. */
  function Reregistered(sources: map<int, SourceInfo>, zeroPadding: bool): (r: map<int, SourceInfo>)
    ensures r.Keys == sources.Keys
    ensures forall k :: k in r ==> r[k].setUp
    ensures forall k :: k in r ==> r[k].ring == (if zeroPadding then sources[k].ring else [])
  {
    map k | k in sources :: sources[k].(setUp := true, ring := if zeroPadding then sources[k].ring else [])
  }

  /** Every source after `GetAudioFrameWithInfo`: the same sources, each with its frame. */
  function ReceivedAll(sources: map<int, SourceInfo>, frames: int -> SourceFrame): (r: map<int, SourceInfo>)
    ensures r.Keys == sources.Keys
    ensures forall k :: k in r ==> r[k] == Received(sources[k], frames(k))
  {
    map k | k in sources :: Received(sources[k], frames(k))
  }

  /** The as-written query answers "not initialized" for every mixer that has mixed. */
  lemma InitializedMixerReportsUninitialized(m: Mixer)
    requires m.Valid() && m.hasSpatializer
    ensures m.IsInitialized() && !m.IsInitializedAsWritten()
  {
  }
}
