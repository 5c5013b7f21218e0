/** The Media Foundation H.264 encoder: frames are handed to a sink writer with a sample time
    derived from their RTP timestamp, and their attributes are queued until the encoded
    sample comes back. The encoded bytes are scanned for start codes to build the RTP
    fragmentation header, and the image is a key frame when Media Foundation marks it as a
    clean point or when one of its NAL units is an IDR slice. Media Foundation, the quality
    scaler and the clock are oracles: their answers are parameters. */
module H264Encoder {
  import opened Common

  /** NAL unit types: an IDR slice and an access unit delimiter. */
  const IdrNalType: int := 5
  const AudNalType: int := 9

  /** More queued frame attributes than this and `Encode` drops the frame. */
  const MaxQueuedAttributes: nat := 2
  /** `NotifyEndOfSegment` is called every this many frames. */
  const FramesPerSegment: nat := 30
  /** A frame rate change of at most this many frames per second is ignored. */
  const FpsStep: int := 5
  /** The encoder is reconfigured at most once in this many milliseconds. */
  const SettingsHoldMs: int := 15000
  /** What `Encode` returns when the encoder is not initialised. */
  const EncodeUninitialized: int := -1

  /** `nal & 0x1f`: the NAL unit type in a NAL header byte. */
  function NalType(b: byte): (t: int)
    ensures 0 <= t < 32
  {
    b as int % 32
  }

  /** The start-code prefix at position `i` of the scan: 4 for `00 00 00 01`, otherwise 3 for
      `00 00 01`, and 0 when there is none or when the NAL unit after it is an access unit
      delimiter. */
  function PrefixAt(buf: seq<byte>, i: nat): (p: nat)
    requires i + 5 < |buf|
    ensures p == 0 || p == 3 || p == 4
    ensures p > 0 ==> buf[i + p - 3] == 0 && buf[i + p - 2] == 0 && buf[i + p - 1] == 1
    ensures p > 0 ==> NalType(buf[i + p]) != AudNalType
    ensures p == 4 ==> buf[i] == 0
  {
    if buf[i] == 0 && buf[i + 1] == 0 && buf[i + 2] == 0 && buf[i + 3] == 1 && NalType(buf[i + 4]) != AudNalType then 4
    else if buf[i] == 0 && buf[i + 1] == 0 && buf[i + 2] == 1 && NalType(buf[i + 3]) != AudNalType then 3
    else 0
  }

  /** The start codes the scan finds from position `i` on, as (position, prefix length). After
      a start code at `i` the scan resumes at `i + 6`. The scan runs while `i + 5` is inside
      the buffer, which is the loop bound `size - 5` for buffers of more than four bytes. */
  function StartCodes(buf: seq<byte>, i: nat): (r: seq<(nat, nat)>)
    ensures i + 5 >= |buf| ==> r == []
    ensures forall k :: 0 <= k < |r| ==> (r[k].1 == 3 || r[k].1 == 4) && i <= r[k].0
    decreases |buf| - i
  {
    if i + 5 >= |buf| then []
    else
      var p := PrefixAt(buf, i);
      if p > 0 then [(i, p)] + StartCodes(buf, i + 6) else StartCodes(buf, i + 1)
  }

  /** One entry of the RTP fragmentation header. */
  datatype Fragment = Fragment(offset: int, length: int)

  /** The fragments of the start codes `codes` in a buffer of `size` bytes: each begins after
      its prefix and runs to the next start code, the last one to the end of the buffer. */
  function FragmentsOf(codes: seq<(nat, nat)>, size: int): (r: seq<Fragment>)
    ensures |r| == |codes|
  {
    seq(|codes|, k requires 0 <= k < |codes| =>
      Fragment(codes[k].0 + codes[k].1,
               (if k + 1 < |codes| then codes[k + 1].0 else size) - (codes[k].0 + codes[k].1)))
  }

  /** The fragmentation header of an encoded sample. */
  function Fragmentation(buf: seq<byte>): (r: seq<Fragment>)
    ensures |r| == |StartCodes(buf, 0)|
    ensures forall k :: 0 <= k < |r| ==> r[k].offset >= 3
    ensures |buf| <= 5 ==> r == []
  {
    FragmentsOf(StartCodes(buf, 0), |buf|)
  }

  /** Whether a fragment's NAL unit is an IDR slice. */
  predicate IdrFragment(buf: seq<byte>, f: Fragment)
  {
    0 <= f.offset < |buf| && NalType(buf[f.offset]) == IdrNalType
  }

  /** The frame type the encoded image gets. */
  predicate IsKeyFrame(buf: seq<byte>, cleanPoint: bool): (r: bool)
    ensures cleanPoint ==> r
    ensures |buf| <= 5 ==> (r <==> cleanPoint)
  {
    var frags := Fragmentation(buf);
    cleanPoint || exists k :: 0 <= k < |frags| && IdrFragment(buf, frags[k])
  }

  /** A start code the scan reports from position `i` on. */
  predicate FoundFrom(buf: seq<byte>, i: nat, c: (nat, nat))
  {
    i <= c.0 && c.0 + 5 < |buf| && c.1 == PrefixAt(buf, c.0) && c.1 > 0
  }

  /** What the scan finds: start codes at least six bytes apart, each inside the scanned range
      and with the prefix `PrefixAt` reports. */
  lemma StartCodesFacts(buf: seq<byte>, i: nat)
    ensures forall k :: 0 <= k < |StartCodes(buf, i)| ==> FoundFrom(buf, i, StartCodes(buf, i)[k])
    ensures forall k :: 0 <= k < |StartCodes(buf, i)| - 1 ==> StartCodes(buf, i)[k].0 + 6 <= StartCodes(buf, i)[k + 1].0
  {
    StartCodesFound(buf, i);
    StartCodesSpaced(buf, i);
  }

  lemma {:induction false} StartCodesFound(buf: seq<byte>, i: nat)
    ensures forall k :: 0 <= k < |StartCodes(buf, i)| ==> FoundFrom(buf, i, StartCodes(buf, i)[k])
    decreases |buf| - i
  {
    if i + 5 < |buf| {
      var r := StartCodes(buf, i);
      if PrefixAt(buf, i) > 0 {
        var rest := StartCodes(buf, i + 6);
        StartCodesFound(buf, i + 6);
        assert r == [(i, PrefixAt(buf, i))] + rest;
        forall k | 0 <= k < |r|
          ensures FoundFrom(buf, i, r[k])
        {
          if k > 0 {
            assert r[k] == rest[k - 1];
            assert FoundFrom(buf, i + 6, rest[k - 1]);
          }
        }
      } else {
        StartCodesFound(buf, i + 1);
        assert r == StartCodes(buf, i + 1);
        forall k | 0 <= k < |r|
          ensures FoundFrom(buf, i, r[k])
        {
          assert FoundFrom(buf, i + 1, r[k]);
        }
      }
    }
  }

  lemma {:induction false} StartCodesSpaced(buf: seq<byte>, i: nat)
    ensures forall k :: 0 <= k < |StartCodes(buf, i)| - 1 ==> StartCodes(buf, i)[k].0 + 6 <= StartCodes(buf, i)[k + 1].0
    decreases |buf| - i
  {
    if i + 5 < |buf| {
      if PrefixAt(buf, i) > 0 {
        var r := StartCodes(buf, i);
        var rest := StartCodes(buf, i + 6);
        StartCodesSpaced(buf, i + 6);
        assert r == [(i, PrefixAt(buf, i))] + rest;
        StartCodesFirst(buf, i + 6);
        forall k | 0 <= k < |r| - 1
          ensures r[k].0 + 6 <= r[k + 1].0
        {
          assert r[k + 1] == rest[k];
          if k > 0 {
            assert r[k] == rest[k - 1];
          }
        }
      } else {
        StartCodesSpaced(buf, i + 1);
        assert StartCodes(buf, i) == StartCodes(buf, i + 1);
      }
    }
  }

  /** The first start code found from `i` on is at `i` or later. */
  lemma {:induction false} StartCodesFirst(buf: seq<byte>, i: nat)
    ensures StartCodes(buf, i) != [] ==> StartCodes(buf, i)[0].0 >= i
    decreases |buf| - i
  {
    if i + 5 < |buf| && PrefixAt(buf, i) == 0 {
      StartCodesFirst(buf, i + 1);
    }
  }

  /** A fragment that follows a `00 00 01` whose NAL unit is not an access unit delimiter,
      holds at least two bytes and lies inside the buffer. */
  predicate AfterStartCode(buf: seq<byte>, f: Fragment)
  {
    && 3 <= f.offset && 2 <= f.length && f.offset + f.length <= |buf|
    && buf[f.offset - 3] == 0 && buf[f.offset - 2] == 0 && buf[f.offset - 1] == 1
    && NalType(buf[f.offset]) != AudNalType
  }

  /** Two fragments in order, with exactly one start code (three or four bytes) between
      them. */
  predicate Consecutive(f: Fragment, g: Fragment)
  {
    f.offset < g.offset && g.offset - (f.offset + f.length) in {3, 4}
  }

  lemma FragmentFacts(buf: seq<byte>, k: nat)
    requires k < |Fragmentation(buf)|
    ensures AfterStartCode(buf, Fragmentation(buf)[k])
    ensures k + 1 < |Fragmentation(buf)| ==> Consecutive(Fragmentation(buf)[k], Fragmentation(buf)[k + 1])
  {
    StartCodesFacts(buf, 0);
    var codes := StartCodes(buf, 0);
    assert FoundFrom(buf, 0, codes[k]);
    var p := PrefixAt(buf, codes[k].0);
    if k + 1 < |codes| {
      assert FoundFrom(buf, 0, codes[k + 1]);
      var q := PrefixAt(buf, codes[k + 1].0);
    }
  }

  /** The fragmentation header is well formed: every fragment follows a start code, offsets
      strictly increase with exactly one start code between consecutive fragments, and the
      last fragment ends at the end of the buffer. */
  lemma FragmentationWellFormed(buf: seq<byte>)
    ensures forall k :: 0 <= k < |Fragmentation(buf)| ==> AfterStartCode(buf, Fragmentation(buf)[k])
    ensures forall k :: 0 <= k < |Fragmentation(buf)| - 1 ==>
              Consecutive(Fragmentation(buf)[k], Fragmentation(buf)[k + 1])
    ensures |Fragmentation(buf)| > 0 ==>
              Fragmentation(buf)[|Fragmentation(buf)| - 1].offset + Fragmentation(buf)[|Fragmentation(buf)| - 1].length == |buf|
  {
    forall k | 0 <= k < |Fragmentation(buf)| {
      FragmentFacts(buf, k);
    }
  }

  /** A sample of five bytes or fewer has no fragments: the scan does not start. */
  lemma ShortSampleHasNoFragments(buf: seq<byte>)
    requires |buf| <= 5
    ensures Fragmentation(buf) == [] && (IsKeyFrame(buf, false) == false)
  {
  }

  /** The loop bound of the scan as written: `sendBuffer.size() - 5` in `size_t` arithmetic. */
  function ScanBoundAsWritten(size: nat): (bound: int)
    ensures 5 <= size < SizeTModulus ==> bound == size - 5
    ensures size < 5 ==> bound >= SizeTModulus - 5
  {
    ToSizeT(size - 5)
  }

  /** The positions the scan as written visits in `mem` — the sample followed by whatever
      memory lies beyond it — from `i` under the loop bound `bound`, up to and including the
      first position at or past `stop`. After a start code the scan moves six bytes on, else one. */
  function ScanPositionsAsWritten(mem: seq<byte>, bound: int, i: nat, stop: nat): (ps: seq<nat>)
    requires stop + 6 <= |mem|
    ensures forall k :: 0 <= k < |ps| ==> i <= ps[k] < bound
    decreases stop - i
  {
    if i >= bound then []
    else if i >= stop then [i]
    else [i] + ScanPositionsAsWritten(mem, bound, if PrefixAt(mem, i) > 0 then i + 6 else i + 1, stop)
  }

  /** Below a bound at least six past `stop`, the scan from any `i <= stop` goes on until it
      visits a position in `[stop, stop + 6)`, whatever the bytes hold. */
  lemma {:induction false} ScanReaches(mem: seq<byte>, bound: int, i: nat, stop: nat)
    requires stop + 6 <= |mem| && i <= stop && stop + 6 <= bound
    ensures var ps := ScanPositionsAsWritten(mem, bound, i, stop);
            ps != [] && stop <= ps[|ps| - 1] < stop + 6
    decreases stop - i
  {
    if i < stop {
      var next := if PrefixAt(mem, i) > 0 then i + 6 else i + 1;
      if next <= stop {
        ScanReaches(mem, bound, next, stop);
      }
    }
  }

  /** A sample shorter than five bytes: the bound `size() - 5` wraps to within five of 2^64,
      which every `uint32_t` position is below, so the loop runs a step at a position at or past
      the end of the sample — and that step reads `ptr[0]`, outside the buffer — whatever the
      sample and the memory after it hold. */
  lemma ShortSampleOverreads(mem: seq<byte>, size: nat)
    requires size < 5 && size + 6 <= |mem|
    ensures var ps := ScanPositionsAsWritten(mem, ScanBoundAsWritten(size), 0, size);
            ps != [] && size <= ps[|ps| - 1] < size + 6 && ps[|ps| - 1] < UInt32Modulus
  {
    ScanReaches(mem, ScanBoundAsWritten(size), 0, size);
  }

  /** One position of the scan: a start code found at `i` is the next one reported, and the
      scan resumes six bytes further on; otherwise it resumes at the next byte. */
  lemma ScanStep(buf: seq<byte>, i: nat, p: nat, found: seq<(nat, nat)>, all: seq<(nat, nat)>, next: nat)
    requires i + 5 < |buf| && p == PrefixAt(buf, i)
    requires all == found + StartCodes(buf, i)
    requires next == if p > 0 then i + 6 else i + 1
    ensures p > 0 ==> all == (found + [(i, p)]) + StartCodes(buf, next)
    ensures p == 0 ==> all == found + StartCodes(buf, next)
  {
    if p > 0 {
      var rest := StartCodes(buf, i + 6);
      assert StartCodes(buf, i) == [(i, p)] + rest;
      assert found + ([(i, p)] + rest) == (found + [(i, p)]) + rest;
    }
  }

  /** Where the fragment of the last start code in `codes` begins (0 when there is none): the
      scan keeps that fragment open, with length 0, until it knows where it ends. */
  function OpenEnd(codes: seq<(nat, nat)>): (e: int)
    ensures codes != [] ==> e == FragmentsOf(codes, 0)[|codes| - 1].offset
  {
    if codes == [] then 0 else codes[|codes| - 1].0 + codes[|codes| - 1].1
  }

  /** Finding a start code opens a fragment after its prefix and closes the previous one at
      the start code. */
  lemma FragmentStep(frags: seq<Fragment>, found: seq<(nat, nat)>, i: nat, p: nat,
                     grown: seq<Fragment>, n: int, next: seq<Fragment>)
    requires frags == FragmentsOf(found, OpenEnd(found))
    requires grown == frags + [Fragment(i + p, 0)] && n == |frags|
    requires n == 0 ==> next == grown
    requires n > 0 ==> next == grown[n - 1 := grown[n - 1].(length := i - grown[n - 1].offset)]
    ensures next == FragmentsOf(found + [(i, p)], OpenEnd(found + [(i, p)]))
  {
    var found' := found + [(i, p)];
    var want := FragmentsOf(found', i + p);
    forall k | 0 <= k < |found'|
      ensures next[k] == want[k]
    {
      if k < |found| {
        assert found'[k] == found[k];
      }
      if k + 1 < |found| {
        assert found'[k + 1] == found[k + 1];
      }
    }
  }

  /** Once the scan position has passed `size - 6`, no start code is left to find. */
  lemma ScanEnded(buf: seq<byte>, i: nat, found: seq<(nat, nat)>)
    requires i + 5 >= |buf|
    requires StartCodes(buf, 0) == found + StartCodes(buf, i)
    ensures found == StartCodes(buf, 0)
  {
  }

  /** What the scan loop leaves, once the last fragment's length is set, is the
      fragmentation header and the frame type. */
  lemma ScanResult(buf: seq<byte>, cleanPoint: bool, found: seq<(nat, nat)>, frags: seq<Fragment>,
                   closed: seq<Fragment>, keyFrame: bool)
    requires found == StartCodes(buf, 0)
    requires frags == FragmentsOf(found, OpenEnd(found))
    requires keyFrame == (cleanPoint || AnyIdr(buf, found))
    requires var n := |frags|;
      closed == if n > 0 then frags[n - 1 := frags[n - 1].(length := |buf| - frags[n - 1].offset)] else frags
    ensures closed == Fragmentation(buf)
    ensures keyFrame == IsKeyFrame(buf, cleanPoint)
  {
    ClosedFragments(found, |buf|, frags, closed);
    KeyFrameByStartCodes(buf, cleanPoint);
  }

  /** Setting the open fragment's length to run to the end of a buffer of `size` bytes gives
      the fragments of `found` in that buffer. */
  lemma ClosedFragments(found: seq<(nat, nat)>, size: int, frags: seq<Fragment>, closed: seq<Fragment>)
    requires frags == FragmentsOf(found, OpenEnd(found))
    requires var n := |frags|;
      closed == if n > 0 then frags[n - 1 := frags[n - 1].(length := size - frags[n - 1].offset)] else frags
    ensures closed == FragmentsOf(found, size)
  {
    var want := FragmentsOf(found, size);
    forall k | 0 <= k < |found|
      ensures closed[k] == want[k]
    {
    }
  }

  /** Whether the NAL unit after the start code `c` is an IDR slice. */
  predicate IdrCode(buf: seq<byte>, c: (nat, nat))
  {
    c.0 + c.1 < |buf| && NalType(buf[c.0 + c.1]) == IdrNalType
  }

  /** Whether some start code in `codes` opens an IDR slice. */
  predicate AnyIdr(buf: seq<byte>, codes: seq<(nat, nat)>)
    decreases |codes|
  {
    codes != [] && (IdrCode(buf, codes[|codes| - 1]) || AnyIdr(buf, codes[..|codes| - 1]))
  }

  lemma AnyIdrAppend(buf: seq<byte>, codes: seq<(nat, nat)>, c: (nat, nat))
    ensures AnyIdr(buf, codes + [c]) == (AnyIdr(buf, codes) || IdrCode(buf, c))
  {
    assert (codes + [c])[..|codes|] == codes;
  }

  lemma {:induction false} AnyIdrMeaning(buf: seq<byte>, codes: seq<(nat, nat)>)
    ensures AnyIdr(buf, codes) <==> exists k :: 0 <= k < |codes| && IdrCode(buf, codes[k])
    decreases |codes|
  {
    if codes != [] {
      var n := |codes| - 1;
      AnyIdrMeaning(buf, codes[..n]);
      if exists k :: 0 <= k < |codes| && IdrCode(buf, codes[k]) {
        var k :| 0 <= k < |codes| && IdrCode(buf, codes[k]);
        if k < n {
          assert codes[..n][k] == codes[k];
        }
      }
      if AnyIdr(buf, codes[..n]) {
        var k :| 0 <= k < n && IdrCode(buf, codes[..n][k]);
        assert codes[k] == codes[..n][k];
      }
    }
  }

  /** The frame type can be read off the start codes. */
  lemma KeyFrameByStartCodes(buf: seq<byte>, cleanPoint: bool)
    ensures IsKeyFrame(buf, cleanPoint) == (cleanPoint || AnyIdr(buf, StartCodes(buf, 0)))
  {
    var codes := StartCodes(buf, 0);
    AnyIdrMeaning(buf, codes);
    IdrFragmentsAreIdrCodes(buf, codes);
    assert Fragmentation(buf) == FragmentsOf(codes, |buf|);
  }

  /** Some fragment of `codes` is an IDR slice exactly when some start code opens one. */
  lemma IdrFragmentsAreIdrCodes(buf: seq<byte>, codes: seq<(nat, nat)>)
    ensures (exists k :: 0 <= k < |codes| && IdrFragment(buf, FragmentsOf(codes, |buf|)[k]))
        == (exists k :: 0 <= k < |codes| && IdrCode(buf, codes[k]))
  {
    var frags := FragmentsOf(codes, |buf|);
    if exists k :: 0 <= k < |codes| && IdrCode(buf, codes[k]) {
      var k :| 0 <= k < |codes| && IdrCode(buf, codes[k]);
      assert IdrFragment(buf, frags[k]);
    }
    if exists k :: 0 <= k < |codes| && IdrFragment(buf, frags[k]) {
      var k :| 0 <= k < |codes| && IdrFragment(buf, frags[k]);
      assert IdrCode(buf, codes[k]);
    }
  }

  /** The attributes of a frame kept until its encoded sample comes back. */
  datatype Attributes = Attributes(timestamp: int, ntpTimeMs: int, renderTimeMs: int, width: int, height: int)

  /** A raw frame handed to `Encode` (after the quality scaler). */
  datatype Frame = Frame(timestamp: int, ntpTimeMs: int, renderTimeMs: int, width: int, height: int)

  /** A sample handed to the sink writer: its time and duration in 100 ns units, and whether it
      follows a dropped frame. */
  datatype Sample = Sample(timeHns: int, durationHns: int, discontinuity: bool)

  /** An image handed to the encode-complete callback. */
  datatype EncodedImage = EncodedImage(buffer: seq<byte>, keyFrame: bool, attributes: Attributes,
                                       fragments: seq<Fragment>)

  /** The sample time of an RTP timestamp (90 kHz) in 100 ns units, counted from the first
      frame's timestamp: whole milliseconds, each 10000 units. */
  function SampleTimeHns(timestamp: int, startTime: int): (t: int)
    ensures t % 10000 == 0
    ensures timestamp >= startTime ==> t >= 0
    ensures timestamp <= startTime ==> t <= 0
  {
    TruncDiv(timestamp - startTime, 90) * 10000
  }

  /** The first frame has sample time zero; later timestamps give later (or equal) sample
      times; a whole number of milliseconds after the start is converted exactly, and any
      timestamp less than a millisecond later maps to the same sample time. */
  lemma SampleTimeFacts(startTime: int, t1: int, t2: int, ms: nat)
    requires startTime <= t1 <= t2
    ensures SampleTimeHns(startTime, startTime) == 0
    ensures SampleTimeHns(t1, startTime) <= SampleTimeHns(t2, startTime)
    ensures SampleTimeHns(startTime + 90 * ms, startTime) == ms * 10000
    ensures t2 - t1 < 90 && (t1 - startTime) % 90 == 0 ==> SampleTimeHns(t1, startTime) == SampleTimeHns(t2, startTime)
    ensures SampleTimeHns(t1, startTime) % 10000 == 0
  {
  }

  /** `_sampleAttributeQueue.pop`: the attributes of the first entry with the key, and the
      queue without that entry. */
  function Pop(queue: seq<(int, Attributes)>, key: int): (r: (Option<Attributes>, seq<(int, Attributes)>))
    ensures r.0.None? <==> forall j :: 0 <= j < |queue| ==> queue[j].0 != key
    ensures r.0.None? ==> r.1 == queue
    ensures r.0.Some? ==> |r.1| == |queue| - 1 && (key, r.0.value) in queue
  {
    if queue == [] then (None, [])
    else if queue[0].0 == key then (Some(queue[0].1), queue[1..])
    else
      var rest := Pop(queue[1..], key);
      (rest.0, [queue[0]] + rest.1)
  }

  /** The attributes queued for a frame are found again by its sample time when no earlier
      entry has the same time, and the rest of the queue is kept in order. */
  lemma {:induction false} PushedAttributesPopped(queue: seq<(int, Attributes)>, key: int, a: Attributes)
    requires forall j :: 0 <= j < |queue| ==> queue[j].0 != key
    ensures Pop(queue + [(key, a)], key) == (Some(a), queue)
  {
    if queue != [] {
      assert (queue + [(key, a)])[1..] == queue[1..] + [(key, a)];
      PushedAttributesPopped(queue[1..], key, a);
      assert [queue[0]] + queue[1..] == queue;
    }
  }

  /** The settings `SetRates` arrives at for a non-zero frame rate: the bitrate is always the
      new one (in `uint32_t` arithmetic), the frame rate moves only by more than `FpsStep`,
      and whether anything changed. */
  function Rates(currentBps: int, currentFps: int, newKbit: int, newFps: int): (r: (int, int, bool))
    ensures r.0 == ToUInt32(newKbit * 1024)
    ensures r.1 != currentFps ==> r.1 == newFps && Abs(currentFps - newFps) > FpsStep
    ensures Abs(currentFps - newFps) > FpsStep ==> r.1 == newFps
    ensures r.2 <==> r.0 != currentBps || r.1 != currentFps
  {
    var bps := ToUInt32(newKbit * 1024);
    var fps := if currentFps != newFps && Abs(currentFps - newFps) > FpsStep then newFps else currentFps;
    (bps, fps, bps != currentBps || fps != currentFps)
  }

  /** A change that arrives too soon after the last reconfiguration is recorded but not
      applied, and the same call made later finds nothing to change, so the encoder is not
      reconfigured for it. */
  lemma DeferredRatesNotRetried(currentBps: int, currentFps: int, newKbit: int, newFps: int)
    ensures var r := Rates(currentBps, currentFps, newKbit, newFps);
      !Rates(r.0, r.1, newKbit, newFps).2
  {
  }

  class Encoder {
    var inited: bool
    /** Whether `sinkWriter_` is set. */
    var hasSinkWriter: bool
    var hasCallback: bool
    var firstFrame: bool
    var startTime: int
    var lastTimestampHns: int
    var framePendingCount: int
    /** `frameCount_`, a `DWORD`. */
    var frameCount: int
    var lastFrameDropped: bool
    var currentWidth: int
    var currentHeight: int
    var currentBitrateBps: int
    var currentFps: int
    var lastSettingsChangeMs: int
    /** `_sampleAttributeQueue`, keyed by sample time. */
    var queue: seq<(int, Attributes)>
    /** Key frames forced on the sink writer. */
    var forcedKeyFrames: nat
    /** Samples handed to the sink writer, and the end-of-segment notifications. */
    var written: seq<Sample>
    var segmentEnds: nat
    /** Stream ticks sent for dropped frames. */
    var streamTicks: seq<int>
    /** Images handed to the encode-complete callback. */
    var delivered: seq<EncodedImage>

    constructor()
      ensures !inited && !hasSinkWriter && !hasCallback && firstFrame
      ensures startTime == 0 && lastTimestampHns == 0 && framePendingCount == 0 && frameCount == 0
      ensures !lastFrameDropped && currentWidth == 0 && currentHeight == 0
      ensures currentBitrateBps == 0 && currentFps == 0
      ensures queue == [] && forcedKeyFrames == 0 && written == [] && segmentEnds == 0
      ensures streamTicks == [] && delivered == []
    {
      inited := false;
      hasSinkWriter := false;
      hasCallback := false;
      firstFrame := true;
      startTime := 0;
      lastTimestampHns := 0;
      framePendingCount := 0;
      frameCount := 0;
      lastFrameDropped := false;
      currentWidth := 0;
      currentHeight := 0;
      currentBitrateBps := 0;
      currentFps := 0;
      lastSettingsChangeMs := 0;
      queue := [];
      forcedKeyFrames := 0;
      written := [];
      segmentEnds := 0;
      streamTicks := [];
      delivered := [];
    }

    /** `InitEncoderWithSettings`: `hr` is the first failing Media Foundation result (zero when
        every call succeeds) and `sinkWriterCreated` whether a sink writer was made. */
    method InitEncoderWithSettings(hr: int, sinkWriterCreated: bool, nowMs: int) returns (rv: int)
      requires hr == 0 ==> sinkWriterCreated
      modifies this`hasSinkWriter, this`inited, this`lastSettingsChangeMs
      ensures rv == hr && hasSinkWriter == sinkWriterCreated
      ensures inited == (old(inited) || hr == 0)
      ensures lastSettingsChangeMs == if hr == 0 then nowMs else old(lastSettingsChangeMs)
    {
      hasSinkWriter := sinkWriterCreated;
      if hr == 0 {
        inited := true;
        lastSettingsChangeMs := nowMs;
        return 0;
      }
      rv := hr;
    }

    /** `InitEncode`: the bitrate is the target in kbit/s times 1024, or two bits per pixel
        without a target. */
    method InitEncode(width: nat, height: nat, targetBitrateKbit: nat, maxFramerate: nat,
                      hr: int, sinkWriterCreated: bool, nowMs: int) returns (rv: int)
      requires hr == 0 ==> sinkWriterCreated
      modifies this
      ensures currentWidth == width && currentHeight == height && currentFps == maxFramerate
      ensures currentBitrateBps == if targetBitrateKbit > 0 then ToUInt32(targetBitrateKbit * 1024)
                                   else ToUInt32(width * height * 2)
      ensures rv == hr && hasSinkWriter == sinkWriterCreated && inited == (old(inited) || hr == 0)
      ensures queue == old(queue) && hasCallback == old(hasCallback)
    {
      currentWidth := width;
      currentHeight := height;
      currentBitrateBps := if targetBitrateKbit > 0 then ToUInt32(targetBitrateKbit * 1024)
                           else ToUInt32(width * height * 2);
      currentFps := maxFramerate;
      rv := InitEncoderWithSettings(hr, sinkWriterCreated, nowMs);
    }

    method RegisterEncodeCompleteCallback(present: bool) returns (rv: int)
      modifies this
      ensures hasCallback == present && rv == CodecOk
      ensures inited == old(inited) && hasSinkWriter == old(hasSinkWriter) && queue == old(queue)
      ensures delivered == old(delivered) && framePendingCount == old(framePendingCount)
    {
      hasCallback := present;
      rv := CodecOk;
    }

    /** `Release`: the sink writer is dropped, the timing restarts with the next frame, the
        queue is emptied and the callback forgotten; the settings stay. */
    method Release() returns (rv: int)
      modifies this`hasSinkWriter, this`startTime, this`lastTimestampHns, this`firstFrame, this`inited
      modifies this`framePendingCount, this`queue, this`hasCallback
      ensures rv == CodecOk
      ensures !hasSinkWriter && !inited && !hasCallback && firstFrame
      ensures startTime == 0 && lastTimestampHns == 0 && framePendingCount == 0 && queue == []
    {
      hasSinkWriter := false;
      startTime := 0;
      lastTimestampHns := 0;
      firstFrame := true;
      inited := false;
      framePendingCount := 0;
      queue := [];
      hasCallback := false;
      rv := CodecOk;
    }

    /** The restart `FromVideoFrame` and `SetRates` perform: `Release` keeping the callback,
        then `InitEncoderWithSettings`. */
    method Restart(hr: int, sinkWriterCreated: bool, nowMs: int)
      requires hr == 0 ==> sinkWriterCreated
      modifies this`hasSinkWriter, this`startTime, this`lastTimestampHns, this`firstFrame, this`inited
      modifies this`framePendingCount, this`queue, this`hasCallback, this`lastSettingsChangeMs
      ensures hasSinkWriter == sinkWriterCreated && inited == (hr == 0)
      ensures lastSettingsChangeMs == if hr == 0 then nowMs else old(lastSettingsChangeMs)
      ensures hasCallback == old(hasCallback) && firstFrame
      ensures startTime == 0 && lastTimestampHns == 0 && framePendingCount == 0 && queue == []
    {
      var callback := hasCallback;
      var _ := Release();
      hasCallback := callback;
      var _ := InitEncoderWithSettings(hr, sinkWriterCreated, nowMs);
    }

    /** The resolution check of `FromVideoFrame`: a frame of another size restarts the
        encoder at that size. */
    method FollowResolution(width: int, height: int, hr: int, sinkWriterCreated: bool, nowMs: int)
      requires hr == 0 ==> sinkWriterCreated
      modifies this`hasSinkWriter, this`startTime, this`lastTimestampHns, this`firstFrame, this`inited
      modifies this`framePendingCount, this`queue, this`hasCallback, this`lastSettingsChangeMs
      modifies this`currentWidth, this`currentHeight
      ensures currentWidth == width && currentHeight == height
      ensures width != old(currentWidth) || height != old(currentHeight) ==>
        && hasSinkWriter == sinkWriterCreated && inited == (hr == 0) && firstFrame
        && startTime == 0 && lastTimestampHns == 0 && framePendingCount == 0 && queue == []
      ensures width == old(currentWidth) && height == old(currentHeight) ==>
        && hasSinkWriter == old(hasSinkWriter) && inited == old(inited) && firstFrame == old(firstFrame)
        && startTime == old(startTime) && lastTimestampHns == old(lastTimestampHns)
        && framePendingCount == old(framePendingCount) && queue == old(queue)
      ensures hasCallback == old(hasCallback)
    {
      if width != currentWidth || height != currentHeight {
        Restart(hr, sinkWriterCreated, nowMs);
        currentWidth := width;
        currentHeight := height;
      }
    }

    /** `FromVideoFrame`: a resolution change restarts the encoder first, with the Media
        Foundation answers `hr` and `sinkWriterCreated`; the first frame after a (re)start
        fixes the start time; the frame's attributes are queued under its sample time. */
    method FromVideoFrame(frame: Frame, hr: int, sinkWriterCreated: bool, nowMs: int) returns (sample: Sample)
      requires hr == 0 ==> sinkWriterCreated
      modifies this`hasSinkWriter, this`startTime, this`lastTimestampHns, this`firstFrame, this`inited
      modifies this`framePendingCount, this`queue, this`hasCallback, this`lastSettingsChangeMs
      modifies this`currentWidth, this`currentHeight, this`lastFrameDropped
      ensures
        var restart := frame.width != old(currentWidth) || frame.height != old(currentHeight);
        var start := if old(firstFrame) || restart then frame.timestamp else old(startTime);
        var t := SampleTimeHns(frame.timestamp, start);
        var last := if restart then 0 else old(lastTimestampHns);
        && sample == Sample(t, t - last, old(lastFrameDropped))
        && startTime == start && !firstFrame && lastTimestampHns == t && !lastFrameDropped
        && queue == (if restart then [] else old(queue))
                    + [(t, Attributes(frame.timestamp, frame.ntpTimeMs, frame.renderTimeMs, frame.width, frame.height))]
        && currentWidth == frame.width && currentHeight == frame.height
        && framePendingCount == (if restart then 0 else old(framePendingCount))
        && (restart ==> hasSinkWriter == sinkWriterCreated && inited == (hr == 0))
        && (!restart ==> hasSinkWriter == old(hasSinkWriter) && inited == old(inited))
      ensures hasCallback == old(hasCallback)
    {
      ghost var restart := frame.width != currentWidth || frame.height != currentHeight;
      ghost var queue0, pending0 := queue, framePendingCount;
      FollowResolution(frame.width, frame.height, hr, sinkWriterCreated, nowMs);
      assert queue == (if restart then [] else queue0);
      assert framePendingCount == (if restart then 0 else pending0);
      sample := Stamp(frame);
    }

    /** The part of `FromVideoFrame` after the resolution check: the first frame fixes the
        start time, and the frame's attributes are queued under its sample time. */
    method Stamp(frame: Frame) returns (sample: Sample)
      modifies this`startTime, this`lastTimestampHns, this`firstFrame, this`queue, this`lastFrameDropped
      ensures
        var start := if old(firstFrame) then frame.timestamp else old(startTime);
        var t := SampleTimeHns(frame.timestamp, start);
        && sample == Sample(t, t - old(lastTimestampHns), old(lastFrameDropped))
        && startTime == start && !firstFrame && lastTimestampHns == t && !lastFrameDropped
        && queue == old(queue)
                    + [(t, Attributes(frame.timestamp, frame.ntpTimeMs, frame.renderTimeMs, frame.width, frame.height))]
    {
      if firstFrame {
        firstFrame := false;
        startTime := frame.timestamp;
      }
      var timeHns := SampleTimeHns(frame.timestamp, startTime);
      var durationHns := timeHns - lastTimestampHns;
      lastTimestampHns := timeHns;
      queue := queue + [(timeHns, Attributes(frame.timestamp, frame.ntpTimeMs, frame.renderTimeMs,
                                              frame.width, frame.height))];
      sample := Sample(timeHns, durationHns, lastFrameDropped);
      lastFrameDropped := false;
    }

    /** `Encode` of `frame`, with `keyFrameRequested` whether a key frame is asked for: an
        uninitialised encoder refuses the frame, a full attribute queue drops it, and
        otherwise the sample `FromVideoFrame` makes is written and the frame is pending. */
    method Encode(frame: Frame, keyFrameRequested: bool, hr: int, sinkWriterCreated: bool, nowMs: int)
      returns (rv: int)
      requires hr == 0 ==> sinkWriterCreated
      modifies this`hasSinkWriter, this`startTime, this`lastTimestampHns, this`firstFrame, this`inited
      modifies this`framePendingCount, this`queue, this`hasCallback, this`lastSettingsChangeMs
      modifies this`currentWidth, this`currentHeight, this`lastFrameDropped
      modifies this`forcedKeyFrames, this`written, this`frameCount, this`segmentEnds
      ensures !old(inited) ==>
        && rv == EncodeUninitialized && queue == old(queue) && written == old(written)
        && framePendingCount == old(framePendingCount) && frameCount == old(frameCount)
        && forcedKeyFrames == old(forcedKeyFrames)
      ensures old(inited) ==> rv == CodecOk
      ensures old(inited) ==> forcedKeyFrames == old(forcedKeyFrames) + (if keyFrameRequested then 1 else 0)
      ensures old(inited) && |old(queue)| > MaxQueuedAttributes ==>
        && queue == old(queue) && written == old(written) && framePendingCount == old(framePendingCount)
        && frameCount == old(frameCount) && lastTimestampHns == old(lastTimestampHns)
      ensures old(inited) && |old(queue)| <= MaxQueuedAttributes ==>
        var restart := frame.width != old(currentWidth) || frame.height != old(currentHeight);
        var start := if old(firstFrame) || restart then frame.timestamp else old(startTime);
        var t := SampleTimeHns(frame.timestamp, start);
        var last := if restart then 0 else old(lastTimestampHns);
        && startTime == start && lastTimestampHns == t
        && queue == (if restart then [] else old(queue))
                    + [(t, Attributes(frame.timestamp, frame.ntpTimeMs, frame.renderTimeMs, frame.width, frame.height))]
        && written == old(written) + [Sample(t, t - last, old(lastFrameDropped))]
        && !lastFrameDropped
        && frameCount == ToUInt32(old(frameCount) + 1)
        && segmentEnds == old(segmentEnds) + (if frameCount % FramesPerSegment == 0 then 1 else 0)
        && framePendingCount == (if restart then 0 else old(framePendingCount)) + 1
      ensures |old(queue)| <= MaxQueuedAttributes + 1 ==> |queue| <= MaxQueuedAttributes + 1
      ensures hasCallback == old(hasCallback)
    {
      if !inited {
        return EncodeUninitialized;
      }
      if keyFrameRequested {
        forcedKeyFrames := forcedKeyFrames + 1;
      }
      if |queue| > MaxQueuedAttributes {
        return CodecOk;
      }
      var sample := FromVideoFrame(frame, hr, sinkWriterCreated, nowMs);
      written := written + [sample];
      frameCount := ToUInt32(frameCount + 1);
      if frameCount % FramesPerSegment == 0 {
        segmentEnds := segmentEnds + 1;
      }
      framePendingCount := framePendingCount + 1;
      rv := CodecOk;
    }

    /** The start-code scan of `OnH264Encoded`: the fragmentation header and the frame type.
        The length of the last fragment is set after the scan. */
    static method ScanFragments(buf: seq<byte>, cleanPoint: bool) returns (frags: seq<Fragment>, keyFrame: bool)
      ensures frags == Fragmentation(buf)
      ensures keyFrame == IsKeyFrame(buf, cleanPoint)
    {
      var found;
      frags, keyFrame, found := ScanStartCodes(buf, cleanPoint);
      ghost var open := frags;
      var n := |frags|;
      if n > 0 {
        frags := frags[n - 1 := frags[n - 1].(length := |buf| - frags[n - 1].offset)];
      }
      ScanResult(buf, cleanPoint, found, open, frags, keyFrame);
    }

    /** The scan loop: a fragment starts after each start code found, and its length is set
        when the next start code is found. `found` lists the offset and length of every
        start code, in order. */
    static method ScanStartCodes(buf: seq<byte>, cleanPoint: bool)
      returns (frags: seq<Fragment>, keyFrame: bool, found: seq<(nat, nat)>)
      ensures found == StartCodes(buf, 0)
      ensures frags == FragmentsOf(found, OpenEnd(found))
      ensures keyFrame == (cleanPoint || AnyIdr(buf, found))
    {
      found := [];
      frags := [];
      keyFrame := cleanPoint;
      var i: nat := 0;
      ghost var all := StartCodes(buf, 0);
      while i + 5 < |buf|
        invariant all == found + StartCodes(buf, i)
        invariant frags == FragmentsOf(found, OpenEnd(found))
        invariant keyFrame == (cleanPoint || AnyIdr(buf, found))
        decreases |buf| - i
      {
        var prefix := PrefixAt(buf, i);
        ghost var next: nat := if prefix > 0 then i + 6 else i + 1;
        ScanStep(buf, i, prefix, found, all, next);
        if prefix > 0 && NalType(buf[i + prefix]) == IdrNalType {
          keyFrame := true;
        }
        if prefix > 0 {
          AnyIdrAppend(buf, found, (i, prefix));
          var n := |frags|;
          ghost var before := frags;
          frags := frags + [Fragment(i + prefix, 0)];
          ghost var grown := frags;
          if n > 0 {
            frags := frags[n - 1 := frags[n - 1].(length := i - frags[n - 1].offset)];
          }
          FragmentStep(before, found, i, prefix, grown, n, frags);
          found := found + [(i, prefix)];
          i := i + 5;
        }
        i := i + 1;
        assert i == next;
      }
      ScanEnded(buf, i, found);
    }

    /** `OnH264Encoded` of a sample with the bytes `buf`, the clean-point attribute and the
        sample time. An empty sample is ignored. Otherwise the frame is no longer pending, and
        with a callback registered the frame's attributes are taken from the queue and the
        image is delivered; a sample whose attributes are missing is not delivered. */
    method OnH264Encoded(buf: seq<byte>, cleanPoint: bool, sampleTimeHns: int)
      modifies this
      ensures buf == [] ==>
        framePendingCount == old(framePendingCount) && queue == old(queue) && delivered == old(delivered)
      ensures buf != [] ==> framePendingCount == old(framePendingCount) - 1
      ensures buf != [] && !old(hasCallback) ==> queue == old(queue) && delivered == old(delivered)
      ensures buf != [] && old(hasCallback) ==>
        var (attributes, rest) := Pop(old(queue), sampleTimeHns);
        && queue == rest
        && delivered == old(delivered)
             + (if attributes.Some?
                then [EncodedImage(buf, IsKeyFrame(buf, cleanPoint), attributes.value, Fragmentation(buf))]
                else [])
      ensures inited == old(inited) && hasSinkWriter == old(hasSinkWriter) && hasCallback == old(hasCallback)
      ensures written == old(written) && startTime == old(startTime)
    {
      if |buf| == 0 {
        return;
      }
      var frags, keyFrame := ScanFragments(buf, cleanPoint);
      framePendingCount := framePendingCount - 1;
      if !hasCallback {
        return;
      }
      var popped := Pop(queue, sampleTimeHns);
      if popped.0.None? {
        return;
      }
      queue := popped.1;
      delivered := delivered + [EncodedImage(buf, keyFrame, popped.0.value, frags)];
    }

    /** `SetRates` with the bitrate in kbit/s and the frame rate; a change of settings restarts
        the encoder unless the last restart was less than `SettingsHoldMs` ago, in which case
        the new settings are recorded without a restart. */
    method SetRates(newKbit: nat, newFps: nat, nowMs: int, hr: int, sinkWriterCreated: bool) returns (rv: int)
      requires hr == 0 ==> sinkWriterCreated
      modifies this
      ensures newFps == 0 ==>
        && rv == CodecOk && currentBitrateBps == old(currentBitrateBps)
        && currentFps == old(currentFps) && hasSinkWriter == old(hasSinkWriter) && queue == old(queue)
      ensures newFps != 0 && !old(hasSinkWriter) ==>
        && rv == CodecUninitialized && currentBitrateBps == old(currentBitrateBps)
        && currentFps == old(currentFps) && queue == old(queue)
      ensures newFps != 0 && old(hasSinkWriter) ==>
        var (bps, fps, changed) := Rates(old(currentBitrateBps), old(currentFps), newKbit, newFps);
        var restart := changed && nowMs - old(lastSettingsChangeMs) >= SettingsHoldMs;
        && rv == CodecOk
        && currentBitrateBps == bps && currentFps == fps
        && (restart ==> hasSinkWriter == sinkWriterCreated && inited == (hr == 0) && queue == [])
        && (!restart ==> hasSinkWriter == old(hasSinkWriter) && inited == old(inited) && queue == old(queue))
      ensures hasCallback == old(hasCallback) && delivered == old(delivered) && written == old(written)
    {
      if newFps == 0 {
        return CodecOk;
      }
      if !hasSinkWriter {
        return CodecUninitialized;
      }
      var bitrateUpdated := false;
      var fpsUpdated := false;
      if currentBitrateBps != ToUInt32(newKbit * 1024) {
        currentBitrateBps := ToUInt32(newKbit * 1024);
        bitrateUpdated := true;
      }
      if currentFps != newFps && Abs(currentFps - newFps) > FpsStep {
        currentFps := newFps;
        fpsUpdated := true;
      }
      if bitrateUpdated || fpsUpdated {
        if nowMs - lastSettingsChangeMs < SettingsHoldMs {
          return CodecOk;
        }
        Restart(hr, sinkWriterCreated, nowMs);
      }
      rv := CodecOk;
    }

    /** `OnDroppedFrame`: the next sample is marked as a discontinuity, and a stream tick at
        the dropped frame's sample time is sent when there is a sink writer. */
    method OnDroppedFrame(timestamp: int)
      modifies this
      ensures lastFrameDropped
      ensures streamTicks == old(streamTicks) + (if hasSinkWriter then [SampleTimeHns(timestamp, startTime)] else [])
      ensures inited == old(inited) && hasSinkWriter == old(hasSinkWriter) && startTime == old(startTime)
      ensures queue == old(queue) && written == old(written) && delivered == old(delivered)
    {
      var timeHns := SampleTimeHns(timestamp, startTime);
      lastFrameDropped := true;
      if hasSinkWriter {
        streamTicks := streamTicks + [timeHns];
      }
    }
  }
}
