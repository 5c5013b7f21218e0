/** The dynamic rate adjuster of the Android hardware encoder: it accumulates how far
    the encoder's output deviates from the target bitrate and, every three seconds of
    frame time, moves a bounded integer correction exponent. Java `double` fields are
    modelled as `real`. */
module DynamicBitrateAdjuster {
  import opened Common

  const BitrateCorrectionSec: real := 3.0
  const BitrateCorrectionSteps: int := 20

  /** The adjuster's fields as one value. */
  datatype State = State(
    targetBitrateBps: int,
    fps: int,
    deviationBytes: real,
    deviationThresholdBytes: real,
    timeSinceLastAdjustmentMs: real,
    scaleExp: int)

  /** The field initialisers. */
  const Initial: State := State(0, 0, 0.0, 0.0, 0.0, 0)

  function RAbs(x: real): real { if x < 0.0 then -x else x }

  /** `Math.max(Math.min(x, cap), -cap)`. */
  function CapDeviation(x: real, cap: real): (r: real)
    ensures RAbs(r) <= RAbs(cap)
    ensures cap >= 0.0 && -cap <= x <= cap ==> r == x
    ensures cap >= 0.0 && x > cap ==> r == cap
    ensures x < -cap ==> r == -cap
    ensures cap < 0.0 ==> r == -cap
  {
    var lowered := if x <= cap then x else cap;
    if lowered >= -cap then lowered else -cap
  }

  /** `Math.max(Math.min(e, 20), -20)`. */
  function ClampExp(e: int): (r: int)
    ensures -BitrateCorrectionSteps <= r <= BitrateCorrectionSteps
    ensures -BitrateCorrectionSteps <= e <= BitrateCorrectionSteps ==> r == e
  {
    if e > BitrateCorrectionSteps then BitrateCorrectionSteps
    else if e < -BitrateCorrectionSteps then -BitrateCorrectionSteps
    else e
  }

  /** The exponent invariant every adjuster keeps. */
  predicate ExpInRange(s: State)
  {
    -BitrateCorrectionSteps <= s.scaleExp <= BitrateCorrectionSteps
  }

  /** The relation `setRates` establishes between the threshold and the target. */
  predicate ThresholdMatchesTarget(s: State)
  {
    s.deviationThresholdBytes == s.targetBitrateBps as real / 8.0
  }

  /** Expected bytes per frame at the current target. */
  function ExpectedBytesPerFrame(targetBitrateBps: int, fps: int): (r: real)
    requires fps != 0
    ensures r * fps as real * 8.0 == targetBitrateBps as real
    ensures fps > 0 && targetBitrateBps > 0 ==> r > 0.0
  {
    targetBitrateBps as real / (8.0 * fps as real)
  }

  /** Frame time added by one report, in milliseconds. */
  function FrameDurationMs(fps: int): (r: real)
    requires fps != 0
    ensures r * fps as real == 1000.0
    ensures fps > 0 ==> r > 0.0
  {
    1000.0 / fps as real
  }

  /** The adjustment check of `reportEncodedFrame`, given the capped deviation and the
      accumulated frame time. */
  function AdjustStep(s: State, capped: real, time: real): (res: (State, bool))
    requires RAbs(capped) <= BitrateCorrectionSec * RAbs(s.deviationThresholdBytes)
    ensures RAbs(res.0.deviationBytes) <= BitrateCorrectionSec * RAbs(s.deviationThresholdBytes)
    ensures res.0.targetBitrateBps == s.targetBitrateBps && res.0.fps == s.fps
    ensures res.0.deviationThresholdBytes == s.deviationThresholdBytes
    ensures res.1 <==> (time > 1000.0 * BitrateCorrectionSec &&
      (capped > s.deviationThresholdBytes || capped < -s.deviationThresholdBytes))
    ensures !res.1 ==> res.0.scaleExp == s.scaleExp && res.0.deviationBytes == capped
    ensures res.1 ==> ExpInRange(res.0)
    ensures res.1 && capped > s.deviationThresholdBytes ==>
      && res.0.scaleExp == ClampExp(s.scaleExp - TruncToInt(capped / s.deviationThresholdBytes + 0.5))
      && res.0.deviationBytes == s.deviationThresholdBytes
    ensures res.1 && !(capped > s.deviationThresholdBytes) ==>
      && capped < -s.deviationThresholdBytes
      && res.0.scaleExp == ClampExp(s.scaleExp + TruncToInt(-capped / s.deviationThresholdBytes + 0.5))
      && res.0.deviationBytes == -s.deviationThresholdBytes
    ensures res.0.timeSinceLastAdjustmentMs == if time > 1000.0 * BitrateCorrectionSec then 0.0 else time
  {
    var thr := s.deviationThresholdBytes;
    if time > 1000.0 * BitrateCorrectionSec then
      if capped > thr then
        var inc := TruncToInt(capped / thr + 0.5);
        (s.(deviationBytes := thr, timeSinceLastAdjustmentMs := 0.0,
            scaleExp := ClampExp(s.scaleExp - inc)), true)
      else if capped < -thr then
        var inc := TruncToInt(-capped / thr + 0.5);
        (s.(deviationBytes := -thr, timeSinceLastAdjustmentMs := 0.0,
            scaleExp := ClampExp(s.scaleExp + inc)), true)
      else
        (s.(deviationBytes := capped, timeSinceLastAdjustmentMs := 0.0), false)
    else
      (s.(deviationBytes := capped, timeSinceLastAdjustmentMs := time), false)
  }

  /** The check overwrites the deviation and the clock: the values they held before it do not matter. */
  lemma AdjustStepReplaces(s: State, t: State)
    requires t == s.(deviationBytes := t.deviationBytes, timeSinceLastAdjustmentMs := t.timeSinceLastAdjustmentMs)
    requires RAbs(t.deviationBytes) <= BitrateCorrectionSec * RAbs(s.deviationThresholdBytes)
    ensures AdjustStep(t, t.deviationBytes, t.timeSinceLastAdjustmentMs)
         == AdjustStep(s, t.deviationBytes, t.timeSinceLastAdjustmentMs)
  {
  }

  /** `reportEncodedFrame(size)`: the new fields and the returned flag. */
  function Report(s: State, size: int): (res: (State, bool))
    ensures s.fps == 0 ==> res == (s, false)
    ensures s.fps != 0 ==>
      RAbs(res.0.deviationBytes) <= BitrateCorrectionSec * RAbs(s.deviationThresholdBytes)
    ensures res.0.targetBitrateBps == s.targetBitrateBps && res.0.fps == s.fps
    ensures res.0.deviationThresholdBytes == s.deviationThresholdBytes
    ensures !res.1 ==> res.0.scaleExp == s.scaleExp
    ensures ExpInRange(s) ==> ExpInRange(res.0)
    ensures res.1 ==> res.0.timeSinceLastAdjustmentMs == 0.0
  {
    if s.fps == 0 then (s, false)
    else
      var dev := s.deviationBytes + (size as real - ExpectedBytesPerFrame(s.targetBitrateBps, s.fps));
      var time := s.timeSinceLastAdjustmentMs + FrameDurationMs(s.fps);
      AdjustStep(s, CapDeviation(dev, BitrateCorrectionSec * s.deviationThresholdBytes), time)
  }

  /** With a non-zero frame rate a report adds the frame's excess to the capped
      deviation and one frame duration to the clock; the check fires only past three
      seconds, resets the clock, and returns true exactly when the capped deviation is
      beyond the threshold, whether or not clamping then moves the exponent. */
  lemma ReportOutcome(s: State, size: int)
    requires s.fps != 0
    ensures var time := s.timeSinceLastAdjustmentMs + FrameDurationMs(s.fps);
      var capped := CapDeviation(s.deviationBytes + (size as real - ExpectedBytesPerFrame(s.targetBitrateBps, s.fps)),
                                 BitrateCorrectionSec * s.deviationThresholdBytes);
      var r := Report(s, size);
      && (r.1 <==> time > 1000.0 * BitrateCorrectionSec &&
                   (capped > s.deviationThresholdBytes || capped < -s.deviationThresholdBytes))
      && r.0.timeSinceLastAdjustmentMs == (if time > 1000.0 * BitrateCorrectionSec then 0.0 else time)
      && (r.1 && capped > s.deviationThresholdBytes ==> r.0.deviationBytes == s.deviationThresholdBytes)
      && (r.1 && capped < -s.deviationThresholdBytes ==> r.0.deviationBytes == -s.deviationThresholdBytes)
      && (!r.1 ==> r.0.deviationBytes == capped)
  {
  }

  /** `setRates(targetBitrateBps, targetFps)`. */
  function WithRates(s: State, targetBitrateBps: int, targetFps: int): (r: State)
    ensures ThresholdMatchesTarget(r)
    ensures r.targetBitrateBps == targetBitrateBps && r.fps == targetFps
    ensures r.scaleExp == s.scaleExp && r.timeSinceLastAdjustmentMs == s.timeSinceLastAdjustmentMs
    ensures !(s.targetBitrateBps > 0 && targetBitrateBps < s.targetBitrateBps) ==>
      r.deviationBytes == s.deviationBytes
    ensures s.targetBitrateBps > 0 && targetBitrateBps < s.targetBitrateBps ==>
      r.deviationBytes * s.targetBitrateBps as real == s.deviationBytes * targetBitrateBps as real
  {
    var dev :=
      if s.targetBitrateBps > 0 && targetBitrateBps < s.targetBitrateBps
      then s.deviationBytes * targetBitrateBps as real / s.targetBitrateBps as real
      else s.deviationBytes;
    s.(deviationThresholdBytes := targetBitrateBps as real / 8.0, deviationBytes := dev,
       targetBitrateBps := targetBitrateBps, fps := targetFps)
  }

  /** The power of 4 that `getBitrateBps` applies to the target: exponent / 20. */
  function CorrectionPower(s: State): (p: real)
    requires ExpInRange(s)
    ensures -1.0 <= p <= 1.0
    ensures s.scaleExp == 0 <==> p == 0.0
  {
    s.scaleExp as real / BitrateCorrectionSteps as real
  }

  lemma QuotientInRange(x: real, t: real)
    requires 0.0 < t < x <= 3.0 * t
    ensures 1.0 < x / t <= 3.0
    ensures 1 <= TruncToInt(x / t + 0.5) <= 3
  {
    var q := x / t;
    assert q * t == x;
  }

  /** When an adjustment is signalled with a non-negative target, the exponent moves by
      `round(|deviation| / threshold)`, which the cap keeps between 1 and 3 before clamping:
      at most three steps per three-second cycle, down when the encoder overshoots the
      target and up when it undershoots. Only clamping at the bound can hold it still. */
  lemma AdjustStepIsSmall(s: State, capped: real, time: real)
    requires s.deviationThresholdBytes >= 0.0 && ExpInRange(s)
    requires RAbs(capped) <= BitrateCorrectionSec * s.deviationThresholdBytes
    requires AdjustStep(s, capped, time).1
    ensures var e := AdjustStep(s, capped, time).0.scaleExp;
      capped > s.deviationThresholdBytes ==>
        s.scaleExp - 3 <= e <= s.scaleExp && (e < s.scaleExp || e == -BitrateCorrectionSteps)
    ensures var e := AdjustStep(s, capped, time).0.scaleExp;
      capped < -s.deviationThresholdBytes ==>
        s.scaleExp <= e <= s.scaleExp + 3 && (e > s.scaleExp || e == BitrateCorrectionSteps)
  {
    var thr := s.deviationThresholdBytes;
    if capped > thr {
      QuotientInRange(capped, thr);
    } else {
      QuotientInRange(-capped, thr);
    }
  }

  lemma ReportStepIsSmall(s: State, size: int)
    requires ThresholdMatchesTarget(s) && s.targetBitrateBps >= 0 && ExpInRange(s)
    requires Report(s, size).1
    ensures var e := Report(s, size).0.scaleExp;
      (e < s.scaleExp && s.scaleExp - 3 <= e) || (e > s.scaleExp && e <= s.scaleExp + 3)
      || e == s.scaleExp == BitrateCorrectionSteps || e == s.scaleExp == -BitrateCorrectionSteps
  {
    var dev := s.deviationBytes + (size as real - ExpectedBytesPerFrame(s.targetBitrateBps, s.fps));
    var capped := CapDeviation(dev, BitrateCorrectionSec * s.deviationThresholdBytes);
    AdjustStepIsSmall(s, capped, s.timeSinceLastAdjustmentMs + FrameDurationMs(s.fps));
  }

  /** The flags returned by a run of reports. */
  function Signals(s: State, sizes: seq<int>): (r: seq<bool>)
    ensures |r| == |sizes|
    decreases |sizes|
  {
    if sizes == [] then [] else [Report(s, sizes[0]).1] + Signals(Report(s, sizes[0]).0, sizes[1..])
  }

  /** The state after a run of reports. */
  function Run(s: State, sizes: seq<int>): State
    decreases |sizes|
  {
    if sizes == [] then s else Run(Report(s, sizes[0]).0, sizes[1..])
  }

  /** An encoder that produces exactly the expected number of bytes per frame never
      triggers an adjustment, provided the deviation has settled within the threshold. */
  lemma {:induction false} ExactBudgetNeverAdjusts(s: State, sizes: seq<int>)
    requires s.fps > 0 && ThresholdMatchesTarget(s) && s.targetBitrateBps >= 0
    requires RAbs(s.deviationBytes) <= s.deviationThresholdBytes
    requires forall i :: 0 <= i < |sizes| ==> sizes[i] as real == ExpectedBytesPerFrame(s.targetBitrateBps, s.fps)
    ensures forall i :: 0 <= i < |sizes| ==> !Signals(s, sizes)[i]
    ensures Run(s, sizes).scaleExp == s.scaleExp
    ensures Run(s, sizes).deviationBytes == s.deviationBytes
    decreases |sizes|
  {
    if sizes != [] {
      var s' := Report(s, sizes[0]).0;
      assert !Report(s, sizes[0]).1;
      assert s'.deviationBytes == s.deviationBytes;
      ExactBudgetNeverAdjusts(s', sizes[1..]);
      assert forall i :: 1 <= i < |sizes| ==> Signals(s, sizes)[i] == Signals(s', sizes[1..])[i - 1];
    }
  }

  lemma {:induction false} RunAppend(s: State, a: seq<int>, b: seq<int>)
    ensures Run(s, a + b) == Run(Run(s, a), b)
    ensures Signals(s, a + b) == Signals(s, a) + Signals(Run(s, a), b)
    decreases |a|
  {
    if a == [] {
      assert a + b == b;
    } else {
      var r := Report(s, a[0]);
      assert (a + b)[0] == a[0];
      assert (a + b)[1..] == a[1..] + b;
      RunAppend(r.0, a[1..], b);
      assert Run(s, a + b) == Run(r.0, a[1..] + b);
      assert Signals(s, a + b) == [r.1] + Signals(r.0, a[1..] + b);
    }
  }

  lemma FrameArithmetic(s: State)
    requires s.fps > 0 && ThresholdMatchesTarget(s)
    ensures FrameDurationMs(s.fps) > 0.0
    ensures FrameDurationMs(s.fps) * s.fps as real == 1000.0
    ensures ExpectedBytesPerFrame(s.targetBitrateBps, s.fps) * s.fps as real == s.deviationThresholdBytes
    ensures s.targetBitrateBps > 0 ==> ExpectedBytesPerFrame(s.targetBitrateBps, s.fps) > 0.0
  {
  }

  function RMin(a: real, b: real): real { if a <= b then a else b }

  /** `n` copies of `x` added up: the frame time or byte budget of `n` frames. */
  function Times(n: nat, x: real): real
  {
    if n == 0 then 0.0 else Times(n - 1, x) + x
  }

  lemma {:induction false} TimesIsProduct(n: nat, x: real)
    ensures Times(n, x) == n as real * x
  {
    if n > 0 {
      TimesIsProduct(n - 1, x);
      assert n as real * x == (n - 1) as real * x + x;
    }
  }

  lemma {:induction false} TimesMono(m: nat, n: nat, x: real)
    requires m <= n && x >= 0.0
    ensures Times(m, x) <= Times(n, x)
    decreases n
  {
    if m < n {
      TimesMono(m, n - 1, x);
    }
  }

  /** Frames `k+1 <= 3*fps` stay within the three-second window. */
  lemma WithinWindow(k: nat, fps: int)
    requires fps > 0 && k <= 3 * fps
    ensures Times(k, FrameDurationMs(fps)) <= 1000.0 * BitrateCorrectionSec
    ensures k == 3 * fps ==> Times(k, FrameDurationMs(fps)) == 1000.0 * BitrateCorrectionSec
  {
    var d := FrameDurationMs(fps);
    assert d * fps as real == 1000.0;
    TimesMono(k, 3 * fps, d);
    TimesIsProduct(3 * fps, d);
    assert (3 * fps) as real * d == 3.0 * (fps as real * d);
  }

  /** A report that does not reach the three-second mark only accumulates. */
  lemma ReportBeforeCheck(s: State, size: int)
    requires s.fps > 0
    requires s.timeSinceLastAdjustmentMs + FrameDurationMs(s.fps) <= 1000.0 * BitrateCorrectionSec
    ensures Report(s, size) ==
      (s.(deviationBytes := CapDeviation(s.deviationBytes + (size as real - ExpectedBytesPerFrame(s.targetBitrateBps, s.fps)),
                                         BitrateCorrectionSec * s.deviationThresholdBytes),
          timeSinceLastAdjustmentMs := s.timeSinceLastAdjustmentMs + FrameDurationMs(s.fps)), false)
  {
  }

  lemma DeviationBound(dev0: real, dev1: real, cap: real, e: real, ne: real, rest: real)
    requires e > 0.0 && ne >= 0.0 && dev1 >= dev0 + e
    requires rest >= RMin(cap, RMin(dev1, cap) + ne)
    ensures rest >= RMin(cap, dev0 + (ne + e))
  {
  }

  /** One more over-budget frame adds at least one frame's budget to the bound. */
  lemma AccumulateStep(dev0: real, dev1: real, cap: real, e: real, n: nat, m: nat, rest: real)
    requires e > 0.0 && dev1 >= dev0 + e && m == n + 1
    requires rest >= RMin(cap, RMin(dev1, cap) + Times(n, e))
    ensures rest >= RMin(cap, dev0 + Times(m, e))
  {
    TimesMono(0, n, e);
    DeviationBound(dev0, dev1, cap, e, Times(n, e), rest);
  }

  lemma PositiveRates(target: int, fps: int)
    requires target > 0 && fps > 0
    ensures ExpectedBytesPerFrame(target, fps) > 0.0 && FrameDurationMs(fps) > 0.0
  {
  }

  /** While less than three seconds of frame time have accumulated, an encoder that
      overshoots (at least twice the budget per frame) builds up deviation without any
      adjustment. */
  lemma {:induction false} OverBudgetAccumulates(s: State, sizes: seq<int>, k: nat)
    requires s.fps > 0 && s.targetBitrateBps > 0 && s.deviationThresholdBytes >= 0.0
    requires 0.0 <= s.deviationBytes <= 3.0 * s.deviationThresholdBytes
    requires s.timeSinceLastAdjustmentMs == Times(k, FrameDurationMs(s.fps))
    requires k + |sizes| <= 3 * s.fps
    requires forall i :: 0 <= i < |sizes| ==>
      sizes[i] as real >= 2.0 * ExpectedBytesPerFrame(s.targetBitrateBps, s.fps)
    ensures 0.0 <= Run(s, sizes).deviationBytes <= 3.0 * s.deviationThresholdBytes
    ensures Run(s, sizes).deviationBytes >= RMin(3.0 * s.deviationThresholdBytes,
      s.deviationBytes + Times(|sizes|, ExpectedBytesPerFrame(s.targetBitrateBps, s.fps)))
    decreases |sizes|
  {
    if sizes == [] {
      assert Run(s, sizes) == s;
    } else {
      var s' := OverBudgetStep(s, sizes[0], k);
      var rest := sizes[1..];
      assert forall i :: 0 <= i < |rest| ==> rest[i] == sizes[i + 1];
      OverBudgetAccumulates(s', rest, k + 1);
      assert Run(s, sizes) == Run(s', rest);
      var e := ExpectedBytesPerFrame(s.targetBitrateBps, s.fps);
      var dev := s.deviationBytes + (sizes[0] as real - e);
      var cap := 3.0 * s.deviationThresholdBytes;
      assert ExpectedBytesPerFrame(s'.targetBitrateBps, s'.fps) == e && 3.0 * s'.deviationThresholdBytes == cap;
      assert s'.deviationBytes == RMin(dev, cap);
      PositiveRates(s.targetBitrateBps, s.fps);
      AccumulateStep(s.deviationBytes, dev, cap, e, |rest|, |sizes|, Run(s', rest).deviationBytes);
    }
  }

  /** Within the same window the over-budget reports only move the deviation and the
      clock, by one frame duration each. */
  lemma {:induction false} OverBudgetClock(s: State, sizes: seq<int>, k: nat)
    requires s.fps > 0 && s.targetBitrateBps > 0 && s.deviationThresholdBytes >= 0.0
    requires 0.0 <= s.deviationBytes <= 3.0 * s.deviationThresholdBytes
    requires s.timeSinceLastAdjustmentMs == Times(k, FrameDurationMs(s.fps))
    requires k + |sizes| <= 3 * s.fps
    requires forall i :: 0 <= i < |sizes| ==>
      sizes[i] as real >= 2.0 * ExpectedBytesPerFrame(s.targetBitrateBps, s.fps)
    ensures Run(s, sizes) == s.(deviationBytes := Run(s, sizes).deviationBytes,
      timeSinceLastAdjustmentMs := Times(k + |sizes|, FrameDurationMs(s.fps)))
    decreases |sizes|
  {
    if sizes != [] {
      var s' := OverBudgetStep(s, sizes[0], k);
      assert forall i :: 0 <= i < |sizes[1..]| ==> sizes[1..][i] == sizes[i + 1];
      OverBudgetClock(s', sizes[1..], k + 1);
      assert Run(s, sizes) == Run(s', sizes[1..]);
    }
  }

  /** Within the same window the over-budget reports all return false. */
  lemma {:induction false} OverBudgetSilent(s: State, sizes: seq<int>, k: nat)
    requires s.fps > 0 && s.targetBitrateBps > 0 && s.deviationThresholdBytes >= 0.0
    requires 0.0 <= s.deviationBytes <= 3.0 * s.deviationThresholdBytes
    requires s.timeSinceLastAdjustmentMs == Times(k, FrameDurationMs(s.fps))
    requires k + |sizes| <= 3 * s.fps
    requires forall i :: 0 <= i < |sizes| ==>
      sizes[i] as real >= 2.0 * ExpectedBytesPerFrame(s.targetBitrateBps, s.fps)
    ensures forall i :: 0 <= i < |sizes| ==> !Signals(s, sizes)[i]
    decreases |sizes|
  {
    if sizes != [] {
      var s' := OverBudgetStep(s, sizes[0], k);
      assert forall i :: 0 <= i < |sizes[1..]| ==> sizes[1..][i] == sizes[i + 1];
      OverBudgetSilent(s', sizes[1..], k + 1);
      assert Signals(s, sizes) == [false] + Signals(s', sizes[1..]);
    }
  }

  /** One over-budget report inside the window: no adjustment, the deviation grows by at
      least the budget (up to its cap) and one frame duration is added to the clock. */
  lemma OverBudgetStep(s: State, size: int, k: nat) returns (s': State)
    requires s.fps > 0 && s.targetBitrateBps > 0 && s.deviationThresholdBytes >= 0.0
    requires 0.0 <= s.deviationBytes <= 3.0 * s.deviationThresholdBytes
    requires s.timeSinceLastAdjustmentMs == Times(k, FrameDurationMs(s.fps))
    requires k + 1 <= 3 * s.fps
    requires size as real >= 2.0 * ExpectedBytesPerFrame(s.targetBitrateBps, s.fps)
    ensures var dev := s.deviationBytes + (size as real - ExpectedBytesPerFrame(s.targetBitrateBps, s.fps));
      && Report(s, size) == (s', false)
      && s' == s.(deviationBytes := RMin(dev, 3.0 * s.deviationThresholdBytes),
                  timeSinceLastAdjustmentMs := Times(k + 1, FrameDurationMs(s.fps)))
      && dev >= s.deviationBytes + ExpectedBytesPerFrame(s.targetBitrateBps, s.fps)
      && 0.0 <= s'.deviationBytes <= 3.0 * s.deviationThresholdBytes
  {
    var e := ExpectedBytesPerFrame(s.targetBitrateBps, s.fps);
    var d := FrameDurationMs(s.fps);
    var thr := s.deviationThresholdBytes;
    PositiveRates(s.targetBitrateBps, s.fps);
    WithinWindow(k + 1, s.fps);
    ReportBeforeCheck(s, size);
    var dev := s.deviationBytes + (size as real - e);
    var capped := CapDeviation(dev, 3.0 * thr);
    assert capped == RMin(dev, 3.0 * thr);
    s' := s.(deviationBytes := capped, timeSinceLastAdjustmentMs := Times(k + 1, d));
  }

  /** A full window of over-budget frames from time zero ends with the deviation at
      its cap and the window's time exactly spent, without any adjustment. */
  lemma {:induction false} OverBudgetFillsWindow(s: State, sizes: seq<int>)
    requires s.fps > 0 && s.targetBitrateBps > 0 && ThresholdMatchesTarget(s)
    requires 0.0 <= s.deviationBytes <= 3.0 * s.deviationThresholdBytes
    requires s.timeSinceLastAdjustmentMs == 0.0
    requires |sizes| == 3 * s.fps
    requires forall i :: 0 <= i < |sizes| ==>
      sizes[i] as real >= 2.0 * ExpectedBytesPerFrame(s.targetBitrateBps, s.fps)
    ensures forall i :: 0 <= i < |sizes| ==> !Signals(s, sizes)[i]
    ensures Run(s, sizes) == s.(deviationBytes := 3.0 * s.deviationThresholdBytes,
                                timeSinceLastAdjustmentMs := 1000.0 * BitrateCorrectionSec)
  {
    var cap := 3.0 * s.deviationThresholdBytes;
    assert Times(0, FrameDurationMs(s.fps)) == 0.0;
    OverBudgetAccumulates(s, sizes, 0);
    OverBudgetClock(s, sizes, 0);
    OverBudgetSilent(s, sizes, 0);
    WithinWindow(|sizes|, s.fps);
    BudgetOfWindow(s);
    CapReached(s.deviationBytes, cap, Run(s, sizes).deviationBytes);
  }

  /** Feeding frames of at least twice the budget from the start of a cycle: the first
      3*fps reports return false, the next one returns true and lowers the exponent by
      three steps (clamped at -20), so the adjusted bitrate goes down. */
  lemma OverBudgetTriggersDownwardAdjustment(s: State, sizes: seq<int>)
    requires s.fps > 0 && s.targetBitrateBps > 0 && ThresholdMatchesTarget(s)
    requires 0.0 <= s.deviationBytes <= 3.0 * s.deviationThresholdBytes
    requires s.timeSinceLastAdjustmentMs == 0.0
    requires |sizes| == 3 * s.fps + 1
    requires forall i :: 0 <= i < |sizes| ==>
      sizes[i] as real >= 2.0 * ExpectedBytesPerFrame(s.targetBitrateBps, s.fps)
    ensures forall i :: 0 <= i < |sizes| - 1 ==> !Signals(s, sizes)[i]
    ensures Signals(s, sizes)[|sizes| - 1]
    ensures Run(s, sizes).scaleExp == ClampExp(s.scaleExp - 3)
  {
    var n := 3 * s.fps;
    var prefix, last := sizes[..n], sizes[n..];
    assert sizes == prefix + last;
    OverBudgetFillsWindow(s, prefix);
    RunAppend(s, prefix, last);
    var s1 := Run(s, prefix);
    PositiveRates(s.targetBitrateBps, s.fps);
    assert last == [sizes[n]];
    ReportAtWindowEnd(s1, sizes[n]);
    assert Signals(s1, last) == [Report(s1, sizes[n]).1];
  }

  /** At the end of a window with the deviation at its cap, an over-budget frame
      triggers the largest downward step. */
  lemma ReportAtWindowEnd(s: State, size: int)
    requires s.fps > 0 && s.targetBitrateBps > 0 && ThresholdMatchesTarget(s)
    requires s.deviationBytes == 3.0 * s.deviationThresholdBytes
    requires s.timeSinceLastAdjustmentMs == 1000.0 * BitrateCorrectionSec
    requires size as real >= ExpectedBytesPerFrame(s.targetBitrateBps, s.fps)
    ensures Report(s, size).1
    ensures Report(s, size).0.scaleExp == ClampExp(s.scaleExp - 3)
  {
    var thr := s.deviationThresholdBytes;
    PositiveRates(s.targetBitrateBps, s.fps);
    var dev := s.deviationBytes + (size as real - ExpectedBytesPerFrame(s.targetBitrateBps, s.fps));
    var capped := CapDeviation(dev, 3.0 * thr);
    assert thr > 0.0 && capped == 3.0 * thr;
    ThreeThresholds(thr);
  }

  lemma ThreeThresholds(t: real)
    requires t > 0.0
    ensures (3.0 * t) / t == 3.0
  {
  }

  lemma CapReached(dev0: real, cap: real, dev: real)
    requires dev0 >= 0.0 && dev <= cap && dev >= RMin(cap, dev0 + cap)
    ensures dev == cap
  {
  }

  /** The byte budget of one three-second window is three times the threshold. */
  lemma BudgetOfWindow(s: State)
    requires s.fps > 0 && ThresholdMatchesTarget(s)
    ensures Times(3 * s.fps, ExpectedBytesPerFrame(s.targetBitrateBps, s.fps)) == 3.0 * s.deviationThresholdBytes
  {
    var e := ExpectedBytesPerFrame(s.targetBitrateBps, s.fps);
    assert e * s.fps as real == s.deviationThresholdBytes;
    TimesIsProduct(3 * s.fps, e);
    assert (3 * s.fps) as real * e == 3.0 * (s.fps as real * e);
  }

  /** The adjuster object: its fields are updated in place by each report and rate change. */
  class Adjuster {
    var targetBitrateBps: int
    var fps: int
    var deviationBytes: real
    var deviationThresholdBytes: real
    var timeSinceLastAdjustmentMs: real
    var bitrateAdjustmentScaleExp: int

    function Snapshot(): State
      reads this
    {
      State(targetBitrateBps, fps, deviationBytes, deviationThresholdBytes,
            timeSinceLastAdjustmentMs, bitrateAdjustmentScaleExp)
    }

    predicate Valid()
      reads this
    {
      ExpInRange(Snapshot())
    }

    constructor()
      ensures Snapshot() == Initial && Valid()
    {
      targetBitrateBps := 0;
      fps := 0;
      deviationBytes := 0.0;
      deviationThresholdBytes := 0.0;
      timeSinceLastAdjustmentMs := 0.0;
      bitrateAdjustmentScaleExp := 0;
    }

    method ReportEncodedFrame(size: int) returns (changed: bool)
      requires Valid()
      modifies this
      ensures Valid()
      ensures (Snapshot(), changed) == Report(old(Snapshot()), size)
    {
      if fps == 0 {
        return false;
      }
      var expectedBytesPerFrame := targetBitrateBps as real / (8.0 * fps as real);
      deviationBytes := deviationBytes + (size as real - expectedBytesPerFrame);
      timeSinceLastAdjustmentMs := timeSinceLastAdjustmentMs + 1000.0 / fps as real;
      var deviationCap := BitrateCorrectionSec * deviationThresholdBytes;
      deviationBytes := if deviationBytes <= deviationCap then deviationBytes else deviationCap;
      deviationBytes := if deviationBytes >= -deviationCap then deviationBytes else -deviationCap;
      ghost var s0, s1 := old(Snapshot()), Snapshot();
      AdjustStepReplaces(s0, s1);
      changed := CheckAdjustment();
    }

    /** The end of `reportEncodedFrame`: past three seconds, the capped deviation may move the exponent. */
    method CheckAdjustment() returns (changed: bool)
      requires Valid()
      requires RAbs(deviationBytes) <= BitrateCorrectionSec * RAbs(deviationThresholdBytes)
      modifies this`deviationBytes, this`timeSinceLastAdjustmentMs, this`bitrateAdjustmentScaleExp
      ensures Valid()
      ensures (Snapshot(), changed) == AdjustStep(old(Snapshot()), old(deviationBytes), old(timeSinceLastAdjustmentMs))
    {
      ghost var s0 := Snapshot();
      changed := false;
      if timeSinceLastAdjustmentMs > 1000.0 * BitrateCorrectionSec {
        if deviationBytes > deviationThresholdBytes {
          var inc := TruncToInt(deviationBytes / deviationThresholdBytes + 0.5);
          bitrateAdjustmentScaleExp := bitrateAdjustmentScaleExp - inc;
          deviationBytes := deviationThresholdBytes;
          changed := true;
        } else if deviationBytes < -deviationThresholdBytes {
          var inc := TruncToInt(-deviationBytes / deviationThresholdBytes + 0.5);
          bitrateAdjustmentScaleExp := bitrateAdjustmentScaleExp + inc;
          deviationBytes := -deviationThresholdBytes;
          changed := true;
        }
        if changed {
          bitrateAdjustmentScaleExp := ClampExp(bitrateAdjustmentScaleExp);
        }
        timeSinceLastAdjustmentMs := 0.0;
      }
    }

    method SetRates(targetBitrateBps: int, targetFps: int)
      modifies this
      ensures Snapshot() == WithRates(old(Snapshot()), targetBitrateBps, targetFps)
      ensures old(Valid()) ==> Valid()
    {
      deviationThresholdBytes := targetBitrateBps as real / 8.0;
      if this.targetBitrateBps > 0 && targetBitrateBps < this.targetBitrateBps {
        deviationBytes := deviationBytes * targetBitrateBps as real / this.targetBitrateBps as real;
      }
      this.targetBitrateBps := targetBitrateBps;
      this.fps := targetFps;
    }

    method GetFramerate() returns (f: int)
      ensures f == fps
    {
      return fps;
    }
  }
}
