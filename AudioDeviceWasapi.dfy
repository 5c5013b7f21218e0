// The WASAPI audio device of the Windows port (audio_device_wasapi_win.cc):
// the channel up/down-mixer used when the endpoint has more channels than
// the voice engine, the extensible mix format built from the engine's mix
// format, the playout format search, the stereo switches, the speaker volume
// range check and the recovery decision taken when the render thread ends.
module AudioDeviceWasapi {
  import opened Common

  /** Speaker volume range accepted by `SetSpeakerVolume`. */
  const MinCoreSpeakerVolume: int := 0
  const MaxCoreSpeakerVolume: int := 255

  /** Playout frequencies, in the order they are tried. */
  const PlayoutFrequencies: seq<int> := [48000, 44100, 16000, 96000, 32000, 8000]

  /** Bits per sample of the playout format. */
  const PlayoutBitsPerSample: int := 16

  const UInt16Modulus: int := 0x1_0000

  // ---------------------------------------------------------------------
  // Upmix

  /**
   * One frame of the mixer: with no more input than output channels the
   * input channels are copied and the rest are silent; otherwise output
   * channel j is the mean of input channels j and j + 1 (C division).
   */
  function UpmixFrame(frame: seq<int>, inChannels: nat, outChannels: nat): (r: seq<int>)
    requires |frame| == inChannels
    ensures |r| == outChannels
    ensures inChannels <= outChannels ==>
      (forall j :: 0 <= j < inChannels ==> r[j] == frame[j])
      && (forall j :: inChannels <= j < outChannels ==> r[j] == 0)
    ensures inChannels > outChannels ==>
      forall j :: 0 <= j < outChannels ==> r[j] == TruncDiv(frame[j] + frame[j + 1], 2)
  {
    if inChannels <= outChannels then frame + Zeros(outChannels - inChannels)
    else seq(outChannels, j requires 0 <= j < outChannels => TruncDiv(frame[j] + frame[j + 1], 2))
  }

  /** Proof helper (arithmetic). */
  lemma MulStep(n: nat, c: nat)
    ensures (n + 1) * c == n * c + c && n * c <= (n + 1) * c
  {
  }

  /** Proof helper (arithmetic). */
  lemma MulMonotone(a: nat, b: nat, c: nat)
    requires a <= b
    ensures a * c <= b * c
  {
  }

  /** The first `frames` frames of `samples`, each mixed to `outChannels`. */
  function Upmixed(samples: seq<int>, frames: nat, inChannels: nat, outChannels: nat): (r: seq<int>)
    requires frames * inChannels <= |samples|
    ensures |r| == frames * outChannels
  {
    if frames == 0 then []
    else
      MulStep(frames - 1, inChannels);
      MulStep(frames - 1, outChannels);
      Upmixed(samples, frames - 1, inChannels, outChannels)
      + UpmixFrame(samples[(frames - 1) * inChannels .. frames * inChannels], inChannels, outChannels)
  }

  /** The slice bounds of frame `f` lie within the first `frames` frames. */
  lemma FrameBounds(frames: nat, f: nat, c: nat)
    requires f < frames
    ensures f * c + c == (f + 1) * c <= frames * c
  {
    MulStep(f, c);
    MulMonotone(f + 1, frames, c);
  }

  /** Frame `f` of the mixed output is frame `f` of the input, mixed. */
  lemma {:induction false} UpmixedFrame(samples: seq<int>, frames: nat, inChannels: nat, outChannels: nat, f: nat)
    requires frames * inChannels <= |samples| && f < frames
    ensures (f + 1) * inChannels <= |samples| && (f + 1) * outChannels <= frames * outChannels
    ensures Upmixed(samples, frames, inChannels, outChannels)[f * outChannels .. (f + 1) * outChannels]
      == UpmixFrame(samples[f * inChannels .. (f + 1) * inChannels], inChannels, outChannels)
  {
    FrameBounds(frames, f, inChannels);
    FrameBounds(frames, f, outChannels);
    FrameBounds(frames, frames - 1, inChannels);
    FrameBounds(frames, frames - 1, outChannels);
    if f == frames - 1 {
      UpmixedLastFrame(samples, frames, inChannels, outChannels);
    } else {
      FrameBounds(frames - 1, f, outChannels);
      var lo, hi := f * outChannels, (f + 1) * outChannels;
      UpmixedPrefix(samples, frames, inChannels, outChannels, hi);
      UpmixedFrame(samples, frames - 1, inChannels, outChannels, f);
      SliceOfSamePrefix(Upmixed(samples, frames, inChannels, outChannels),
        Upmixed(samples, frames - 1, inChannels, outChannels), lo, hi);
    }
  }

  lemma SliceOfSamePrefix(a: seq<int>, b: seq<int>, lo: nat, hi: nat)
    requires lo <= hi <= |a| && hi <= |b| && a[..hi] == b[..hi]
    ensures a[lo..hi] == b[lo..hi]
  {
    assert a[lo..hi] == a[..hi][lo..];
    assert b[lo..hi] == b[..hi][lo..];
  }

  lemma UpmixedLastFrame(samples: seq<int>, frames: nat, inChannels: nat, outChannels: nat)
    requires frames * inChannels <= |samples| && 0 < frames
    requires (frames - 1) * inChannels + inChannels == frames * inChannels
    requires (frames - 1) * outChannels + outChannels == frames * outChannels
    ensures Upmixed(samples, frames, inChannels, outChannels)[(frames - 1) * outChannels .. frames * outChannels]
      == UpmixFrame(samples[(frames - 1) * inChannels .. frames * inChannels], inChannels, outChannels)
  {
    var prefix := Upmixed(samples, frames - 1, inChannels, outChannels);
    var frame := UpmixFrame(samples[(frames - 1) * inChannels .. frames * inChannels], inChannels, outChannels);
    assert Upmixed(samples, frames, inChannels, outChannels) == prefix + frame;
    SliceAfter(prefix, frame);
  }

  lemma SliceAfter(a: seq<int>, b: seq<int>)
    ensures (a + b)[|a|..|a| + |b|] == b
  {
  }

  lemma UpmixedPrefix(samples: seq<int>, frames: nat, inChannels: nat, outChannels: nat, hi: nat)
    requires frames * inChannels <= |samples| && 0 < frames
    requires (frames - 1) * inChannels + inChannels == frames * inChannels
    requires hi <= (frames - 1) * outChannels
    ensures Upmixed(samples, frames, inChannels, outChannels)[..hi]
      == Upmixed(samples, frames - 1, inChannels, outChannels)[..hi]
  {
  }

  /** With as many output as input channels the mixer copies its input. */
  lemma {:induction false} UpmixedSameChannelsCopies(samples: seq<int>, frames: nat, channels: nat)
    requires frames * channels <= |samples|
    ensures Upmixed(samples, frames, channels, channels) == samples[..frames * channels]
  {
    if frames > 0 {
      FrameBounds(frames, frames - 1, channels);
      UpmixedSameChannelsCopies(samples, frames - 1, channels);
      var lo, hi := (frames - 1) * channels, frames * channels;
      assert UpmixFrame(samples[lo..hi], channels, channels) == samples[lo..hi];
      assert samples[..hi] == samples[..lo] + samples[lo..hi];
    }
  }

  /** One frame: copy (or average) the input channels, then silence the rest. */
  method MixFrame(frame: seq<int>, inChannels: nat, outChannels: nat) returns (row: seq<int>)
    requires |frame| == inChannels
    ensures row == UpmixFrame(frame, inChannels, outChannels)
  {
    row := [];
    var j: nat := 0;
    if inChannels <= outChannels {
      while j < inChannels
        invariant j <= inChannels && row == frame[..j]
      {
        row := row + [frame[j]];
        j := j + 1;
      }
      while j < outChannels
        invariant inChannels <= j <= outChannels
        invariant row == frame + Zeros(j - inChannels)
      {
        row := row + [0];
        j := j + 1;
      }
    } else {
      while j < outChannels
        invariant j <= outChannels && |row| == j
        invariant forall c :: 0 <= c < j ==> row[c] == TruncDiv(frame[c] + frame[c + 1], 2)
      {
        row := row + [TruncDiv(frame[j] + frame[j + 1], 2)];
        j := j + 1;
      }
    }
  }

  /**
   * `Upmix`: walks the input frame by frame, copying (or averaging) into a
   * temporary buffer, then zero-fills the extra output channels.
   */
  method Upmix(inSamples: seq<int>, numberOfFrames: nat, inChannels: nat, outChannels: nat)
    returns (outSamples: seq<int>)
    requires numberOfFrames * inChannels <= |inSamples|
    ensures outSamples == Upmixed(inSamples, numberOfFrames, inChannels, outChannels)
  {
    outSamples := [];
    var f: nat := 0;
    var i: nat := 0;
    while f < numberOfFrames
      invariant f <= numberOfFrames && i == f * inChannels
      invariant outSamples == Upmixed(inSamples, f, inChannels, outChannels)
      decreases numberOfFrames - f
    {
      MulStep(f, inChannels);
      MulMonotone(f + 1, numberOfFrames, inChannels);
      var next := i + inChannels;
      var row := MixFrame(inSamples[i .. next], inChannels, outChannels);
      outSamples := outSamples + row;
      i := next;
      f := f + 1;
    }
  }

  // ---------------------------------------------------------------------
  // Extensible mix format

  /** The speaker layouts a channel mask can name. */
  datatype ChannelMask = SpeakerMono | SpeakerStereo | SpeakerQuad | Speaker5Point1 | Speaker7Point1

  function SpeakerCount(m: ChannelMask): nat
  {
    match m
    case SpeakerMono => 1
    case SpeakerStereo => 2
    case SpeakerQuad => 4
    case Speaker5Point1 => 6
    case Speaker7Point1 => 8
  }

  datatype SubFormat = SubtypePcm | SubtypeIeeeFloat

  /** The fields of `WAVEFORMATEX` the format code reads. */
  datatype WaveFormat = WaveFormat(channels: nat, bitsPerSample: nat, samplesPerSec: nat)

  /** `WAVEFORMATPCMEX` (tag WAVE_FORMAT_EXTENSIBLE). */
  datatype ExtensibleFormat = ExtensibleFormat(
    channels: nat,
    bitsPerSample: nat,
    samplesPerSec: nat,
    blockAlign: nat,
    avgBytesPerSec: nat,
    cbSize: nat,
    validBitsPerSample: nat,
    channelMask: ChannelMask,
    subFormat: SubFormat)

  /** The mask for a channel count: mono, stereo, quad, 5.1 or 7.1, stereo otherwise. */
  function MaskForChannels(channels: nat): (m: ChannelMask)
    ensures channels in {1, 2, 4, 6, 8} ==> SpeakerCount(m) == channels
    ensures channels !in {1, 2, 4, 6, 8} ==> m == SpeakerStereo
  {
    match channels
    case 1 => SpeakerMono
    case 2 => SpeakerStereo
    case 4 => SpeakerQuad
    case 6 => Speaker5Point1
    case 8 => Speaker7Point1
    case _ => SpeakerStereo
  }

  /**
   * `GeneratePCMMixFormat`: the extensible format for the engine's mix
   * format, PCM for 16 bits and IEEE float for 32 bits, nothing otherwise.
   * The block alignment is a WORD and the byte rate a DWORD.
   */
  function GeneratePcmMixFormat(mix: WaveFormat): (r: Option<ExtensibleFormat>)
    requires mix.channels < UInt16Modulus && mix.bitsPerSample < UInt16Modulus
    requires mix.samplesPerSec < UInt32Modulus
    ensures r.Some? <==> mix.bitsPerSample == 16 || mix.bitsPerSample == 32
    ensures r.Some? ==>
      && r.value.channels == mix.channels
      && r.value.bitsPerSample == r.value.validBitsPerSample == mix.bitsPerSample
      && r.value.samplesPerSec == mix.samplesPerSec
      && r.value.cbSize == 22
      && (mix.channels in {1, 2, 4, 6, 8} ==> SpeakerCount(r.value.channelMask) == mix.channels)
      && (r.value.subFormat == SubtypePcm <==> mix.bitsPerSample == 16)
  {
    var blockAlign := (mix.channels * mix.bitsPerSample / 8) % UInt16Modulus;
    var format := ExtensibleFormat(
      mix.channels, mix.bitsPerSample, mix.samplesPerSec,
      blockAlign, ToUInt32(mix.samplesPerSec * blockAlign),
      22, mix.bitsPerSample, MaskForChannels(mix.channels), SubtypePcm);
    if mix.bitsPerSample == 16 then Some(format)
    else if mix.bitsPerSample == 32 then Some(format.(subFormat := SubtypeIeeeFloat))
    else None
  }

  /**
   * For up to 8 channels of 16 or 32 bits at up to 384 kHz nothing wraps: a
   * block is one sample of every channel and the byte rate is one block per
   * sample period.
   */
  lemma MixFormatArithmetic(mix: WaveFormat)
    requires mix.channels <= 8 && (mix.bitsPerSample == 16 || mix.bitsPerSample == 32)
    requires mix.samplesPerSec <= 384000
    ensures var r := GeneratePcmMixFormat(mix);
      && r.Some?
      && r.value.blockAlign == mix.channels * (mix.bitsPerSample / 8)
      && r.value.avgBytesPerSec == mix.samplesPerSec * r.value.blockAlign
  {
    var b := mix.channels * (mix.bitsPerSample / 8);
    assert mix.channels * mix.bitsPerSample / 8 == b;
    assert b <= 32;
    MulMonotone(mix.samplesPerSec, 384000, b);
  }

  // ---------------------------------------------------------------------
  // Playout format search

  /** The first channel count of `prio` the device supports at `rate`. */
  function FirstSupportedChannels(rate: int, prio: seq<int>, supported: (int, int) -> bool): (r: Option<int>)
    ensures r.Some? ==> r.value in prio && supported(r.value, rate)
    ensures r.None? ==> forall c :: c in prio ==> !supported(c, rate)
  {
    if prio == [] then None
    else if supported(prio[0], rate) then Some(prio[0])
    else FirstSupportedChannels(rate, prio[1..], supported)
  }

  /** The first (channels, rate) pair, frequency-major, the device supports. */
  function FirstSupportedFormat(freqs: seq<int>, prio: seq<int>, supported: (int, int) -> bool): (r: Option<(int, int)>)
    ensures r.Some? ==> supported(r.value.0, r.value.1)
    ensures freqs == [] || prio == [] ==> r.None?
  {
    if freqs == [] then None
    else match FirstSupportedChannels(freqs[0], prio, supported)
      case Some(c) => Some((c, freqs[0]))
      case None => FirstSupportedFormat(freqs[1..], prio, supported)
  }

  /** The chosen pair is supported and comes from the lists. */
  lemma {:induction false} FirstSupportedFormatSound(freqs: seq<int>, prio: seq<int>, supported: (int, int) -> bool)
    ensures var r := FirstSupportedFormat(freqs, prio, supported);
      r.Some? ==> r.value.0 in prio && r.value.1 in freqs && supported(r.value.0, r.value.1)
  {
    if freqs != [] && FirstSupportedChannels(freqs[0], prio, supported).None? {
      FirstSupportedFormatSound(freqs[1..], prio, supported);
    }
  }

  /** `rate` is frequency `k` and no earlier frequency has a supported channel count. */
  ghost predicate FirstAt(freqs: seq<int>, prio: seq<int>, supported: (int, int) -> bool, k: int, rate: int)
  {
    && 0 <= k < |freqs| && freqs[k] == rate
    && forall i, c :: 0 <= i < k && c in prio ==> !supported(c, freqs[i])
  }

  /**
   * Every pair tried before the chosen one is unsupported; when none is
   * chosen, no pair is supported.
   */
  lemma {:induction false} FirstSupportedFormatFirst(freqs: seq<int>, prio: seq<int>, supported: (int, int) -> bool)
    ensures var r := FirstSupportedFormat(freqs, prio, supported);
      && (r.None? ==> forall i, c :: 0 <= i < |freqs| && c in prio ==> !supported(c, freqs[i]))
      && (r.Some? ==> exists k :: FirstAt(freqs, prio, supported, k, r.value.1))
  {
    if freqs != [] {
      var r := FirstSupportedFormat(freqs, prio, supported);
      match FirstSupportedChannels(freqs[0], prio, supported)
      case Some(c) =>
        assert FirstAt(freqs, prio, supported, 0, r.value.1);
      case None =>
        FirstSupportedFormatFirst(freqs[1..], prio, supported);
        if r.Some? {
          var k :| FirstAt(freqs[1..], prio, supported, k, r.value.1);
          assert freqs[k + 1] == r.value.1;
          forall i, c | 0 <= i < k + 1 && c in prio
            ensures !supported(c, freqs[i])
          {
            if i > 0 {
              assert freqs[i] == freqs[1..][i - 1];
            }
          }
          assert FirstAt(freqs, prio, supported, k + 1, r.value.1);
        } else {
          forall i, c | 0 <= i < |freqs| && c in prio
            ensures !supported(c, freqs[i])
          {
            if i > 0 {
              assert freqs[i] == freqs[1..][i - 1];
            }
          }
        }
    }
  }

  // ---------------------------------------------------------------------
  // Recovery from a lost device

  /**
   * The recovery flags of one direction (render or capture, which follow
   * the same rules): whether a restart is in progress, the error reported
   * to the module, and whether the restart event is set for the observer.
   */
  datatype Recovery = Recovery(isRecovering: bool, error: int, restartSignaled: bool)

  /** What happens to one direction's recovery flags. */
  datatype RecoveryEvent =
    | ThreadEnded(keepRunning: bool, deviceInvalidated: bool)
    | BufferDone
    | Restarted(stopOk: bool, initOk: bool, startOk: bool)
    | DefaultDeviceChanged(followsDefault: bool, active: bool, roleMatches: bool)

  /**
   * The end of the render or capture thread. When it ended while it should
   * have gone on: a lost device is restarted once, a second loss during
   * the recovery is error 1, and any other failure is error 1.
   */
  function ThreadExit(r: Recovery, keepRunning: bool, deviceInvalidated: bool): (r': Recovery)
    ensures !keepRunning ==> r' == r
    ensures r'.error == (if keepRunning && (!deviceInvalidated || r.isRecovering) then 1 else r.error)
    ensures r'.restartSignaled == (r.restartSignaled || (keepRunning && deviceInvalidated && !r.isRecovering))
    ensures r'.isRecovering == (r.isRecovering && !(keepRunning && deviceInvalidated))
  {
    if !keepRunning then r
    else if !deviceInvalidated then r.(error := 1)
    else if r.isRecovering then r.(isRecovering := false, error := 1)
    else r.(restartSignaled := true)
  }

  /**
   * The observer thread's restart: stop, then (marking the recovery) init,
   * then start; a step that fails skips the rest, stops again if a recovery
   * was under way and reports error 2. The event is reset either way.
   */
  function ObserverRestart(r: Recovery, stopOk: bool, initOk: bool, startOk: bool): (r': Recovery)
    ensures !r'.restartSignaled
    ensures r'.isRecovering <==> stopOk && initOk && startOk
    ensures r'.error == (if stopOk && initOk && startOk then r.error else 2)
  {
    var recovering := stopOk || r.isRecovering;
    var ok := stopOk && initOk && startOk;
    var afterFailure := if !ok && recovering then false else recovering;
    Recovery(afterFailure, if ok then r.error else 2, false)
  }

  /**
   * The system's default device changed: a direction that follows the
   * default device, is running and uses the changed role signals the
   * observer to restart it, whatever recovery is under way.
   */
  function DefaultChanged(r: Recovery, followsDefault: bool, active: bool, roleMatches: bool): (r': Recovery)
    ensures r'.isRecovering == r.isRecovering && r'.error == r.error
    ensures r'.restartSignaled <==> r.restartSignaled || (followsDefault && active && roleMatches)
  {
    if followsDefault && active && roleMatches then r.(restartSignaled := true) else r
  }

  /** The events the render or capture thread and the observer produce themselves. */
  predicate Internal(e: RecoveryEvent)
  {
    !e.DefaultDeviceChanged?
  }

  function RecoveryStep(r: Recovery, e: RecoveryEvent): Recovery
  {
    match e
    case ThreadEnded(keepRunning, deviceInvalidated) => ThreadExit(r, keepRunning, deviceInvalidated)
    case BufferDone => r.(isRecovering := false)
    case Restarted(stopOk, initOk, startOk) => ObserverRestart(r, stopOk, initOk, startOk)
    case DefaultDeviceChanged(followsDefault, active, roleMatches) =>
      DefaultChanged(r, followsDefault, active, roleMatches)
  }

  function RecoveryRun(r: Recovery, events: seq<RecoveryEvent>): Recovery
    decreases |events|
  {
    if events == [] then r else RecoveryRun(RecoveryStep(r, events[0]), events[1..])
  }

  /** The error is 0 (none), 1 (the thread failed) or 2 (the restart failed). */
  predicate ErrorKnown(r: Recovery)
  {
    0 <= r.error <= 2
  }

  /** The error is known and no restart is pending while a recovery is under way. */
  predicate Settled(r: Recovery)
  {
    && !(r.isRecovering && r.restartSignaled)
    && ErrorKnown(r)
  }

  /**
   * Every step keeps the error known; the steps of the threads and the
   * observer also keep the flags settled, and an observer restart settles
   * them again whatever was pending.
   */
  lemma RecoveryStepSettled(r: Recovery, e: RecoveryEvent)
    requires ErrorKnown(r)
    ensures ErrorKnown(RecoveryStep(r, e))
    ensures Settled(r) && Internal(e) ==> Settled(RecoveryStep(r, e))
    ensures e.Restarted? ==> Settled(RecoveryStep(r, e))
  {
  }

  /**
   * A change of the default device while a restart of that direction is
   * under way leaves a restart pending during the recovery.
   */
  lemma DefaultChangeUnsettles(r: Recovery)
    requires r.isRecovering
    ensures !Settled(RecoveryStep(r, DefaultDeviceChanged(true, true, true)))
  {
  }

  /**
   * Whatever happens, the error stays known; while only the threads and
   * the observer act, the flags of a settled device stay settled.
   */
  lemma {:induction false} RecoveryRunSettled(r: Recovery, events: seq<RecoveryEvent>)
    requires ErrorKnown(r)
    ensures ErrorKnown(RecoveryRun(r, events))
    ensures Settled(r) && (forall i :: 0 <= i < |events| ==> Internal(events[i])) ==> Settled(RecoveryRun(r, events))
    decreases |events|
  {
    if events != [] {
      RecoveryStepSettled(r, events[0]);
      assert forall i :: 0 <= i < |events| - 1 ==> events[1..][i] == events[i + 1];
      RecoveryRunSettled(RecoveryStep(r, events[0]), events[1..]);
    }
  }

  /**
   * A lost device is restarted only once: when it is lost again after a
   * successful restart and before any buffer was processed, the loss is
   * reported as error 1 and no second restart is requested.
   */
  lemma LossDuringRecoveryIsError(r: Recovery)
    requires !r.isRecovering
    ensures RecoveryRun(r, [ThreadEnded(true, true), Restarted(true, true, true), ThreadEnded(true, true)])
      == Recovery(false, 1, false)
  {
    var events := [ThreadEnded(true, true), Restarted(true, true, true), ThreadEnded(true, true)];
    assert events[1..][1..][1..] == [];
  }

  /** Once a buffer has been processed after a restart, a new loss is restarted again. */
  lemma LossAfterProgressRestarts(r: Recovery)
    ensures var r1 := RecoveryRun(r, [Restarted(true, true, true), BufferDone, ThreadEnded(true, true)]);
      r1.restartSignaled && !r1.isRecovering && r1.error == r.error
  {
    var events := [Restarted(true, true, true), BufferDone, ThreadEnded(true, true)];
    assert events[1..][1..][1..] == [];
  }

  // ---------------------------------------------------------------------
  // The device

  /** The state of `AudioDeviceWindowsWasapi` the modelled operations touch. */
  class AudioDevice {
    const recChannelsPrioList: array<int>
    const playChannelsPrioList: array<int>
    var recChannels: int
    var playChannels: int
    var playAudioFrameSize: int
    var playBlockSize: int
    var playSampleRate: int
    var devicePlaySampleRate: int
    var devicePlayBlockSize: int
    var speakerIsInitialized: bool
    var hasRenderSimpleVolume: bool
    var masterVolume: real
    var playError: int
    var playIsRecovering: bool
    var restartRenderSignaled: bool
    var recError: int
    var recIsRecovering: bool
    var restartCaptureSignaled: bool

    /** The render side's recovery flags. */
    function PlayRecovery(): Recovery
      reads this
    {
      Recovery(playIsRecovering, playError, restartRenderSignaled)
    }

    /** The capture side's recovery flags. */
    function RecRecovery(): Recovery
      reads this
    {
      Recovery(recIsRecovering, recError, restartCaptureSignaled)
    }

    ghost predicate Valid()
      reads this
    {
      && recChannelsPrioList.Length == 2
      && playChannelsPrioList.Length == 2
      && recChannelsPrioList != playChannelsPrioList
      && ErrorKnown(PlayRecovery())
      && ErrorKnown(RecRecovery())
    }

    constructor()
      ensures Valid() && Settled(PlayRecovery()) && Settled(RecRecovery())
      ensures recChannelsPrioList[..] == [2, 1] && playChannelsPrioList[..] == [2, 1]
      ensures recChannels == 2 && playChannels == 2
      ensures playAudioFrameSize == 0 && playBlockSize == 0 && playSampleRate == 0
      ensures !speakerIsInitialized && playError == 0 && !playIsRecovering && !restartRenderSignaled
      ensures recError == 0 && !recIsRecovering && !restartCaptureSignaled
      ensures fresh(recChannelsPrioList) && fresh(playChannelsPrioList)
    {
      recChannels := 2;
      playChannels := 2;
      playAudioFrameSize := 0;
      playBlockSize := 0;
      playSampleRate := 0;
      devicePlaySampleRate := 0;
      devicePlayBlockSize := 0;
      speakerIsInitialized := false;
      hasRenderSimpleVolume := false;
      masterVolume := 0.0;
      playError := 0;
      playIsRecovering := false;
      restartRenderSignaled := false;
      recError := 0;
      recIsRecovering := false;
      restartCaptureSignaled := false;
      var rec := new int[2];
      rec[0], rec[1] := 2, 1;
      var play := new int[2];
      play[0], play[1] := 2, 1;
      recChannelsPrioList := rec;
      playChannelsPrioList := play;
    }

    /** Stereo first and two channels, or mono first and one channel. */
    method SetStereoRecording(enable: bool) returns (r: int)
      requires Valid()
      modifies this, recChannelsPrioList
      ensures Valid() && r == 0
      ensures enable ==> recChannelsPrioList[..] == [2, 1] && recChannels == 2
      ensures !enable ==> recChannelsPrioList[..] == [1, 2] && recChannels == 1
      ensures unchanged(playChannelsPrioList) && playChannels == old(playChannels)
    {
      if enable {
        recChannelsPrioList[0] := 2;
        recChannelsPrioList[1] := 1;
        recChannels := 2;
      } else {
        recChannelsPrioList[0] := 1;
        recChannelsPrioList[1] := 2;
        recChannels := 1;
      }
      r := 0;
    }

    method SetStereoPlayout(enable: bool) returns (r: int)
      requires Valid()
      modifies this, playChannelsPrioList
      ensures Valid() && r == 0
      ensures enable ==> playChannelsPrioList[..] == [2, 1] && playChannels == 2
      ensures !enable ==> playChannelsPrioList[..] == [1, 2] && playChannels == 1
      ensures unchanged(recChannelsPrioList) && recChannels == old(recChannels)
    {
      if enable {
        playChannelsPrioList[0] := 2;
        playChannelsPrioList[1] := 1;
        playChannels := 2;
      } else {
        playChannelsPrioList[0] := 1;
        playChannelsPrioList[1] := 2;
        playChannels := 1;
      }
      r := 0;
    }

    /**
     * `SetSpeakerVolume`: -1 without an initialised speaker or volume
     * control, or outside [0, 255]; otherwise the master volume becomes
     * volume / 255 (the COM call's outcome is `setSucceeds`).
     */
    method SetSpeakerVolume(volume: int, setSucceeds: bool) returns (r: int)
      requires 0 <= volume < UInt32Modulus
      modifies this`masterVolume
      ensures r == 0 <==> speakerIsInitialized && hasRenderSimpleVolume
                          && MinCoreSpeakerVolume <= volume <= MaxCoreSpeakerVolume && setSucceeds
      ensures r != 0 ==> r == -1
      ensures speakerIsInitialized && hasRenderSimpleVolume && MinCoreSpeakerVolume <= volume <= MaxCoreSpeakerVolume
              ==> masterVolume == volume as real / MaxCoreSpeakerVolume as real
      ensures !(speakerIsInitialized && hasRenderSimpleVolume && MinCoreSpeakerVolume <= volume <= MaxCoreSpeakerVolume)
              ==> masterVolume == old(masterVolume)
      ensures 0.0 <= masterVolume <= 1.0 || masterVolume == old(masterVolume)
    {
      if !speakerIsInitialized {
        return -1;
      }
      if !hasRenderSimpleVolume {
        return -1;
      }
      if volume < MinCoreSpeakerVolume || volume > MaxCoreSpeakerVolume {
        return -1;
      }
      masterVolume := volume as real / MaxCoreSpeakerVolume as real;
      if !setSucceeds {
        return -1;
      }
      r := 0;
    }

    /** The playout format loop: frequencies in order, channels in priority order. */
    method FindPlayoutFormat(supported: (int, int) -> bool) returns (found: Option<(int, int)>)
      requires Valid()
      ensures found == FirstSupportedFormat(PlayoutFrequencies, playChannelsPrioList[..], supported)
    {
      var freq := 0;
      found := None;
      while freq < |PlayoutFrequencies|
        invariant 0 <= freq <= |PlayoutFrequencies|
        invariant FirstSupportedFormat(PlayoutFrequencies, playChannelsPrioList[..], supported)
          == FirstSupportedFormat(PlayoutFrequencies[freq..], playChannelsPrioList[..], supported)
        decreases |PlayoutFrequencies| - freq
      {
        var rate := PlayoutFrequencies[freq];
        var chan := 0;
        while chan < playChannelsPrioList.Length
          invariant 0 <= chan <= playChannelsPrioList.Length
          invariant FirstSupportedChannels(rate, playChannelsPrioList[..], supported)
            == FirstSupportedChannels(rate, playChannelsPrioList[chan..], supported)
          decreases playChannelsPrioList.Length - chan
        {
          if supported(playChannelsPrioList[chan], rate) {
            return Some((playChannelsPrioList[chan], rate));
          }
          chan := chan + 1;
        }
        assert PlayoutFrequencies[freq..][0] == rate && PlayoutFrequencies[freq..][1..] == PlayoutFrequencies[freq + 1..];
        freq := freq + 1;
      }
    }

    /**
     * The format part of `InitPlayout`: on success the block is 10 ms of
     * samples and a frame is one 16-bit sample per channel; on failure the
     * playout parameters are left as they were.
     */
    method InitPlayoutFormat(supported: (int, int) -> bool) returns (ok: bool)
      requires Valid()
      modifies this
      ensures Valid()
      ensures var chosen := FirstSupportedFormat(PlayoutFrequencies, playChannelsPrioList[..], supported);
        && (ok <==> chosen.Some?)
        && (ok ==> && playChannels == chosen.value.0 && playSampleRate == chosen.value.1
                   && playBlockSize == chosen.value.1 / 100 && playAudioFrameSize == chosen.value.0 * 2
                   && devicePlaySampleRate == playSampleRate && devicePlayBlockSize == playBlockSize)
      ensures !ok ==> (playChannels == old(playChannels) && playSampleRate == old(playSampleRate)
        && playBlockSize == old(playBlockSize) && playAudioFrameSize == old(playAudioFrameSize))
      ensures recChannels == old(recChannels) && playError == old(playError)
      ensures playIsRecovering == old(playIsRecovering) && masterVolume == old(masterVolume)
    {
      var found := FindPlayoutFormat(supported);
      if found.None? {
        return false;
      }
      var channels := found.value.0;
      var rate := found.value.1;
      var blockAlign := channels * PlayoutBitsPerSample / 8;
      playAudioFrameSize := blockAlign;
      playBlockSize := rate / 100;
      playSampleRate := rate;
      devicePlaySampleRate := rate;
      devicePlayBlockSize := rate / 100;
      playChannels := channels;
      ok := true;
    }

    /**
     * The end of the render thread. When it ended while playout should
     * continue: a lost device triggers one restart, a second loss during
     * the recovery is an error, and any other failure is an error.
     */
    method RenderThreadExit(keepPlaying: bool, deviceInvalidated: bool)
      requires Valid()
      modifies this`playError, this`playIsRecovering, this`restartRenderSignaled
      ensures Valid() && (old(Settled(PlayRecovery())) ==> Settled(PlayRecovery()))
      ensures PlayRecovery() == ThreadExit(old(PlayRecovery()), keepPlaying, deviceInvalidated)
      ensures !keepPlaying ==> (playError == old(playError) && playIsRecovering == old(playIsRecovering)
        && restartRenderSignaled == old(restartRenderSignaled))
      ensures keepPlaying && deviceInvalidated && !old(playIsRecovering) ==>
        (restartRenderSignaled && playError == old(playError) && !playIsRecovering)
      ensures keepPlaying && deviceInvalidated && old(playIsRecovering) ==>
        (playError == 1 && !playIsRecovering && restartRenderSignaled == old(restartRenderSignaled))
      ensures keepPlaying && !deviceInvalidated ==>
        (playError == 1 && playIsRecovering == old(playIsRecovering) && restartRenderSignaled == old(restartRenderSignaled))
    {
      if keepPlaying {
        var isRecoverableError := deviceInvalidated;
        if isRecoverableError {
          if playIsRecovering {
            playIsRecovering := false;
            playError := 1;
          } else {
            restartRenderSignaled := true;
          }
        } else {
          playError := 1;
        }
      }
    }

    /** The end of the capture thread, by the same rules as the render thread's. */
    method CaptureThreadExit(keepRecording: bool, deviceInvalidated: bool)
      requires Valid()
      modifies this`recError, this`recIsRecovering, this`restartCaptureSignaled
      ensures Valid() && (old(Settled(RecRecovery())) ==> Settled(RecRecovery()))
      ensures RecRecovery() == ThreadExit(old(RecRecovery()), keepRecording, deviceInvalidated)
    {
      if keepRecording {
        var isRecoverableError := deviceInvalidated;
        if isRecoverableError {
          if recIsRecovering {
            recIsRecovering := false;
            recError := 1;
          } else {
            restartCaptureSignaled := true;
          }
        } else {
          recError := 1;
        }
      }
    }

    /** A buffer rendered in the render loop marks a recovery as successful. */
    method RenderBufferDone()
      requires Valid()
      modifies this`playIsRecovering
      ensures Valid() && (old(Settled(PlayRecovery())) ==> Settled(PlayRecovery()))
      ensures PlayRecovery() == RecoveryStep(old(PlayRecovery()), BufferDone)
    {
      if playIsRecovering {
        playIsRecovering := false;
      }
    }

    /** A buffer captured in the capture loop marks a recovery as successful. */
    method CaptureBufferDone()
      requires Valid()
      modifies this`recIsRecovering
      ensures Valid() && (old(Settled(RecRecovery())) ==> Settled(RecRecovery()))
      ensures RecRecovery() == RecoveryStep(old(RecRecovery()), BufferDone)
    {
      if recIsRecovering {
        recIsRecovering := false;
      }
    }

    /**
     * The observer's handling of the restart-render event. Whether stopping,
     * initialising and starting playout succeed are parameters.
     */
    method RestartRenderer(stopOk: bool, initOk: bool, startOk: bool)
      requires Valid()
      modifies this`playError, this`playIsRecovering, this`restartRenderSignaled
      ensures Valid() && Settled(PlayRecovery())
      ensures PlayRecovery() == ObserverRestart(old(PlayRecovery()), stopOk, initOk, startOk)
    {
      var ok := stopOk;
      if ok {
        playIsRecovering := true;
        ok := initOk;
      }
      if ok {
        ok := startOk;
      }
      if !ok {
        if playIsRecovering {
          playIsRecovering := false;
        }
        playError := 2;
      }
      restartRenderSignaled := false;
    }

    /** The observer's handling of the restart-capture event, as for the renderer. */
    method RestartCapturer(stopOk: bool, initOk: bool, startOk: bool)
      requires Valid()
      modifies this`recError, this`recIsRecovering, this`restartCaptureSignaled
      ensures Valid() && Settled(RecRecovery())
      ensures RecRecovery() == ObserverRestart(old(RecRecovery()), stopOk, initOk, startOk)
    {
      var ok := stopOk;
      if ok {
        recIsRecovering := true;
        ok := initOk;
      }
      if ok {
        ok := startOk;
      }
      if !ok {
        if recIsRecovering {
          recIsRecovering := false;
        }
        recError := 2;
      }
      restartCaptureSignaled := false;
    }

    /**
     * The default render device changed. Whether the renderer follows the
     * default device, is playing and uses the changed role are parameters.
     */
    method DefaultRenderDeviceChanged(followsDefault: bool, playing: bool, roleMatches: bool)
      requires Valid()
      modifies this`restartRenderSignaled
      ensures Valid()
      ensures PlayRecovery() == DefaultChanged(old(PlayRecovery()), followsDefault, playing, roleMatches)
    {
      if !followsDefault {
        return;
      }
      if !playing {
        return;
      }
      if !roleMatches {
        return;
      }
      restartRenderSignaled := true;
    }

    /** The default capture device changed, as for the renderer. */
    method DefaultCaptureDeviceChanged(followsDefault: bool, recording: bool, roleMatches: bool)
      requires Valid()
      modifies this`restartCaptureSignaled
      ensures Valid()
      ensures RecRecovery() == DefaultChanged(old(RecRecovery()), followsDefault, recording, roleMatches)
    {
      if !followsDefault {
        return;
      }
      if !recording {
        return;
      }
      if !roleMatches {
        return;
      }
      restartCaptureSignaled := true;
    }
  }
}
