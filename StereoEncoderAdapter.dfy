/** The stereo encoder adapter: a frame with an alpha plane is encoded twice, as YUV by one
    inner encoder and as alpha (the AXX stream) by another, and each encoded image is passed
    on with stereo information: its stream, how many streams the frame has, and a running
    picture index. The inner encoders and their factory are oracles: their result codes are
    parameters and an encoder is an integer handle. */
module StereoEncoderAdapter {
  import opened Common

  /** `StereoCodecStream`. */
  const YuvStream: nat := 0
  const AxxStream: nat := 1
  const StereoCodecStreams: nat := 2

  type Encoder = int

  /** The number of leading successful results: the calls made before the first failure,
      which ends a loop over the inner coders. */
  function Succeeded(results: seq<int>): (k: nat)
    ensures k <= |results|
    ensures forall j :: 0 <= j < k ==> results[j] == CodecOk
    ensures k < |results| ==> results[k] != CodecOk
  {
    if results == [] || results[0] != CodecOk then 0 else 1 + Succeeded(results[1..])
  }

  /** The code a loop stopping at the first failure returns. */
  function FirstFailure(results: seq<int>): (rv: int)
    ensures rv == CodecOk <==> Succeeded(results) == |results|
  {
    var k := Succeeded(results);
    if k < |results| then results[k] else CodecOk
  }

  /** `Release`, as written: each encoder is released and destroyed in turn, and on the first
      failure the code is returned with the list untouched, destroyed encoders included. The
      encoders left listed, the encoders destroyed, and the code. */
  function ReleaseAsWritten(encoders: seq<Encoder>, results: seq<int>): (r: (seq<Encoder>, seq<Encoder>, int))
    requires |results| == |encoders|
    ensures r.1 <= encoders && r.2 == FirstFailure(results)
    ensures r.2 == CodecOk <==> r.0 == [] || encoders == []
    ensures r.2 != CodecOk ==> r.0 == encoders
  {
    var k := Succeeded(results);
    if k < |results| then (encoders, encoders[..k], results[k]) else ([], encoders, CodecOk)
  }

  /** `Release`, corrected: a destroyed encoder leaves the list as it is destroyed. */
  function Released(encoders: seq<Encoder>, results: seq<int>): (r: (seq<Encoder>, seq<Encoder>, int))
    requires |results| == |encoders|
    ensures r.1 + r.0 == encoders
    ensures r.2 == FirstFailure(results)
    ensures r.2 == CodecOk ==> r.0 == []
  {
    var k := Succeeded(results);
    (encoders[k..], encoders[..k], FirstFailure(results))
  }

  /** With distinct encoders, no encoder the corrected `Release` destroyed is still listed,
      so a second `Release` (the destructor's) never touches a destroyed encoder. */
  lemma ReleaseKeepsNoDestroyed(encoders: seq<Encoder>, results: seq<int>)
    requires |results| == |encoders|
    requires forall i, j :: 0 <= i < j < |encoders| ==> encoders[i] != encoders[j]
    ensures var (remaining, destroyed, _) := Released(encoders, results);
      forall e :: e in remaining ==> e !in destroyed
  {
    var (remaining, destroyed, _) := Released(encoders, results);
    var k := Succeeded(results);
    forall e | e in remaining
      ensures e !in destroyed
    {
      var i :| 0 <= i < |remaining| && remaining[i] == e;
      assert encoders[k + i] == e;
      forall j | 0 <= j < |destroyed|
        ensures destroyed[j] != e
      {
        assert destroyed[j] == encoders[j] && j < k + i;
      }
    }
  }

  /** Two encoders, the second failing to release: as written the first is destroyed and
      still listed, and the destructor's `Release` calls it again. */
  lemma ReleaseAsWrittenKeepsDestroyed()
    ensures var (remaining, destroyed, rv) := ReleaseAsWritten([10, 20], [CodecOk, -1]);
      rv == -1 && 10 in destroyed && 10 in remaining
    ensures var (remaining, destroyed, rv) := Released([10, 20], [CodecOk, -1]);
      rv == -1 && 10 in destroyed && 10 !in remaining
  {
    assert Succeeded([CodecOk, -1]) == 1 by {
      assert [CodecOk, -1][1..] == [-1];
    }
    assert [10, 20][..1] == [10];
    assert [10, 20][1..] == [20];
  }

  /** `frame_count_.emplace`: an existing entry is kept. */
  function Recorded(frameCount: map<nat, nat>, timestamp: nat, count: nat): (r: map<nat, nat>)
    ensures timestamp in r && r.Keys == frameCount.Keys + {timestamp}
    ensures timestamp !in frameCount ==> r[timestamp] == count
    ensures forall t :: t in frameCount ==> r[t] == frameCount[t]
  {
    if timestamp in frameCount then frameCount else frameCount[timestamp := count]
  }

  /** The frame count the callback reports: the recorded one, or both streams for a
      timestamp no longer recorded. */
  function CountFor(frameCount: map<nat, nat>, timestamp: nat): nat
  {
    if timestamp in frameCount then frameCount[timestamp] else StereoCodecStreams
  }

  /** `frame_count_.erase(begin(), found)`: entries for earlier timestamps go; when the
      timestamp is not recorded, everything goes. */
  function Pruned(frameCount: map<nat, nat>, timestamp: nat): (r: map<nat, nat>)
    ensures timestamp in frameCount ==> timestamp in r
    ensures forall t :: t in r ==> t in frameCount && t >= timestamp && r[t] == frameCount[t]
    ensures forall t :: t in frameCount && t >= timestamp && timestamp in frameCount ==> t in r
    ensures timestamp !in frameCount ==> r == map[]
  {
    if timestamp in frameCount then map t | t in frameCount && t >= timestamp :: frameCount[t]
    else map[]
  }

  /** A frame's recorded count reaches its first callback: two for a frame with alpha, one
      without, provided no earlier frame had the same timestamp. */
  lemma CallbackSeesRecordedCount(frameCount: map<nat, nat>, timestamp: nat, hasAlpha: bool)
    requires timestamp !in frameCount
    ensures CountFor(Recorded(frameCount, timestamp, if hasAlpha then 2 else 1), timestamp)
         == if hasAlpha then StereoCodecStreams else 1
  {
  }

  /** The stereo information attached to an encoded image. The codec type is always VP9. */
  datatype StereoInfo = StereoInfo(frameIndex: nat, frameCount: nat, pictureIndex: nat)

  class Adapter {
    var encoders: seq<Encoder>
    var hasCallback: bool
    var frameCount: map<nat, nat>
    var pictureIndex: nat
    /** Frames handed to the inner encoders, as (stream, timestamp). */
    var submitted: seq<(nat, nat)>
    /** Encoded images passed on, as (timestamp, stereo information). */
    var delivered: seq<(nat, StereoInfo)>
    var destroyed: seq<Encoder>

    constructor()
      ensures encoders == [] && !hasCallback && frameCount == map[] && pictureIndex == 0
      ensures submitted == [] && delivered == [] && destroyed == []
    {
      encoders := [];
      hasCallback := false;
      frameCount := map[];
      pictureIndex := 0;
      submitted := [];
      delivered := [];
      destroyed := [];
    }

    /** `InitEncode`: one encoder per stream is created and initialised; the first failure
        is returned, and only the encoders initialised before it are kept. */
    method InitEncode(created: seq<Encoder>, initResults: seq<int>) returns (rv: int)
      requires |created| == StereoCodecStreams && |initResults| == StereoCodecStreams
      modifies this
      ensures rv == FirstFailure(initResults)
      ensures encoders == old(encoders) + created[..Succeeded(initResults)]
      ensures hasCallback == old(hasCallback) && frameCount == old(frameCount) && pictureIndex == old(pictureIndex)
      ensures submitted == old(submitted) && delivered == old(delivered) && destroyed == old(destroyed)
    {
      var i := 0;
      while i < StereoCodecStreams
        invariant 0 <= i <= StereoCodecStreams
        invariant forall j :: 0 <= j < i ==> initResults[j] == CodecOk
        invariant encoders == old(encoders) + created[..i]
        invariant hasCallback == old(hasCallback) && frameCount == old(frameCount) && pictureIndex == old(pictureIndex)
        invariant submitted == old(submitted) && delivered == old(delivered) && destroyed == old(destroyed)
      {
        if initResults[i] != CodecOk {
          SucceededIsFirstFailure(initResults, i);
          return initResults[i];
        }
        encoders := encoders + [created[i]];
        i := i + 1;
      }
      SucceededIsFirstFailure(initResults, i);
      rv := CodecOk;
    }

    /** `Encode` of a frame with the given timestamp; `yuvResult` is the YUV encoder's code.
        Once a callback is registered the two streams' encoders must exist; without one
        the call fails before any encoder is touched. */
    method Encode(timestamp: nat, hasAlpha: bool, yuvResult: int) returns (rv: int)
      requires hasCallback ==> |encoders| >= StereoCodecStreams
      modifies this
      ensures !old(hasCallback) ==> rv == CodecUninitialized && submitted == old(submitted) && frameCount == old(frameCount)
      ensures old(hasCallback) ==> rv == yuvResult
      ensures old(hasCallback) ==> frameCount == Recorded(old(frameCount), timestamp, if hasAlpha then 2 else 1)
      ensures old(hasCallback) ==> submitted == old(submitted) + (if hasAlpha then [(AxxStream, timestamp)] else []) + [(YuvStream, timestamp)]
      ensures encoders == old(encoders) && hasCallback == old(hasCallback) && pictureIndex == old(pictureIndex)
      ensures delivered == old(delivered) && destroyed == old(destroyed)
    {
      if !hasCallback {
        return CodecUninitialized;
      }
      if hasAlpha {
        submitted := submitted + [(AxxStream, timestamp)];
        frameCount := Recorded(frameCount, timestamp, 2);
      } else {
        frameCount := Recorded(frameCount, timestamp, 1);
      }
      submitted := submitted + [(YuvStream, timestamp)];
      rv := yuvResult;
    }

    method RegisterEncodeCompleteCallback(present: bool) returns (rv: int)
      modifies this
      ensures hasCallback == present && rv == CodecOk
      ensures encoders == old(encoders) && frameCount == old(frameCount) && pictureIndex == old(pictureIndex)
      ensures submitted == old(submitted) && delivered == old(delivered) && destroyed == old(destroyed)
    {
      hasCallback := present;
      rv := CodecOk;
    }

    /** `SetChannelParameters` and `SetRateAllocation`: each encoder is called in turn and
        the first failure is returned; `results` are the encoders' codes. */
    method ForEachEncoder(results: seq<int>) returns (rv: int)
      requires |results| == |encoders|
      ensures rv == FirstFailure(results)
    {
      var i := 0;
      while i < |encoders|
        invariant 0 <= i <= |encoders|
        invariant forall j :: 0 <= j < i ==> results[j] == CodecOk
      {
        if results[i] != CodecOk {
          SucceededIsFirstFailure(results, i);
          return results[i];
        }
        i := i + 1;
      }
      SucceededIsFirstFailure(results, i);
      rv := CodecOk;
    }

    /** `Release`, with a destroyed encoder taken off the list as it is destroyed. */
    method Release(results: seq<int>) returns (rv: int)
      requires |results| == |encoders|
      modifies this
      ensures |old(destroyed)| <= |destroyed| && destroyed[..|old(destroyed)|] == old(destroyed)
      ensures (encoders, destroyed[|old(destroyed)|..], rv) == Released(old(encoders), results)
      ensures hasCallback == old(hasCallback) && frameCount == old(frameCount) && pictureIndex == old(pictureIndex)
      ensures submitted == old(submitted) && delivered == old(delivered)
    {
      var i := 0;
      while i < |results|
        invariant 0 <= i <= |results|
        invariant forall j :: 0 <= j < i ==> results[j] == CodecOk
        invariant encoders == old(encoders)[i..]
        invariant destroyed == old(destroyed) + old(encoders)[..i]
        invariant hasCallback == old(hasCallback) && frameCount == old(frameCount) && pictureIndex == old(pictureIndex)
        invariant submitted == old(submitted) && delivered == old(delivered)
      {
        if results[i] != CodecOk {
          SucceededIsFirstFailure(results, i);
          return results[i];
        }
        destroyed := destroyed + [encoders[0]];
        encoders := encoders[1..];
        i := i + 1;
      }
      SucceededIsFirstFailure(results, i);
      rv := CodecOk;
    }

    /** `OnEncodedImage` for an image of the given stream: the image is passed on with its
        stream, the frame count recorded for its timestamp, and the next picture index. */
    method OnEncodedImage(stream: nat, timestamp: nat) returns (rv: int)
      requires hasCallback
      modifies this
      ensures rv == CodecOk
      ensures delivered == old(delivered) + [(timestamp, StereoInfo(stream, CountFor(old(frameCount), timestamp), old(pictureIndex) + 1))]
      ensures pictureIndex == old(pictureIndex) + 1
      ensures frameCount == Pruned(old(frameCount), timestamp)
      ensures encoders == old(encoders) && hasCallback == old(hasCallback)
      ensures submitted == old(submitted) && destroyed == old(destroyed)
    {
      var count := if timestamp in frameCount then frameCount[timestamp] else StereoCodecStreams;
      frameCount := Pruned(frameCount, timestamp);
      pictureIndex := pictureIndex + 1;
      delivered := delivered + [(timestamp, StereoInfo(stream, count, pictureIndex))];
      rv := CodecOk;
    }
  }

  /** When the first `i` results succeed and result `i` fails (or there is none), `i` is
      the number of leading successes. */
  lemma {:induction false} SucceededIsFirstFailure(results: seq<int>, i: nat)
    requires i <= |results|
    requires forall j :: 0 <= j < i ==> results[j] == CodecOk
    requires i < |results| ==> results[i] != CodecOk
    ensures Succeeded(results) == i
  {
    if i > 0 {
      assert results[0] == CodecOk;
      SucceededIsFirstFailure(results[1..], i - 1);
    }
  }
}
