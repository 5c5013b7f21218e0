/** The stereo decoder adapter: the YUV and alpha (AXX) images of a frame come from two inner
    decoders in either order, are held by timestamp until the partner arrives, and are then
    merged into one image with alpha. A frame sent without alpha gets a placeholder alpha
    entry whose image has timestamp zero, and merging with it passes the YUV image through.
    The inner decoders are oracles; images are values carrying their timestamp and
    rotation. */
module StereoDecoderAdapter {
  import opened Common
  import opened StereoEncoderAdapter

  type Decoder = int

  /** A decoded image: an identity for its pixels, its RTP timestamp and its rotation. */
  datatype Frame = Frame(id: int, timestamp: nat, rotation: int)

  /** The 1x1 image of the placeholder entry: timestamp zero, no rotation. */
  const PlaceholderFrame: Frame := Frame(-1, 0, 0)

  /** `DecodedImageData`. */
  datatype DecodedData = DecodedData(stream: nat, image: Frame, decodeTimeMs: Option<int>, qp: Option<int>)

  /** The entry `Decode` makes for a frame without alpha. */
  const Placeholder: DecodedData := DecodedData(AxxStream, PlaceholderFrame, None, None)

  /** What the adapter hands to its callback. */
  datatype Output =
    | Plain(frame: Frame, decodeTimeMs: Option<int>, qp: Option<int>)
    | WithAlpha(yuv: Frame, alpha: Frame, timestamp: nat, rotation: int, renderTimeMs: int,
                decodeTimeMs: Option<int>, qp: Option<int>)

  /** `MergeDecodedImages`: an alpha image with timestamp zero means there is no alpha;
      otherwise the alpha plane is attached to the YUV image, which keeps its timestamp and
      rotation, with a render time of zero. */
  function Merged(yuv: DecodedData, alpha: DecodedData): (r: Output)
    ensures alpha.image.timestamp == 0 ==> r == Plain(yuv.image, yuv.decodeTimeMs, yuv.qp)
    ensures alpha.image.timestamp != 0 ==> r.WithAlpha? && r.yuv == yuv.image && r.alpha == alpha.image
    ensures r.WithAlpha? ==> r.timestamp == yuv.image.timestamp && r.rotation == yuv.image.rotation
    ensures r.decodeTimeMs == yuv.decodeTimeMs && r.qp == yuv.qp
  {
    if alpha.image.timestamp == 0 then Plain(yuv.image, yuv.decodeTimeMs, yuv.qp)
    else WithAlpha(yuv.image, alpha.image, yuv.image.timestamp, yuv.image.rotation, 0, yuv.decodeTimeMs, yuv.qp)
  }

  /** `decoded_data_.erase(begin(), found)` for a timestamp that is present. */
  function ErasedBefore(decoded: map<nat, DecodedData>, timestamp: nat): (r: map<nat, DecodedData>)
    ensures forall t :: t in r <==> t in decoded && t >= timestamp
    ensures forall t :: t in r ==> r[t] == decoded[t]
  {
    map t | t in decoded && t >= timestamp :: decoded[t]
  }

  /** `Decoded` for an image of `stream`: the held entries afterwards and the image passed
      on, if any. With a partner held for the timestamp, the two are merged (the YUV image
      first) and the entries before it are dropped; the partner itself stays. Without one,
      the image is held. */
  function OnDecoded(decoded: map<nat, DecodedData>, incoming: DecodedData): (r: (map<nat, DecodedData>, Option<Output>))
    ensures incoming.image.timestamp !in decoded ==> r == (decoded[incoming.image.timestamp := incoming], None)
    ensures incoming.image.timestamp in decoded ==> r.1.Some? && r.0 == ErasedBefore(decoded, incoming.image.timestamp)
  {
    var ts := incoming.image.timestamp;
    if ts in decoded then
      var other := decoded[ts];
      var out := if incoming.stream == YuvStream then Merged(incoming, other) else Merged(other, incoming);
      (ErasedBefore(decoded, ts), Some(out))
    else (decoded[ts := incoming], None)
  }

  /** A frame without alpha: after `Decode` leaves the placeholder, the YUV image is passed on
      unchanged. */
  lemma FrameWithoutAlphaPassesThrough(decoded: map<nat, DecodedData>, yuv: DecodedData)
    requires yuv.stream == YuvStream
    requires yuv.image.timestamp !in decoded
    ensures OnDecoded(decoded[yuv.image.timestamp := Placeholder], yuv).1
         == Some(Plain(yuv.image, yuv.decodeTimeMs, yuv.qp))
  {
  }

  /** A frame with alpha, whichever image arrives first, comes out once as the YUV image
      with the alpha image attached, at the YUV image's timestamp and rotation. */
  lemma FrameWithAlphaMergesInEitherOrder(decoded: map<nat, DecodedData>, yuv: DecodedData, alpha: DecodedData)
    requires yuv.stream == YuvStream && alpha.stream == AxxStream
    requires yuv.image.timestamp == alpha.image.timestamp != 0
    requires yuv.image.timestamp !in decoded
    ensures var expected := Some(WithAlpha(yuv.image, alpha.image, yuv.image.timestamp, yuv.image.rotation, 0,
                                           yuv.decodeTimeMs, yuv.qp));
      && OnDecoded(decoded, alpha).1 == None && OnDecoded(OnDecoded(decoded, alpha).0, yuv).1 == expected
      && OnDecoded(decoded, yuv).1 == None && OnDecoded(OnDecoded(decoded, yuv).0, alpha).1 == expected
  {
  }

  /** A merge keeps no entry older than the merged frame. */
  lemma MergeDropsOlderEntries(decoded: map<nat, DecodedData>, incoming: DecodedData)
    requires incoming.image.timestamp in decoded
    ensures forall t :: t in OnDecoded(decoded, incoming).0 ==> t >= incoming.image.timestamp
    ensures incoming.image.timestamp in OnDecoded(decoded, incoming).0
  {
  }

  /** `Release` as written clears `decoders_` only once every decoder has released, so when
      the second decoder fails the first stays listed although it was destroyed, and the
      destructor's `Release` calls it first. Corrected, the list the destructor walks starts
      at the decoder that failed. */
  lemma DestructorReleasesDestroyedDecoder(first: Decoder, second: Decoder, failure: int)
    requires first != second && failure != CodecOk
    ensures var (listed, gone, rv) := ReleaseAsWritten([first, second], [CodecOk, failure]);
      rv == failure && listed[0] == first && first in gone
    ensures var (listed, gone, rv) := Released([first, second], [CodecOk, failure]);
      rv == failure && listed == [second] && gone == [first] && second !in gone
  {
    assert Succeeded([CodecOk, failure]) == 1 by {
      assert [CodecOk, failure][1..] == [failure];
    }
    assert [first, second][..1] == [first];
    assert [first, second][1..] == [second];
  }

  class Adapter {
    var decoders: seq<Decoder>
    var decoded: map<nat, DecodedData>
    var hasCallback: bool
    /** Encoded images handed to the inner decoders, as (stream, timestamp). */
    var submitted: seq<(nat, nat)>
    /** Images passed to the callback. */
    var outputs: seq<Output>
    var destroyed: seq<Decoder>

    constructor()
      ensures decoders == [] && decoded == map[] && !hasCallback
      ensures submitted == [] && outputs == [] && destroyed == []
    {
      decoders := [];
      decoded := map[];
      hasCallback := false;
      submitted := [];
      outputs := [];
      destroyed := [];
    }

    /** `InitDecode`: one VP9 decoder per stream; the first failure is returned and only the
        decoders initialised before it are kept. */
    method InitDecode(created: seq<Decoder>, initResults: seq<int>) returns (rv: int)
      requires |created| == StereoCodecStreams && |initResults| == StereoCodecStreams
      modifies this
      ensures rv == FirstFailure(initResults)
      ensures decoders == old(decoders) + created[..Succeeded(initResults)]
      ensures decoded == old(decoded) && hasCallback == old(hasCallback)
      ensures submitted == old(submitted) && outputs == old(outputs) && destroyed == old(destroyed)
    {
      var i := 0;
      while i < StereoCodecStreams
        invariant 0 <= i <= StereoCodecStreams
        invariant forall j :: 0 <= j < i ==> initResults[j] == CodecOk
        invariant decoders == old(decoders) + created[..i]
        invariant decoded == old(decoded) && hasCallback == old(hasCallback)
        invariant submitted == old(submitted) && outputs == old(outputs) && destroyed == old(destroyed)
      {
        if initResults[i] != CodecOk {
          SucceededIsFirstFailure(initResults, i);
          return initResults[i];
        }
        decoders := decoders + [created[i]];
        i := i + 1;
      }
      SucceededIsFirstFailure(initResults, i);
      rv := CodecOk;
    }

    /** `Decode` of an encoded image of stream `frameIndex` in a frame of `frameCount`
        streams; `result` is the inner decoder's code. A frame of one stream must not be
        held already. */
    method Decode(timestamp: nat, frameIndex: nat, frameCount: nat, result: int) returns (rv: int)
      requires frameIndex < |decoders|
      requires frameCount == 1 ==> timestamp !in decoded
      modifies this
      ensures decoded == if frameCount == 1 then old(decoded)[timestamp := Placeholder] else old(decoded)
      ensures submitted == old(submitted) + [(frameIndex, timestamp)]
      ensures rv == result
      ensures decoders == old(decoders) && hasCallback == old(hasCallback)
      ensures outputs == old(outputs) && destroyed == old(destroyed)
    {
      if frameCount == 1 {
        decoded := decoded[timestamp := Placeholder];
      }
      submitted := submitted + [(frameIndex, timestamp)];
      rv := result;
    }

    method RegisterDecodeCompleteCallback(present: bool) returns (rv: int)
      modifies this
      ensures hasCallback == present && rv == CodecOk
      ensures decoders == old(decoders) && decoded == old(decoded)
      ensures submitted == old(submitted) && outputs == old(outputs) && destroyed == old(destroyed)
    {
      hasCallback := present;
      rv := CodecOk;
    }

    /** `Release`, corrected: a destroyed decoder is taken off the list as it is destroyed
        (see `DestructorReleasesDestroyedDecoder` for the code as written). */
    method Release(results: seq<int>) returns (rv: int)
      requires |results| == |decoders|
      modifies this
      ensures |old(destroyed)| <= |destroyed| && destroyed[..|old(destroyed)|] == old(destroyed)
      ensures (decoders, destroyed[|old(destroyed)|..], rv) == Released(old(decoders), results)
      ensures decoded == old(decoded) && hasCallback == old(hasCallback)
      ensures submitted == old(submitted) && outputs == old(outputs)
    {
      var i := 0;
      while i < |results|
        invariant 0 <= i <= |results|
        invariant forall j :: 0 <= j < i ==> results[j] == CodecOk
        invariant decoders == old(decoders)[i..]
        invariant destroyed == old(destroyed) + old(decoders)[..i]
        invariant decoded == old(decoded) && hasCallback == old(hasCallback)
        invariant submitted == old(submitted) && outputs == old(outputs)
      {
        if results[i] != CodecOk {
          SucceededIsFirstFailure(results, i);
          return results[i];
        }
        destroyed := destroyed + [decoders[0]];
        decoders := decoders[1..];
        i := i + 1;
      }
      SucceededIsFirstFailure(results, i);
      rv := CodecOk;
    }

    /** `Decoded`: an inner decoder's image of `stream`. */
    method Decoded(stream: nat, image: Frame, decodeTimeMs: Option<int>, qp: Option<int>)
      requires hasCallback
      modifies this
      ensures var (held, out) := OnDecoded(old(decoded), DecodedData(stream, image, decodeTimeMs, qp));
        && decoded == held
        && outputs == old(outputs) + (if out.Some? then [out.value] else [])
      ensures decoders == old(decoders) && hasCallback == old(hasCallback)
      ensures submitted == old(submitted) && destroyed == old(destroyed)
    {
      var incoming := DecodedData(stream, image, decodeTimeMs, qp);
      if image.timestamp in decoded {
        var other := decoded[image.timestamp];
        var merged;
        if stream == YuvStream {
          merged := MergeDecodedImages(incoming, other);
        } else {
          merged := MergeDecodedImages(other, incoming);
        }
        outputs := outputs + [merged];
        decoded := ErasedBefore(decoded, image.timestamp);
        return;
      }
      decoded := decoded[image.timestamp := incoming];
    }

    /** `MergeDecodedImages`: the image handed to the callback. */
    static method MergeDecodedImages(yuv: DecodedData, alpha: DecodedData) returns (out: Output)
      ensures out == Merged(yuv, alpha)
    {
      if alpha.image.timestamp == 0 {
        return Plain(yuv.image, yuv.decodeTimeMs, yuv.qp);
      }
      out := WithAlpha(yuv.image, alpha.image, yuv.image.timestamp, yuv.image.rotation, 0, yuv.decodeTimeMs, yuv.qp);
    }
  }
}
