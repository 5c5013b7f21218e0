/** The Media Foundation H.264 "decoder": a pass-through that wraps each encoded image in a
    native buffer sized by the last key frame's dimensions and hands it to the callback as a
    decoded frame. Whether the sample could be created is a parameter. */
module H264Decoder {
  import opened Common

  /** The fields of `EncodedImage` the decoder reads. */
  datatype EncodedImage = EncodedImage(keyFrame: bool, encodedWidth: int, encodedHeight: int,
                                       timestamp: int, ntpTimeMs: int)

  /** A frame handed to the callback. */
  datatype DecodedFrame = DecodedFrame(width: int, height: int, timestamp: int, renderTimeMs: int,
                                       ntpTimeMs: int, rotation: int)

  /** `kVideoRotation_0`. */
  const Rotation0: int := 0

  /** Whether an image carries dimensions the decoder adopts: a key frame with both sides
      positive. */
  predicate SetsDimensions(image: EncodedImage)
  {
    image.keyFrame && image.encodedWidth > 0 && image.encodedHeight > 0
  }

  /** `UpdateVideoFrameDimensions`: the dimensions after one image. */
  function Dimensions(width: int, height: int, image: EncodedImage): (r: (int, int))
    ensures r == (width, height) || r == (image.encodedWidth, image.encodedHeight)
    ensures r != (width, height) ==> image.keyFrame && r.0 > 0 && r.1 > 0
  {
    if SetsDimensions(image) then (image.encodedWidth, image.encodedHeight) else (width, height)
  }

  /** The dimensions after a run of images. */
  function DimensionsAfter(width: int, height: int, images: seq<EncodedImage>): (int, int)
    decreases |images|
  {
    if images == [] then (width, height)
    else
      var d := Dimensions(width, height, images[0]);
      DimensionsAfter(d.0, d.1, images[1..])
  }

  /** No image after index `k` sets the dimensions. */
  predicate NoneSetsAfter(images: seq<EncodedImage>, k: int)
  {
    forall j :: k < j < |images| && j >= 0 ==> !SetsDimensions(images[j])
  }

  /** After a run of images, the dimensions are those of the last key frame with positive
      dimensions, or the starting ones when there is none. */
  lemma {:induction false} LastKeyFrameDecides(width: int, height: int, images: seq<EncodedImage>)
    ensures NoneSetsAfter(images, -1) ==> DimensionsAfter(width, height, images) == (width, height)
    ensures forall k :: 0 <= k < |images| && SetsDimensions(images[k]) && NoneSetsAfter(images, k) ==>
      DimensionsAfter(width, height, images) == (images[k].encodedWidth, images[k].encodedHeight)
    decreases |images|
  {
    if images != [] {
      var d := Dimensions(width, height, images[0]);
      var rest := images[1..];
      LastKeyFrameDecides(d.0, d.1, rest);
      assert DimensionsAfter(width, height, images) == DimensionsAfter(d.0, d.1, rest);
      if NoneSetsAfter(images, -1) {
        assert !SetsDimensions(images[0]);
        assert NoneSetsAfter(rest, -1) by {
          forall j | 0 <= j < |rest| ensures !SetsDimensions(rest[j]) {
            assert rest[j] == images[j + 1];
          }
        }
      }
      forall k | 0 <= k < |images| && SetsDimensions(images[k]) && NoneSetsAfter(images, k)
        ensures DimensionsAfter(width, height, images) == (images[k].encodedWidth, images[k].encodedHeight)
      {
        if k == 0 {
          assert NoneSetsAfter(rest, -1) by {
            forall j | 0 <= j < |rest| ensures !SetsDimensions(rest[j]) {
              assert rest[j] == images[j + 1];
            }
          }
        } else {
          assert rest[k - 1] == images[k];
          assert NoneSetsAfter(rest, k - 1) by {
            forall j | k - 1 < j < |rest| ensures !SetsDimensions(rest[j]) {
              assert rest[j] == images[j + 1];
            }
          }
        }
      }
    }
  }

  class Decoder {
    var width: int
    var height: int
    var hasCallback: bool
    /** Frames handed to the callback. */
    var delivered: seq<DecodedFrame>
    /** Encoded images seen by `Decode`, in order. */
    ghost var images: seq<EncodedImage>

    /** The dimensions always follow the images decoded so far. */
    ghost predicate Valid()
      reads this
    {
      (width, height) == DimensionsAfter(0, 0, images)
    }

    constructor()
      ensures width == 0 && height == 0 && !hasCallback && delivered == [] && images == []
      ensures Valid()
    {
      width := 0;
      height := 0;
      hasCallback := false;
      delivered := [];
      images := [];
    }

    /** `InitDecode`: nothing to set up. */
    method InitDecode() returns (rv: int)
      ensures rv == CodecOk
    {
      rv := CodecOk;
    }

    method RegisterDecodeCompleteCallback(present: bool) returns (rv: int)
      modifies this
      ensures hasCallback == present && rv == CodecOk
      ensures width == old(width) && height == old(height)
      ensures delivered == old(delivered) && images == old(images)
    {
      hasCallback := present;
      rv := CodecOk;
    }

    /** `Release`: nothing to free; the callback stays registered. */
    method Release() returns (rv: int)
      ensures rv == CodecOk
    {
      rv := CodecOk;
    }

    /** `UpdateVideoFrameDimensions`. */
    method UpdateVideoFrameDimensions(image: EncodedImage)
      modifies this
      ensures (width, height) == Dimensions(old(width), old(height), image)
      ensures hasCallback == old(hasCallback) && delivered == old(delivered) && images == old(images)
    {
      if image.keyFrame && image.encodedWidth > 0 && image.encodedHeight > 0 {
        width := image.encodedWidth;
        height := image.encodedHeight;
      }
    }

    /** `Decode`: the dimensions are updated, and when the sample could be created and a
        callback is registered, the frame goes to it with the image's timestamps, the
        given render time and no rotation. The result is always success. */
    method Decode(image: EncodedImage, renderTimeMs: int, sampleCreated: bool) returns (rv: int)
      requires Valid()
      modifies this
      ensures Valid() && images == old(images) + [image]
      ensures rv == CodecOk
      ensures (width, height) == Dimensions(old(width), old(height), image)
      ensures delivered == old(delivered) +
        (if sampleCreated && hasCallback
         then [DecodedFrame(width, height, image.timestamp, renderTimeMs, image.ntpTimeMs, Rotation0)]
         else [])
      ensures hasCallback == old(hasCallback)
    {
      UpdateVideoFrameDimensions(image);
      images := images + [image];
      DimensionsAfterAppend(0, 0, old(images), image);
      if sampleCreated {
        var frame := DecodedFrame(width, height, image.timestamp, renderTimeMs, image.ntpTimeMs, Rotation0);
        if hasCallback {
          delivered := delivered + [frame];
        }
      }
      rv := CodecOk;
    }
  }

  /** Decoding one more image applies `Dimensions` to the dimensions so far. */
  lemma {:induction false} DimensionsAfterAppend(width: int, height: int, images: seq<EncodedImage>, image: EncodedImage)
    ensures var d := DimensionsAfter(width, height, images);
      DimensionsAfter(width, height, images + [image]) == Dimensions(d.0, d.1, image)
    decreases |images|
  {
    if images == [] {
      assert [image][1..] == [];
    } else {
      var d := Dimensions(width, height, images[0]);
      assert (images + [image])[1..] == images[1..] + [image];
      DimensionsAfterAppend(d.0, d.1, images[1..], image);
    }
  }
}
