/** The codec descriptions of the media engine: the fields every codec has, the audio and
    video variants, the lookup of a codec by payload type and inequality as the negation of
    equality. A pointer into the codec vector is an index into the sequence. */
module Codecs {
  import opened Common

  /** `Codec`, with `AudioCodec`'s extra fields; parameters and feedback parameters are
      kept as values. */
  datatype Codec =
    | VideoCodec(id: int, name: string, clockrate: int, params: map<string, string>,
                 feedbackParams: seq<(string, string)>)
    | AudioCodec(id: int, name: string, clockrate: int, params: map<string, string>,
                 feedbackParams: seq<(string, string)>, bitrate: int, channels: nat)

  /** `FindCodecById`: the index of the first codec with the payload type, if any. The list
      is only read. */
  function FindCodecById(codecs: seq<Codec>, payloadType: int): (r: Option<nat>)
    ensures r.Some? ==> r.value < |codecs| && codecs[r.value].id == payloadType
    ensures r.Some? ==> forall j :: 0 <= j < r.value ==> codecs[j].id != payloadType
    ensures r.None? <==> forall j :: 0 <= j < |codecs| ==> codecs[j].id != payloadType
    decreases |codecs|
  {
    if codecs == [] then None
    else if codecs[0].id == payloadType then Some(0)
    else
      var rest := FindCodecById(codecs[1..], payloadType);
      if rest.Some? then Some(rest.value + 1) else None
  }

  /** `operator!=` of `Codec`, `AudioCodec` and `VideoCodec`: the negation of the class's
      `operator==`, which is given, since its definition is not part of this model. */
  function NotEqual(equal: (Codec, Codec) -> bool, a: Codec, b: Codec): (r: bool)
    ensures r != equal(a, b)
  {
    !equal(a, b)
  }

  /** For an equality that is reflexive and symmetric, `!=` never holds of a codec and
      itself and does not depend on the order of its operands. */
  lemma NotEqualIrreflexiveSymmetric(equal: (Codec, Codec) -> bool, a: Codec, b: Codec)
    requires forall c :: equal(c, c)
    requires equal(a, b) == equal(b, a)
    ensures !NotEqual(equal, a, a)
    ensures NotEqual(equal, a, b) == NotEqual(equal, b, a)
  {
  }
}
