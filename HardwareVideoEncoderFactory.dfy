/** Selection of Android hardware video encoders: which MIME type a codec serves, which
    vendor requirements it meets on the running SDK, which colour format it is fed, and
    the key-frame intervals and rate adjuster of the encoder built for it. The codec list
    is a parameter: entry `None` is a codec whose information could not be read. */
module HardwareVideoEncoderFactory {
  import opened Common
  import HardwareVideoEncoder

  const Kitkat: int := 19
  const Lollipop: int := 21
  const LollipopMr1: int := 22
  const Marshmallow: int := 23
  const Nougat: int := 24

  const QcomVp8KeyFrameIntervalAndroidLMs: int := 15000
  const QcomVp8KeyFrameIntervalAndroidMMs: int := 20000
  const QcomVp8KeyFrameIntervalAndroidNMs: int := 15000

  datatype AdjustmentType = NoAdjustment | FramerateAdjustment | DynamicAdjustment

  datatype Requirements = Requirements(codecPrefix: string, minSdk: int, adjustment: AdjustmentType)

  const QcomPrefix: string := "OMX.qcom."
  const ExynosPrefix: string := "OMX.Exynos."
  const IntelPrefix: string := "OMX.Intel."

  const QcomVp8: Requirements := Requirements(QcomPrefix, Kitkat, NoAdjustment)
  const ExynosVp8: Requirements := Requirements(ExynosPrefix, Marshmallow, DynamicAdjustment)
  const IntelVp8: Requirements := Requirements(IntelPrefix, Lollipop, NoAdjustment)
  const QcomVp9: Requirements := Requirements(QcomPrefix, Nougat, NoAdjustment)
  const ExynosVp9: Requirements := Requirements(ExynosPrefix, Nougat, FramerateAdjustment)
  const QcomH264: Requirements := Requirements(QcomPrefix, Kitkat, NoAdjustment)
  const ExynosH264: Requirements := Requirements(ExynosPrefix, Lollipop, FramerateAdjustment)

  /** The VP8 list; the Intel entry is present only when its field trial is enabled. */
  function Vp8HwList(intelVp8Enabled: bool): (r: seq<Requirements>)
    ensures |r| >= 2 && r[0] == QcomVp8 && r[1] == ExynosVp8
    ensures IntelVp8 in r <==> intelVp8Enabled
  {
    [QcomVp8, ExynosVp8] + (if intelVp8Enabled then [IntelVp8] else [])
  }

  const Vp9HwList: seq<Requirements> := [QcomVp9, ExynosVp9]
  const H264HwList: seq<Requirements> := [QcomH264, ExynosH264]

  /** The VP8 entries come first, so the Exynos VP8 entry is the first Exynos entry. */
  function AllSupportedCodecs(intelVp8Enabled: bool): (r: seq<Requirements>)
    ensures |r| >= 6 && r[1] == ExynosVp8
    ensures forall k :: 0 <= k < |r| && r[k].codecPrefix == ExynosPrefix ==> k >= 1
    ensures forall q :: q in Vp9HwList || q in H264HwList ==> q in r
  {
    Vp8HwList(intelVp8Enabled) + Vp9HwList + H264HwList
  }

  const H264HwExceptionModels: seq<string> := ["SAMSUNG-SGH-I337", "Nexus 7", "Nexus 4"]

  const SupportedMimeTypes: seq<string> :=
    [HardwareVideoEncoder.Vp8MimeType, HardwareVideoEncoder.Vp9MimeType, HardwareVideoEncoder.H264MimeType]

  /** Supported colour formats in order of preference. */
  const SupportedColorFormats: seq<int> :=
    [HardwareVideoEncoder.ColorFormatYUV420Planar, HardwareVideoEncoder.ColorFormatYUV420SemiPlanar,
     HardwareVideoEncoder.ColorQcomFormatYUV420SemiPlanar,
     HardwareVideoEncoder.ColorQcomFormatYUV420PackedSemiPlanar32m]

  predicate StartsWith(s: string, prefix: string)
  {
    |prefix| <= |s| && s[..|prefix|] == prefix
  }

  /** `getSupportedMimeType`: the first listed type the factory supports, skipping H.264 on
      the blacklisted models. */
  function GetSupportedMimeType(types: seq<string>, model: string): (r: Option<string>)
    ensures r.Some? ==> r.value in types && r.value in SupportedMimeTypes
    ensures r.Some? && model in H264HwExceptionModels ==> r.value != HardwareVideoEncoder.H264MimeType
  {
    if types == [] then None
    else if types[0] in SupportedMimeTypes
            && !(types[0] == HardwareVideoEncoder.H264MimeType && model in H264HwExceptionModels)
    then Some(types[0])
    else GetSupportedMimeType(types[1..], model)
  }

  predicate MimeAccepted(t: string, model: string)
  {
    t in SupportedMimeTypes && !(t == HardwareVideoEncoder.H264MimeType && model in H264HwExceptionModels)
  }

  lemma {:induction false} GetSupportedMimeTypeIsFirst(types: seq<string>, model: string)
    ensures var r := GetSupportedMimeType(types, model);
      && (r.None? <==> forall i :: 0 <= i < |types| ==> !MimeAccepted(types[i], model))
      && (r.Some? ==> exists i :: 0 <= i < |types| && types[i] == r.value &&
                        MimeAccepted(types[i], model) &&
                        forall j :: 0 <= j < i ==> !MimeAccepted(types[j], model))
    decreases |types|
  {
    if types != [] && !MimeAccepted(types[0], model) {
      GetSupportedMimeTypeIsFirst(types[1..], model);
      var r := GetSupportedMimeType(types, model);
      if r.Some? {
        var i :| 0 <= i < |types[1..]| && types[1..][i] == r.value && MimeAccepted(types[1..][i], model) &&
                 forall j :: 0 <= j < i ==> !MimeAccepted(types[1..][j], model);
        assert types[i + 1] == r.value;
        assert forall j :: 0 <= j < i + 1 ==> !MimeAccepted(types[j], model) by {
          forall j | 0 <= j < i + 1 ensures !MimeAccepted(types[j], model) {
            if j > 0 { assert types[j] == types[1..][j - 1]; }
          }
        }
      } else {
        assert forall i :: 0 <= i < |types| ==> !MimeAccepted(types[i], model) by {
          forall i | 0 <= i < |types| ensures !MimeAccepted(types[i], model) {
            if i > 0 { assert types[i] == types[1..][i - 1]; }
          }
        }
      }
    }
  }

  /** A requirement entry that admits the codec on this SDK. */
  predicate Admits(req: Requirements, codecName: string, sdk: int)
  {
    StartsWith(codecName, req.codecPrefix) && sdk >= req.minSdk
  }

  /** The loop of `getMatchingRequirements` over a list: a prefix match with too low an
      SDK does not stop the search. */
  function FirstMatching(list: seq<Requirements>, codecName: string, sdk: int): (r: Option<Requirements>)
    ensures r.Some? ==> r.value in list && Admits(r.value, codecName, sdk)
    ensures r.None? <==> forall i :: 0 <= i < |list| ==> !Admits(list[i], codecName, sdk)
  {
    if list == [] then None
    else if StartsWith(codecName, list[0].codecPrefix) && sdk >= list[0].minSdk then Some(list[0])
    else FirstMatching(list[1..], codecName, sdk)
  }

  lemma {:induction false} FirstMatchingIsFirst(list: seq<Requirements>, codecName: string, sdk: int)
    requires FirstMatching(list, codecName, sdk).Some?
    ensures exists i :: 0 <= i < |list| && list[i] == FirstMatching(list, codecName, sdk).value &&
                        forall j :: 0 <= j < i ==> !Admits(list[j], codecName, sdk)
    decreases |list|
  {
    if !Admits(list[0], codecName, sdk) {
      FirstMatchingIsFirst(list[1..], codecName, sdk);
      var i :| 0 <= i < |list[1..]| && list[1..][i] == FirstMatching(list, codecName, sdk).value &&
               forall j :: 0 <= j < i ==> !Admits(list[1..][j], codecName, sdk);
      assert list[i + 1] == list[1..][i];
      forall j | 0 <= j < i + 1 ensures !Admits(list[j], codecName, sdk) {
        if j > 0 { assert list[j] == list[1..][j - 1]; }
      }
    }
  }

  /** `getMatchingRequirements` as written: one search over every codec's list, whatever
      the MIME type. */
  function GetMatchingRequirementsAsWritten(codecName: string, sdk: int, intelVp8Enabled: bool)
    : (r: Option<Requirements>)
    ensures r.Some? ==> r.value in AllSupportedCodecs(intelVp8Enabled) && Admits(r.value, codecName, sdk)
    ensures r.None? <==> forall q :: q in AllSupportedCodecs(intelVp8Enabled) ==> !Admits(q, codecName, sdk)
  {
    FirstMatching(AllSupportedCodecs(intelVp8Enabled), codecName, sdk)
  }

  /** The list of requirements that belongs to a MIME type. */
  function HwListFor(mimeType: string, intelVp8Enabled: bool): (r: seq<Requirements>)
    ensures forall q :: q in r ==> q in AllSupportedCodecs(intelVp8Enabled)
    ensures mimeType !in SupportedMimeTypes <==> r == []
  {
    if mimeType == HardwareVideoEncoder.Vp8MimeType then Vp8HwList(intelVp8Enabled)
    else if mimeType == HardwareVideoEncoder.Vp9MimeType then Vp9HwList
    else if mimeType == HardwareVideoEncoder.H264MimeType then H264HwList
    else []
  }

  /** `getMatchingRequirements` restricted to the MIME type's own list, so that every entry
      of every list can be chosen. */
  function GetMatchingRequirements(mimeType: string, codecName: string, sdk: int, intelVp8Enabled: bool)
    : (r: Option<Requirements>)
    ensures r.Some? ==> r.value in HwListFor(mimeType, intelVp8Enabled) && Admits(r.value, codecName, sdk)
  {
    FirstMatching(HwListFor(mimeType, intelVp8Enabled), codecName, sdk)
  }

  /** As written, an Exynos VP9 encoder on Android N is given the Exynos VP8 entry (dynamic
      adjustment) instead of its own (framerate adjustment): the VP9 and, from M on, the
      H.264 Exynos entries can never be chosen. */
  lemma ExynosVp9GetsVp8Requirements(intelVp8Enabled: bool)
    ensures GetMatchingRequirementsAsWritten("OMX.Exynos.VP9.Encoder", Nougat, intelVp8Enabled) == Some(ExynosVp8)
    ensures GetMatchingRequirements(HardwareVideoEncoder.Vp9MimeType, "OMX.Exynos.VP9.Encoder", Nougat, intelVp8Enabled)
            == Some(ExynosVp9)
  {
    var name := "OMX.Exynos.VP9.Encoder";
    assert !StartsWith(name, QcomPrefix) by { assert name[4] != QcomPrefix[4]; }
    assert StartsWith(name, ExynosPrefix);
    var all := AllSupportedCodecs(intelVp8Enabled);
    assert all[0] == QcomVp8 && all[1..][0] == ExynosVp8;
    assert FirstMatching(all, name, Nougat) == FirstMatching(all[1..], name, Nougat);
    assert Vp9HwList[1..] == [ExynosVp9];
  }

  /** With the per-type lists, an Exynos encoder's adjuster follows its own MIME type. */
  lemma ExynosAdjustmentFollowsMimeType(codecName: string, sdk: int, intelVp8Enabled: bool)
    requires StartsWith(codecName, ExynosPrefix)
    ensures GetMatchingRequirements(HardwareVideoEncoder.Vp8MimeType, codecName, sdk, intelVp8Enabled)
            == (if sdk >= Marshmallow then Some(ExynosVp8) else None)
    ensures GetMatchingRequirements(HardwareVideoEncoder.Vp9MimeType, codecName, sdk, intelVp8Enabled)
            == (if sdk >= Nougat then Some(ExynosVp9) else None)
    ensures GetMatchingRequirements(HardwareVideoEncoder.H264MimeType, codecName, sdk, intelVp8Enabled)
            == (if sdk >= Lollipop then Some(ExynosH264) else None)
  {
    assert !StartsWith(codecName, QcomPrefix) by { assert codecName[4] != QcomPrefix[4]; }
    assert !StartsWith(codecName, IntelPrefix) by { assert codecName[4] != IntelPrefix[4]; }
    var vp8 := Vp8HwList(intelVp8Enabled);
    assert vp8[1..][0] == ExynosVp8;
    if intelVp8Enabled {
      assert vp8[1..][1..] == [IntelVp8];
    } else {
      assert vp8[1..][1..] == [];
    }
    assert Vp9HwList[1..] == [ExynosVp9];
    assert H264HwList[1..] == [ExynosH264];
  }

  /** The outer loop of `getSupportedColorFormat`: the first preferred format the codec
      lists, or -1. */
  function FirstPreferred(preferred: seq<int>, codecFormats: seq<int>): (r: int)
    requires forall i :: 0 <= i < |preferred| ==> preferred[i] >= 0
    ensures r == -1 || (r in preferred && r in codecFormats)
    ensures r == -1 <==> forall i :: 0 <= i < |preferred| ==> preferred[i] !in codecFormats
  {
    if preferred == [] then -1
    else if preferred[0] in codecFormats then preferred[0]
    else FirstPreferred(preferred[1..], codecFormats)
  }

  /** `getSupportedColorFormat`. */
  function GetSupportedColorFormat(codecFormats: seq<int>): (r: int)
    ensures r == -1 || (r in SupportedColorFormats && r in codecFormats)
    ensures r == -1 <==> forall f :: f in SupportedColorFormats ==> f !in codecFormats
  {
    FirstPreferred(SupportedColorFormats, codecFormats)
  }

  /** Preference order wins over the codec's own order: no format listed before the chosen
      one in the preference list is offered by the codec. */
  lemma {:induction false} SupportedColorFormatIsPreferred(preferred: seq<int>, codecFormats: seq<int>, i: nat)
    requires forall j :: 0 <= j < |preferred| ==> preferred[j] >= 0
    requires i < |preferred| && preferred[i] in codecFormats
    ensures FirstPreferred(preferred, codecFormats) in preferred[..i + 1]
    decreases i
  {
    if i > 0 && preferred[0] !in codecFormats {
      SupportedColorFormatIsPreferred(preferred[1..], codecFormats, i - 1);
      assert preferred[1..][..i] == preferred[1..i + 1];
    }
  }

  /** What `createEncoder` passes to the encoder for a loaded codec. */
  datatype EncoderParams = EncoderParams(
    name: string,
    mimeType: string,
    colorFormat: int,
    keyFrameIntervalSec: int,
    forcedKeyFrameMs: int,
    adjustment: AdjustmentType)

  datatype CodecProperties = CodecProperties(name: string, mimeType: string, colorFormat: int, requirements: Requirements)

  function KeyFrameIntervalSec(mimeType: string): (r: int)
    ensures mimeType == HardwareVideoEncoder.H264MimeType ==> r == 20
    ensures mimeType == HardwareVideoEncoder.Vp8MimeType || mimeType == HardwareVideoEncoder.Vp9MimeType ==> r == 100
  {
    if mimeType == HardwareVideoEncoder.Vp8MimeType || mimeType == HardwareVideoEncoder.Vp9MimeType then 100
    else if mimeType == HardwareVideoEncoder.H264MimeType then 20
    else 0
  }

  function ForcedKeyFrameMs(name: string, mimeType: string, sdk: int): (r: int)
    ensures r != 0 ==> mimeType == HardwareVideoEncoder.Vp8MimeType && StartsWith(name, QcomPrefix)
  {
    if mimeType == HardwareVideoEncoder.Vp8MimeType && StartsWith(name, QcomPrefix) then
      if sdk == Lollipop || sdk == LollipopMr1 then QcomVp8KeyFrameIntervalAndroidLMs
      else if sdk == Marshmallow then QcomVp8KeyFrameIntervalAndroidMMs
      else if sdk > Marshmallow then QcomVp8KeyFrameIntervalAndroidNMs
      else 0
    else 0
  }

  /** The forced key-frame interval by SDK for a Qualcomm VP8 encoder. */
  lemma QcomVp8ForcedKeyFrames(name: string, sdk: int)
    requires StartsWith(name, QcomPrefix)
    ensures var r := ForcedKeyFrameMs(name, HardwareVideoEncoder.Vp8MimeType, sdk);
      && (sdk < Lollipop ==> r == 0)
      && (Lollipop <= sdk <= LollipopMr1 ==> r == 15000)
      && (sdk == Marshmallow ==> r == 20000)
      && (sdk > Marshmallow ==> r == 15000)
  {
  }

  /** `createEncoder` once the codecs are loaded; None where the source dereferences the
      missing properties of an unknown name. */
  function CreateEncoderParams(supported: map<string, CodecProperties>, name: string, sdk: int)
    : (r: Option<EncoderParams>)
    ensures r.None? <==> name !in supported
    ensures r.Some? ==> r.value.adjustment == supported[name].requirements.adjustment &&
                        r.value.keyFrameIntervalSec == KeyFrameIntervalSec(supported[name].mimeType)
  {
    if name !in supported then None
    else
      var p := supported[name];
      Some(EncoderParams(p.name, p.mimeType, p.colorFormat, KeyFrameIntervalSec(p.mimeType),
                         ForcedKeyFrameMs(p.name, p.mimeType, sdk), p.requirements.adjustment))
  }

  /** What `MediaCodecList` reports for one codec. */
  datatype CodecInfo = CodecInfo(
    name: string,
    isEncoder: bool,
    supportedTypes: seq<string>,
    capabilities: map<string, seq<int>>)

  /** The environment the factory consults. */
  datatype Platform = Platform(sdk: int, model: string, intelVp8Enabled: bool)

  /** How the loading loop finds a codec's requirements. `AllLists` is the loop as written:
      `getMatchingRequirements(name)` searches every codec's list whatever the MIME type.
      `OwnList` is the corrected lookup in the list of the MIME type being served. */
  datatype Lookup = AllLists | OwnList

  /** The requirements the loading loop finds for a codec serving `mimeType`. */
  function RequirementsFor(lookup: Lookup, p: Platform, mimeType: string, codecName: string)
    : (r: Option<Requirements>)
    ensures r.Some? ==> r.value in AllSupportedCodecs(p.intelVp8Enabled) && Admits(r.value, codecName, p.sdk)
    ensures lookup.AllLists? && r.None? ==>
      forall q :: q in AllSupportedCodecs(p.intelVp8Enabled) ==> !Admits(q, codecName, p.sdk)
    ensures lookup.OwnList? ==> r.Some? ==> r.value in HwListFor(mimeType, p.intelVp8Enabled)
  {
    match lookup
    case AllLists => GetMatchingRequirementsAsWritten(codecName, p.sdk, p.intelVp8Enabled)
    case OwnList => GetMatchingRequirements(mimeType, codecName, p.sdk, p.intelVp8Enabled)
  }

  /** The properties one codec contributes, if it qualifies. */
  function Candidate(p: Platform, info: Option<CodecInfo>, lookup: Lookup): (r: Option<CodecProperties>)
    ensures r.Some? ==> info.Some? && info.value.isEncoder && r.value.name == info.value.name
    ensures r.Some? ==> r.value.mimeType in SupportedMimeTypes && r.value.colorFormat in SupportedColorFormats
    ensures r.Some? ==> GetSupportedMimeType(info.value.supportedTypes, p.model) == Some(r.value.mimeType)
    ensures r.Some? ==> Admits(r.value.requirements, r.value.name, p.sdk)
    ensures r.Some? ==> Some(r.value.requirements) == RequirementsFor(lookup, p, r.value.mimeType, r.value.name)
    ensures r.Some? ==> (r.value.mimeType in info.value.capabilities &&
      r.value.colorFormat == GetSupportedColorFormat(info.value.capabilities[r.value.mimeType]))
    ensures r.None? && info.Some? && info.value.isEncoder ==>
      || GetSupportedMimeType(info.value.supportedTypes, p.model).None?
      || RequirementsFor(lookup, p, GetSupportedMimeType(info.value.supportedTypes, p.model).value,
                         info.value.name).None?
      || GetSupportedMimeType(info.value.supportedTypes, p.model).value !in info.value.capabilities
      || GetSupportedColorFormat(info.value.capabilities[GetSupportedMimeType(info.value.supportedTypes, p.model).value]) < 0
  {
    if info.None? || !info.value.isEncoder then None
    else
      var mime := GetSupportedMimeType(info.value.supportedTypes, p.model);
      if mime.None? then None
      else
        GetSupportedMimeTypeIsFirst(info.value.supportedTypes, p.model);
        var req := RequirementsFor(lookup, p, mime.value, info.value.name);
        if req.None? then None
        else if mime.value !in info.value.capabilities then None
        else
          var color := GetSupportedColorFormat(info.value.capabilities[mime.value]);
          if color < 0 then None
          else Some(CodecProperties(info.value.name, mime.value, color, req.value))
  }

  /** The map after the loop over the first codecs: later codecs of the same name win. */
  function Load(m: map<string, CodecProperties>, p: Platform, infos: seq<Option<CodecInfo>>, lookup: Lookup)
    : (r: map<string, CodecProperties>)
    ensures forall n :: n in r ==>
      (n in m && r[n] == m[n]) || exists i :: 0 <= i < |infos| && Candidate(p, infos[i], lookup) == Some(r[n])
    decreases |infos|
  {
    if infos == [] then m
    else
      var before := Load(m, p, infos[..|infos| - 1], lookup);
      var c := Candidate(p, infos[|infos| - 1], lookup);
      if c.Some? then before[c.value.name := c.value] else before
  }

  /** Every loaded codec is keyed by its name and meets the factory's rules. */
  predicate WellFormed(m: map<string, CodecProperties>, p: Platform)
  {
    forall n :: n in m ==>
      (m[n].name == n && m[n].mimeType in SupportedMimeTypes &&
       m[n].colorFormat in SupportedColorFormats && Admits(m[n].requirements, n, p.sdk))
  }

  /** Whichever lookup it uses, loading keeps every entry qualified and drops no entry. */
  lemma {:induction false} LoadKeepsWellFormed(m: map<string, CodecProperties>, p: Platform,
                                               infos: seq<Option<CodecInfo>>, lookup: Lookup)
    requires WellFormed(m, p)
    ensures WellFormed(Load(m, p, infos, lookup), p)
    ensures m.Keys <= Load(m, p, infos, lookup).Keys
    decreases |infos|
  {
    if infos != [] {
      LoadKeepsWellFormed(m, p, infos[..|infos| - 1], lookup);
    }
  }

  /** Whichever lookup it uses, every codec that qualifies is present after loading. */
  lemma {:induction false} LoadedIfQualified(m: map<string, CodecProperties>, p: Platform,
                                             infos: seq<Option<CodecInfo>>, i: nat, lookup: Lookup)
    requires i < |infos| && Candidate(p, infos[i], lookup).Some?
    ensures Candidate(p, infos[i], lookup).value.name in Load(m, p, infos, lookup)
    decreases |infos|
  {
    if i < |infos| - 1 {
      assert infos[..|infos| - 1][i] == infos[i];
      LoadedIfQualified(m, p, infos[..|infos| - 1], i, lookup);
    }
  }

  /** The codec list of an Exynos device that offers one VP9 encoder, in I420. */
  function ExynosVp9Device(): seq<Option<CodecInfo>>
  {
    [Some(CodecInfo("OMX.Exynos.VP9.Encoder", true, [HardwareVideoEncoder.Vp9MimeType],
                    map[HardwareVideoEncoder.Vp9MimeType := [HardwareVideoEncoder.ColorFormatYUV420Planar]]))]
  }

  /** Loading as written, on Android N, registers the Exynos VP9 encoder with the Exynos VP8
      entry and hence dynamic rate adjustment; the corrected lookup registers it with its own
      entry and framerate adjustment. */
  lemma LoadAsWrittenGivesExynosVp9DynamicAdjustment(intelVp8Enabled: bool)
    ensures var p := Platform(Nougat, "", intelVp8Enabled);
      var asWritten := Load(map[], p, ExynosVp9Device(), AllLists);
      var corrected := Load(map[], p, ExynosVp9Device(), OwnList);
      && "OMX.Exynos.VP9.Encoder" in asWritten && asWritten["OMX.Exynos.VP9.Encoder"].requirements == ExynosVp8
      && "OMX.Exynos.VP9.Encoder" in corrected && corrected["OMX.Exynos.VP9.Encoder"].requirements == ExynosVp9
  {
    var p := Platform(Nougat, "", intelVp8Enabled);
    var infos := ExynosVp9Device();
    ExynosVp9GetsVp8Requirements(intelVp8Enabled);
    assert GetSupportedMimeType(infos[0].value.supportedTypes, p.model) == Some(HardwareVideoEncoder.Vp9MimeType);
    assert GetSupportedColorFormat(infos[0].value.capabilities[HardwareVideoEncoder.Vp9MimeType])
        == HardwareVideoEncoder.ColorFormatYUV420Planar;
    assert infos[..0] == [];
    assert Candidate(p, infos[0], AllLists) == Some(CodecProperties("OMX.Exynos.VP9.Encoder",
      HardwareVideoEncoder.Vp9MimeType, HardwareVideoEncoder.ColorFormatYUV420Planar, ExynosVp8));
    assert Candidate(p, infos[0], OwnList) == Some(CodecProperties("OMX.Exynos.VP9.Encoder",
      HardwareVideoEncoder.Vp9MimeType, HardwareVideoEncoder.ColorFormatYUV420Planar, ExynosVp9));
  }

  class Factory {
    var supportedCodecs: map<string, CodecProperties>

    constructor()
      ensures supportedCodecs == map[]
    {
      supportedCodecs := map[];
    }

    /** `loadSupportedCodecs`, with the corrected requirement lookup: nothing happens once
        loaded or before KitKat. */
    method LoadSupportedCodecs(p: Platform, infos: seq<Option<CodecInfo>>)
      modifies this
      ensures old(supportedCodecs) != map[] || p.sdk < Kitkat ==> supportedCodecs == old(supportedCodecs)
      ensures old(supportedCodecs) == map[] && p.sdk >= Kitkat ==> supportedCodecs == Load(map[], p, infos, OwnList)
    {
      if supportedCodecs != map[] {
        return;
      }
      if p.sdk < Kitkat {
        return;
      }
      var i := 0;
      while i < |infos|
        invariant 0 <= i <= |infos|
        invariant supportedCodecs == Load(map[], p, infos[..i], OwnList)
      {
        assert infos[..i + 1][..i] == infos[..i];
        var c := Candidate(p, infos[i], OwnList);
        if c.Some? {
          supportedCodecs := supportedCodecs[c.value.name := c.value];
        }
        i := i + 1;
      }
      assert infos[..i] == infos;
    }

    /** `createEncoder`: loads the codecs, then looks the name up. */
    method CreateEncoder(p: Platform, infos: seq<Option<CodecInfo>>, name: string) returns (r: Option<EncoderParams>)
      modifies this
      ensures old(supportedCodecs) != map[] || p.sdk < Kitkat ==> supportedCodecs == old(supportedCodecs)
      ensures old(supportedCodecs) == map[] && p.sdk >= Kitkat ==> supportedCodecs == Load(map[], p, infos, OwnList)
      ensures r == CreateEncoderParams(supportedCodecs, name, p.sdk)
    {
      LoadSupportedCodecs(p, infos);
      r := CreateEncoderParams(supportedCodecs, name, p.sdk);
    }

    /** `getSupportedCodecs`: loads the codecs, then lists every loaded name once. */
    method GetSupportedCodecs(p: Platform, infos: seq<Option<CodecInfo>>) returns (names: seq<string>)
      modifies this
      ensures old(supportedCodecs) != map[] || p.sdk < Kitkat ==> supportedCodecs == old(supportedCodecs)
      ensures old(supportedCodecs) == map[] && p.sdk >= Kitkat ==> supportedCodecs == Load(map[], p, infos, OwnList)
      ensures |names| == |supportedCodecs.Keys|
      ensures forall n :: n in names <==> n in supportedCodecs
    {
      LoadSupportedCodecs(p, infos);
      names := [];
      var loaded := supportedCodecs;
      var left := supportedCodecs.Keys;
      while left != {}
        invariant supportedCodecs == loaded
        invariant left <= supportedCodecs.Keys
        invariant forall n :: n in names <==> n in supportedCodecs && n !in left
        invariant |names| + |left| == |supportedCodecs.Keys|
        decreases |left|
      {
        var n :| n in left;
        names := names + [n];
        left := left - {n};
      }
    }
  }
}
