/** The WinRT media facade: device selection by id, the audio device index lookup, the
    de-duplicated list of capture capabilities and whether a stream is active. The device
    lists, the hardware queries and the stream properties are inputs. */
module Media {
  import opened Common

  /** A device as the facade lists it. */
  datatype MediaDevice = MediaDevice(id: string, name: string)

  /** `cricket::Device`: a name and an id. */
  datatype Device = Device(name: string, id: string)

  /** `cricket::Device(kDefaultDeviceName, 0)`: the empty name and the id `"0"`. */
  const DefaultDevice: Device := Device("", "0")

  /** The index of the first device with the id. */
  function FirstWithId(devices: seq<MediaDevice>, id: string): (r: int)
    ensures -1 <= r < |devices|
    ensures r >= 0 ==> devices[r].id == id && forall j :: 0 <= j < r ==> devices[j].id != id
    ensures r == -1 <==> forall j :: 0 <= j < |devices| ==> devices[j].id != id
    decreases |devices|
  {
    if devices == [] then -1
    else if devices[0].id == id then 0
    else
      var r := FirstWithId(devices[1..], id);
      if r == -1 then -1 else r + 1
  }

  /** `GetAudioPlayoutDeviceIndex` and `GetAudioCaptureDeviceIndex`: `deviceIds` are the ids
      the hardware reports for devices `0 .. count - 1`, or `None` when the count cannot be
      obtained, which gives index 0. Otherwise the first index with the id, or -1. */
  method GetAudioDeviceIndex(deviceIds: Option<seq<string>>, id: string) returns (index: int)
    ensures deviceIds.None? ==> index == 0
    ensures deviceIds.Some? ==> -1 <= index < |deviceIds.value|
    ensures deviceIds.Some? && index >= 0 ==>
      deviceIds.value[index] == id && forall j :: 0 <= j < index ==> deviceIds.value[j] != id
    ensures deviceIds.Some? ==> (index == -1 <==> id !in deviceIds.value)
  {
    if deviceIds.None? {
      return 0;
    }
    var ids := deviceIds.value;
    index := -1;
    var i := 0;
    while i < |ids|
      invariant 0 <= i <= |ids|
      invariant forall j :: 0 <= j < i ==> ids[j] != id
    {
      if ids[i] == id {
        index := i;
        break;
      }
      i := i + 1;
    }
  }

  class Media {
    var selectedVideoDevice: Device
    var selectedAudioCapturerDevice: Device
    var selectedAudioPlayoutDevice: Device

    constructor()
      ensures selectedVideoDevice == Device("", "")
      ensures selectedAudioCapturerDevice == DefaultDevice && selectedAudioPlayoutDevice == DefaultDevice
    {
      selectedVideoDevice := Device("", "");
      selectedAudioCapturerDevice := DefaultDevice;
      selectedAudioPlayoutDevice := DefaultDevice;
    }

    /** `SelectVideoDevice`: the selection is cleared, then the first listed device with the
        id is taken. */
    method SelectVideoDevice(videoDevices: seq<MediaDevice>, device: MediaDevice)
      modifies this
      ensures var k := FirstWithId(videoDevices, device.id);
        selectedVideoDevice == if k >= 0 then Device(videoDevices[k].name, videoDevices[k].id) else Device("", "")
      ensures selectedAudioCapturerDevice == old(selectedAudioCapturerDevice)
      ensures selectedAudioPlayoutDevice == old(selectedAudioPlayoutDevice)
    {
      selectedVideoDevice := Device("", "");
      var k := FindDevice(videoDevices, device.id);
      if k >= 0 {
        selectedVideoDevice := Device(videoDevices[k].name, videoDevices[k].id);
      }
    }

    /** `SelectAudioCaptureDevice`: the default device is selected first; no device keeps
        it and succeeds; a listed id is selected and succeeds; any other id fails. */
    method SelectAudioCaptureDevice(capturers: seq<MediaDevice>, device: Option<MediaDevice>) returns (ok: bool)
      modifies this
      ensures device.None? ==> ok && selectedAudioCapturerDevice == DefaultDevice
      ensures device.Some? ==> (ok <==> FirstWithId(capturers, device.value.id) >= 0)
      ensures device.Some? && ok ==>
        var k := FirstWithId(capturers, device.value.id);
        selectedAudioCapturerDevice == Device(capturers[k].name, capturers[k].id)
      ensures !ok ==> selectedAudioCapturerDevice == DefaultDevice
      ensures selectedVideoDevice == old(selectedVideoDevice)
      ensures selectedAudioPlayoutDevice == old(selectedAudioPlayoutDevice)
    {
      selectedAudioCapturerDevice := DefaultDevice;
      if device.None? {
        return true;
      }
      var k := FindDevice(capturers, device.value.id);
      if k >= 0 {
        selectedAudioCapturerDevice := Device(capturers[k].name, capturers[k].id);
        return true;
      }
      ok := false;
    }

    /** `SelectAudioPlayoutDevice`: as for capture, over the playout list. */
    method SelectAudioPlayoutDevice(playouts: seq<MediaDevice>, device: Option<MediaDevice>) returns (ok: bool)
      modifies this
      ensures device.None? ==> ok && selectedAudioPlayoutDevice == DefaultDevice
      ensures device.Some? ==> (ok <==> FirstWithId(playouts, device.value.id) >= 0)
      ensures device.Some? && ok ==>
        var k := FirstWithId(playouts, device.value.id);
        selectedAudioPlayoutDevice == Device(playouts[k].name, playouts[k].id)
      ensures !ok ==> selectedAudioPlayoutDevice == DefaultDevice
      ensures selectedVideoDevice == old(selectedVideoDevice)
      ensures selectedAudioCapturerDevice == old(selectedAudioCapturerDevice)
    {
      selectedAudioPlayoutDevice := DefaultDevice;
      if device.None? {
        return true;
      }
      var k := FindDevice(playouts, device.value.id);
      if k >= 0 {
        selectedAudioPlayoutDevice := Device(playouts[k].name, playouts[k].id);
        return true;
      }
      ok := false;
    }
  }

  /** The loop the `Select*Device` methods share: the first listed device with the id. */
  method FindDevice(devices: seq<MediaDevice>, id: string) returns (k: int)
    ensures k == FirstWithId(devices, id)
  {
    k := 0;
    while k < |devices|
      invariant 0 <= k <= |devices|
      invariant forall j :: 0 <= j < k ==> devices[j].id != id
    {
      if devices[k].id == id {
        return;
      }
      k := k + 1;
    }
    k := -1;
  }

  // ---------------------------------------------------------------------------------------
  // Capture capabilities

  /** A media stream property of the capture device: its type, frame rate and size. */
  datatype StreamProperty = StreamProperty(isVideo: bool, hasFrameRate: bool, numerator: nat, denominator: nat,
                                           width: nat, height: nat, pixelAspectRatio: (nat, nat))

  /** `CaptureCapability`. */
  datatype CaptureCapability = CaptureCapability(width: nat, height: nat, frameRate: nat, pixelAspectRatio: (nat, nat))

  /** A property that gives a capability: video, with a frame rate whose terms are non-zero
      and a non-zero size. */
  predicate Usable(p: StreamProperty)
  {
    p.isVideo && p.hasFrameRate && p.numerator != 0 && p.denominator != 0 && p.width != 0 && p.height != 0
  }

  /** The capability of a usable property: the frame rate is the integer quotient. */
  function CapabilityOf(p: StreamProperty): (r: CaptureCapability)
    requires Usable(p)
    ensures r.width == p.width != 0 && r.height == p.height != 0 && r.pixelAspectRatio == p.pixelAspectRatio
    ensures r.frameRate * p.denominator <= p.numerator < (r.frameRate + 1) * p.denominator
  {
    CaptureCapability(p.width, p.height, p.numerator / p.denominator, p.pixelAspectRatio)
  }

  function Descriptions(caps: seq<CaptureCapability>, describe: CaptureCapability -> string): set<string>
  {
    set i | 0 <= i < |caps| :: describe(caps[i])
  }

  /** The capabilities `GetVideoCaptureCapabilities` lists for the properties, in order:
      each usable property's capability unless one with the same full description is
      already listed. `describe` is `FullDescription`, whose format is not part of this
      model. */
  function Capabilities(props: seq<StreamProperty>, describe: CaptureCapability -> string): (r: seq<CaptureCapability>)
    ensures |r| <= |props|
    ensures forall i :: 0 <= i < |r| ==> r[i].width != 0 && r[i].height != 0
    decreases |props|
  {
    if props == [] then []
    else
      var front := Capabilities(props[..|props| - 1], describe);
      var p := props[|props| - 1];
      if Usable(p) && describe(CapabilityOf(p)) !in Descriptions(front, describe) then front + [CapabilityOf(p)]
      else front
  }

  /** The listed capabilities have distinct descriptions, each comes from a usable
      property, and every usable property's description is represented. */
  lemma CapabilitiesDeduplicated(props: seq<StreamProperty>, describe: CaptureCapability -> string)
    ensures forall i, j :: 0 <= i < j < |Capabilities(props, describe)| ==>
      describe(Capabilities(props, describe)[i]) != describe(Capabilities(props, describe)[j])
    ensures forall i :: 0 <= i < |Capabilities(props, describe)| ==> FromUsable(props, Capabilities(props, describe)[i])
    ensures forall k :: 0 <= k < |props| && Usable(props[k]) ==>
      describe(CapabilityOf(props[k])) in Descriptions(Capabilities(props, describe), describe)
  {
    CapabilitiesDistinct(props, describe);
    CapabilitiesFromUsable(props, describe);
    CapabilitiesCover(props, describe);
  }

  lemma {:induction false} CapabilitiesDistinct(props: seq<StreamProperty>, describe: CaptureCapability -> string)
    ensures forall i, j :: 0 <= i < j < |Capabilities(props, describe)| ==>
      describe(Capabilities(props, describe)[i]) != describe(Capabilities(props, describe)[j])
    decreases |props|
  {
    if props != [] {
      var n := |props| - 1;
      var front := Capabilities(props[..n], describe);
      CapabilitiesDistinct(props[..n], describe);
      var caps := Capabilities(props, describe);
      var p := props[n];
      if Usable(p) && describe(CapabilityOf(p)) !in Descriptions(front, describe) {
        assert caps == front + [CapabilityOf(p)];
        forall i, j | 0 <= i < j < |caps|
          ensures describe(caps[i]) != describe(caps[j])
        {
          assert caps[i] == front[i];
          if j == |front| {
            assert describe(front[i]) in Descriptions(front, describe);
          } else {
            assert caps[j] == front[j];
          }
        }
      } else {
        assert caps == front;
      }
    }
  }

  /** `cap` is the capability of some usable property of `props`. */
  ghost predicate FromUsable(props: seq<StreamProperty>, cap: CaptureCapability)
  {
    exists k :: 0 <= k < |props| && Usable(props[k]) && cap == CapabilityOf(props[k])
  }

  lemma {:induction false} CapabilitiesFromUsable(props: seq<StreamProperty>, describe: CaptureCapability -> string)
    ensures forall i :: 0 <= i < |Capabilities(props, describe)| ==> FromUsable(props, Capabilities(props, describe)[i])
    decreases |props|
  {
    if props != [] {
      var n := |props| - 1;
      var front := Capabilities(props[..n], describe);
      CapabilitiesFromUsable(props[..n], describe);
      var caps := Capabilities(props, describe);
      assert caps == front || caps == front + [CapabilityOf(props[n])];
      forall i | 0 <= i < |caps|
        ensures FromUsable(props, caps[i])
      {
        if i < |front| {
          assert caps[i] == front[i] && FromUsable(props[..n], front[i]);
          var k :| 0 <= k < n && Usable(props[..n][k]) && front[i] == CapabilityOf(props[..n][k]);
          assert props[k] == props[..n][k];
        } else {
          assert caps[i] == CapabilityOf(props[n]);
        }
      }
    }
  }

  lemma {:induction false} CapabilitiesCover(props: seq<StreamProperty>, describe: CaptureCapability -> string)
    ensures forall k :: 0 <= k < |props| && Usable(props[k]) ==>
      describe(CapabilityOf(props[k])) in Descriptions(Capabilities(props, describe), describe)
    decreases |props|
  {
    if props != [] {
      var n := |props| - 1;
      var front := Capabilities(props[..n], describe);
      CapabilitiesCover(props[..n], describe);
      var caps := Capabilities(props, describe);
      var p := props[n];
      forall k | 0 <= k < |props| && Usable(props[k])
        ensures describe(CapabilityOf(props[k])) in Descriptions(caps, describe)
      {
        if k < n {
          assert props[k] == props[..n][k];
          var i :| 0 <= i < |front| && describe(front[i]) == describe(CapabilityOf(props[k]));
          assert caps[i] == front[i];
        } else if describe(CapabilityOf(p)) in Descriptions(front, describe) {
          var i :| 0 <= i < |front| && describe(front[i]) == describe(CapabilityOf(p));
          assert caps[i] == front[i];
        } else {
          assert caps[|front|] == CapabilityOf(p);
        }
      }
    }
  }

  lemma DescriptionsAppend(caps: seq<CaptureCapability>, cap: CaptureCapability, describe: CaptureCapability -> string)
    ensures Descriptions(caps + [cap], describe) == Descriptions(caps, describe) + {describe(cap)}
  {
    var all := caps + [cap];
    forall x | x in Descriptions(all, describe)
      ensures x in Descriptions(caps, describe) + {describe(cap)}
    {
      var i :| 0 <= i < |all| && describe(all[i]) == x;
      if i < |caps| {
        assert all[i] == caps[i];
      }
    }
    forall x | x in Descriptions(caps, describe) + {describe(cap)}
      ensures x in Descriptions(all, describe)
    {
      if x in Descriptions(caps, describe) {
        var i :| 0 <= i < |caps| && describe(caps[i]) == x;
        assert all[i] == caps[i];
      } else {
        assert all[|caps|] == cap;
      }
    }
  }

  /** `GetVideoCaptureCapabilities`: null when the device has no media capture object
      (`captureFound`) or the controller lists no stream properties (`props` is `None`);
      otherwise the loop over the properties, with the set of descriptions seen. */
  method GetVideoCaptureCapabilities(captureFound: bool, props: Option<seq<StreamProperty>>,
                                     describe: CaptureCapability -> string)
    returns (caps: Option<seq<CaptureCapability>>)
    ensures caps.None? <==> !captureFound || props.None?
    ensures caps.Some? ==> caps.value == Capabilities(props.value, describe)
  {
    if !captureFound {
      return None;
    }
    if props.None? {
      return None;
    }
    var properties := props.value;
    var listed: seq<CaptureCapability> := [];
    var seen: set<string> := {};
    var i := 0;
    while i < |properties|
      invariant 0 <= i <= |properties|
      invariant listed == Capabilities(properties[..i], describe)
      invariant seen == Descriptions(listed, describe)
    {
      assert properties[..i + 1][..i] == properties[..i];
      var p := properties[i];
      if p.isVideo && p.hasFrameRate && p.numerator != 0 && p.denominator != 0 && p.width != 0 && p.height != 0 {
        var cap := CaptureCapability(p.width, p.height, p.numerator / p.denominator, p.pixelAspectRatio);
        if describe(cap) !in seen {
          listed := listed + [cap];
          seen := seen + {describe(cap)};
          DescriptionsAppend(listed[..|listed| - 1], cap, describe);
          assert listed[..|listed| - 1] + [cap] == listed;
        }
      }
      i := i + 1;
    }
    assert properties[..|properties|] == properties;
    caps := Some(listed);
  }

  // ---------------------------------------------------------------------------------------
  // Streams

  /** `MediaStreamTrackInterface::kEnded`; states are ordered, `kLive` before it. */
  const TrackEnded: int := 1

  /** `MediaStream::Active`: `None` is a stream whose native object is gone. Otherwise the
      stream is active when some audio or video track has not reached `kEnded`. */
  method Active(tracks: Option<(seq<int>, seq<int>)>) returns (active: bool)
    ensures tracks.None? ==> !active
    ensures tracks.Some? ==>
      (active <==> (exists j :: 0 <= j < |tracks.value.0| && tracks.value.0[j] < TrackEnded)
                   || (exists j :: 0 <= j < |tracks.value.1| && tracks.value.1[j] < TrackEnded))
  {
    if tracks.None? {
      return false;
    }
    var (audio, video) := tracks.value;
    active := false;
    for i := 0 to |audio|
      invariant active <==> exists j :: 0 <= j < i && audio[j] < TrackEnded
    {
      if audio[i] < TrackEnded {
        active := true;
      }
    }
    for i := 0 to |video|
      invariant active <==> ((exists j :: 0 <= j < |audio| && audio[j] < TrackEnded)
                             || (exists j :: 0 <= j < i && video[j] < TrackEnded))
    {
      if video[i] < TrackEnded {
        active := true;
      }
    }
  }
}
