// The UWP video capturer (video_capture_winuwp.cc): the rotation applied
// for a display orientation and camera panel, the observer list of the
// application-state dispatcher, the subtype requested for a raw video
// type, the choice of the closest stream properties, the frame length left
// after removing padding, and the switch between the real camera and the
// black-frame generator when the application is suspended.
module VideoCapture {
  import opened Common

  // ---------------------------------------------------------------------
  // Display orientation

  datatype Panel = PanelUnknown | PanelFront | PanelBack | PanelTop | PanelBottom | PanelLeft | PanelRight

  datatype DisplayOrientation = OrientationNone | Landscape | Portrait | LandscapeFlipped | PortraitFlipped

  datatype Rotation = Rotation0 | Rotation90 | Rotation180 | Rotation270

  function Degrees(r: Rotation): nat
  {
    match r
    case Rotation0 => 0
    case Rotation90 => 90
    case Rotation180 => 180
    case Rotation270 => 270
  }

  /**
   * `ApplyDisplayOrientation`: the capture rotation to set, or nothing when
   * the camera's panel is unknown.
   */
  function CaptureRotation(panel: Panel, orientation: DisplayOrientation): (r: Option<Rotation>)
    ensures r.None? <==> panel == PanelUnknown
  {
    if panel == PanelUnknown then None
    else match orientation
      case Portrait => Some(if panel == PanelFront then Rotation270 else Rotation90)
      case PortraitFlipped => Some(if panel == PanelFront then Rotation90 else Rotation270)
      case Landscape => Some(Rotation0)
      case LandscapeFlipped => Some(Rotation180)
      case OrientationNone => Some(Rotation0)
  }

  /**
   * Turning the display upside down turns the picture by half a turn, and
   * in portrait a front camera is rotated the opposite way to any other.
   */
  lemma FlippedOrientationsTurnHalfway(panel: Panel)
    requires panel != PanelUnknown
    ensures Degrees(CaptureRotation(panel, PortraitFlipped).value)
      == (Degrees(CaptureRotation(panel, Portrait).value) + 180) % 360
    ensures Degrees(CaptureRotation(panel, LandscapeFlipped).value)
      == (Degrees(CaptureRotation(panel, Landscape).value) + 180) % 360
    ensures panel != PanelFront ==>
      (Degrees(CaptureRotation(panel, Portrait).value) + Degrees(CaptureRotation(PanelFront, Portrait).value)) % 360 == 0
  {
  }

  // ---------------------------------------------------------------------
  // The application-state dispatcher

  /** `AppStateDispatcher`: the last display orientation and its observers. */
  class AppStateDispatcher {
    var orientation: DisplayOrientation
    var observers: seq<int>
    /** The notifications sent, in order: observer and orientation. */
    var notified: seq<(int, DisplayOrientation)>

    constructor()
      ensures orientation == Portrait && observers == [] && notified == []
    {
      orientation := Portrait;
      observers := [];
      notified := [];
    }

    method AddObserver(observer: int)
      modifies this`observers
      ensures observers == old(observers) + [observer]
    {
      observers := observers + [observer];
    }

    /** `RemoveObserver`: erases the first occurrence only. */
    method RemoveObserver(observer: int)
      modifies this`observers
      ensures observers == RemoveFirst(old(observers), observer)
    {
      var i := 0;
      while i < |observers|
        invariant 0 <= i <= |observers|
        invariant observer !in observers[..i]
        invariant observers == old(observers)
      {
        if observers[i] == observer {
          RemoveFirstAt(observers, observer, i);
          observers := observers[..i] + observers[i + 1..];
          return;
        }
        i := i + 1;
      }
      assert observers[..i] == observers;
      RemoveFirstAbsent(observers, observer);
    }

    /** `DisplayOrientationChanged`: records the orientation and tells every observer in order. */
    method DisplayOrientationChanged(o: DisplayOrientation)
      modifies this`orientation, this`notified
      ensures orientation == o
      ensures notified == old(notified) + Notifications(observers, o)
    {
      orientation := o;
      var i := 0;
      while i < |observers|
        invariant 0 <= i <= |observers|
        invariant orientation == o
        invariant notified == old(notified) + Notifications(observers[..i], o)
      {
        NotificationsAppend(observers[..i], observers[i], o);
        assert observers[..i + 1] == observers[..i] + [observers[i]];
        notified := notified + [(observers[i], o)];
        i := i + 1;
      }
      assert observers[..i] == observers;
    }
  }

  /** One notification per observer, in list order. */
  function Notifications(observers: seq<int>, o: DisplayOrientation): (r: seq<(int, DisplayOrientation)>)
    ensures |r| == |observers|
    ensures forall k :: 0 <= k < |r| ==> r[k] == (observers[k], o)
  {
    seq(|observers|, k requires 0 <= k < |observers| => (observers[k], o))
  }

  lemma NotificationsAppend(observers: seq<int>, x: int, o: DisplayOrientation)
    ensures Notifications(observers + [x], o) == Notifications(observers, o) + [(x, o)]
  {
  }

  /** Erasing at the first occurrence is `RemoveFirst`. */
  lemma {:induction false} RemoveFirstAt(s: seq<int>, x: int, i: nat)
    requires i < |s| && s[i] == x && x !in s[..i]
    ensures RemoveFirst(s, x) == s[..i] + s[i + 1..]
    decreases i
  {
    if i > 0 {
      assert s[0] != x by { assert s[0] == s[..i][0]; }
      assert s[1..][..i - 1] == s[1..i];
      assert x !in s[1..][..i - 1] by { assert s[1..i] == s[..i][1..]; }
      RemoveFirstAt(s[1..], x, i - 1);
      assert s[..i] == [s[0]] + s[1..][..i - 1];
      assert s[i + 1..] == s[1..][i..];
    }
  }

  lemma {:induction false} RemoveFirstAbsent(s: seq<int>, x: int)
    requires x !in s
    ensures RemoveFirst(s, x) == s
  {
    if s != [] {
      assert x !in s[1..];
      RemoveFirstAbsent(s[1..], x);
    }
  }

  /** Removing an observer added last undoes the addition when it was not yet listed. */
  lemma RemoveUndoesAdd(observers: seq<int>, x: int)
    requires x !in observers
    ensures RemoveFirst(observers + [x], x) == observers
  {
    RemoveFirstAt(observers + [x], x, |observers|);
    assert (observers + [x])[..|observers|] == observers;
  }

  // ---------------------------------------------------------------------
  // Subtypes and stream properties

  /** `RawVideoType`. */
  datatype RawVideoType = I420 | YV12 | YUY2 | UYVY | IYUV | ARGB | RGB24 | RGB565
                        | ARGB4444 | ARGB1555 | MJPEG | NV12 | NV21 | BGRA | UnknownType

  /** The media-encoding subtypes the capturer names. */
  datatype Subtype = SubtypeYv12 | SubtypeYuy2 | SubtypeIyuv | SubtypeRgb24 | SubtypeArgb32
                   | SubtypeNv12 | SubtypeMjpg | OtherSubtype(name: string)

  /**
   * The subtype `StartCapture` requests: I420 and IYUV both as IYUV, MJPEG
   * as NV12 (the engine decodes it), nothing for an unsupported type.
   */
  function RequestedSubtype(t: RawVideoType): (r: Option<Subtype>)
    ensures r.None? <==> t !in {YV12, YUY2, I420, IYUV, RGB24, ARGB, MJPEG, NV12}
    ensures t in {I420, IYUV} ==> r == Some(SubtypeIyuv)
    ensures t in {MJPEG, NV12} ==> r == Some(SubtypeNv12)
  {
    match t
    case YV12 => Some(SubtypeYv12)
    case YUY2 => Some(SubtypeYuy2)
    case I420 => Some(SubtypeIyuv)
    case IYUV => Some(SubtypeIyuv)
    case RGB24 => Some(SubtypeRgb24)
    case ARGB => Some(SubtypeArgb32)
    case MJPEG => Some(SubtypeNv12)
    case NV12 => Some(SubtypeNv12)
    case _ => None
  }

  /** What `StartCapture` asks for. */
  datatype Capability = Capability(width: int, height: int, maxFps: int, rawType: RawVideoType)

  /** An available stream format, with its frame rate already truncated to an integer. */
  datatype StreamProperties = StreamProperties(subtype: Subtype, width: int, height: int, fps: int)

  const IntMax: int := 0x7fff_ffff

  /** A stream format is a candidate when its subtype is the requested one (MJPG for MJPEG). */
  predicate Matches(p: StreamProperties, cap: Capability, subtype: Subtype)
  {
    if cap.rawType == MJPEG then p.subtype == SubtypeMjpg else p.subtype == subtype
  }

  /** Distance of a stream format from the request: width, height, frame rate. */
  function Distance(p: StreamProperties, cap: Capability): (r: (int, int, int))
    ensures r.0 >= 0 && r.1 >= 0 && r.2 >= 0
    ensures r == (0, 0, 0) <==> p.width == cap.width && p.height == cap.height && p.fps == cap.maxFps
  {
    (Abs(p.width - cap.width), Abs(p.height - cap.height), Abs(p.fps - cap.maxFps))
  }

  predicate LexLess(a: (int, int, int), b: (int, int, int))
  {
    a.0 < b.0 || (a.0 == b.0 && (a.1 < b.1 || (a.1 == b.1 && a.2 < b.2)))
  }

  /** The running choice: the index kept so far and the distances it is compared by. */
  datatype Choice = Choice(best: Option<nat>, minimum: (int, int, int))

  const NoChoice: Choice := Choice(None, (IntMax, IntMax, IntMax))

  /** The choice after looking at the first `n` stream formats. */
  function ChooseAmong(props: seq<StreamProperties>, cap: Capability, subtype: Subtype, n: nat): (c: Choice)
    requires n <= |props|
    ensures c.best.Some? ==>
      (c.best.value < n && Matches(props[c.best.value], cap, subtype) && c.minimum == Distance(props[c.best.value], cap))
    ensures c.best.None? ==> c == NoChoice
  {
    if n == 0 then NoChoice
    else
      var c := ChooseAmong(props, cap, subtype, n - 1);
      var p := props[n - 1];
      if Matches(p, cap, subtype) && LexLess(Distance(p, cap), c.minimum)
      then Choice(Some(n - 1), Distance(p, cap))
      else c
  }

  /**
   * The choice is the first candidate at the smallest distance, compared
   * width first, then height, then frame rate: no candidate is closer and
   * every earlier one is strictly farther. A candidate always exists when
   * some matching format's width distance is below INT_MAX.
   */
  lemma {:induction false} ChoiceIsFirstClosest(props: seq<StreamProperties>, cap: Capability, subtype: Subtype, n: nat)
    requires n <= |props|
    ensures var c := ChooseAmong(props, cap, subtype, n);
      forall j :: 0 <= j < n && Matches(props[j], cap, subtype) && LexLess(Distance(props[j], cap), NoChoice.minimum) ==>
        && c.best.Some?
        && !LexLess(Distance(props[j], cap), c.minimum)
        && (j < c.best.value ==> LexLess(c.minimum, Distance(props[j], cap)))
  {
    if n > 0 {
      ChoiceIsFirstClosest(props, cap, subtype, n - 1);
    }
  }

  /** The loop of `StartCapture` that keeps the running minima. */
  method ChooseStreamProperties(props: seq<StreamProperties>, cap: Capability, subtype: Subtype)
    returns (best: Option<nat>)
    ensures best == ChooseAmong(props, cap, subtype, |props|).best
  {
    best := None;
    var minWidthDiff, minHeightDiff, minFpsDiff := IntMax, IntMax, IntMax;
    var i := 0;
    while i < |props|
      invariant 0 <= i <= |props|
      invariant ChooseAmong(props, cap, subtype, i) == Choice(best, (minWidthDiff, minHeightDiff, minFpsDiff))
    {
      var prop := props[i];
      if Matches(prop, cap, subtype) {
        var widthDiff := Abs(prop.width - cap.width);
        var heightDiff := Abs(prop.height - cap.height);
        var fpsDiff := Abs(prop.fps - cap.maxFps);
        if widthDiff < minWidthDiff {
          best := Some(i);
          minWidthDiff, minHeightDiff, minFpsDiff := widthDiff, heightDiff, fpsDiff;
        } else if widthDiff == minWidthDiff {
          if heightDiff < minHeightDiff {
            best := Some(i);
            minHeightDiff, minFpsDiff := heightDiff, fpsDiff;
          } else if heightDiff == minHeightDiff {
            if fpsDiff < minFpsDiff {
              best := Some(i);
              minFpsDiff := fpsDiff;
            }
          }
        }
      }
      i := i + 1;
    }
  }

  // ---------------------------------------------------------------------
  // Padding

  /** C's remainder (truncating toward zero). */
  function TruncMod(a: int, b: int): (r: int)
    requires b != 0
  {
    a - TruncDiv(a, b) * b
  }

  /** Rows or columns of padding up to the next multiple of 16. */
  function Padding(dim: int): (r: int)
    ensures r >= 0
    ensures r == 0 <==> TruncMod(dim, 16) == 0
  {
    var p := 16 - TruncMod(dim, 16);
    if p == 16 then 0 else p
  }

  /** For a non-negative dimension the padding is below 16 and completes a multiple of 16. */
  lemma PaddingCompletesBlock(dim: int)
    requires dim >= 0
    ensures 0 <= Padding(dim) < 16 && (dim + Padding(dim)) % 16 == 0
    ensures Padding(dim) == (16 - dim % 16) % 16
  {
    assert TruncDiv(dim, 16) == dim / 16;
    DivModParts(dim, 16);
  }

  /** Bytes of an unpadded frame: 3/2, 2, 3 or 4 bytes per pixel; nothing for other types. */
  function UnpaddedLength(t: RawVideoType, width: int, height: int): (r: Option<int>)
    ensures r.Some? <==> t in {YV12, YUY2, IYUV, RGB24, ARGB, NV12}
  {
    match t
    case YV12 => Some(TruncDiv(width * height * 3, 2))
    case IYUV => Some(TruncDiv(width * height * 3, 2))
    case NV12 => Some(TruncDiv(width * height * 3, 2))
    case YUY2 => Some(width * height * 2)
    case RGB24 => Some(width * height * 3)
    case ARGB => Some(width * height * 4)
    case _ => None
  }

  /**
   * `RemovePaddingPixels`, on the length: a frame longer than its unpadded
   * size (compared as a 32-bit int) is cut to that size.
   */
  method RemovePaddingPixels(t: RawVideoType, width: int, height: int, length: nat) returns (newLength: int)
    ensures var u := UnpaddedLength(t, width, height);
      newLength == (if u.Some? && ToInt32(length) > u.value then u.value else length)
  {
    newLength := length;
    var u := UnpaddedLength(t, width, height);
    if u.Some? && ToInt32(length) > u.value {
      newLength := u.value;
    }
  }

  /** A length that fits a 32-bit int never grows, and becomes at most the unpadded size. */
  lemma RemovedPaddingShortens(t: RawVideoType, width: int, height: int, length: nat)
    requires length <= IntMax && width >= 0 && height >= 0
    ensures var u := UnpaddedLength(t, width, height);
      var r := if u.Some? && ToInt32(length) > u.value then u.value else length;
      && 0 <= r <= length
      && (u.Some? ==> r == Min(length, u.value))
  {
    var u := UnpaddedLength(t, width, height);
    assert ToInt32(length) == length;
    if u.Some? {
      MulNonNegative(width, height);
    }
  }

  /** Proof helper (arithmetic). */
  lemma MulNonNegative(a: int, b: int)
    requires a >= 0 && b >= 0
    ensures a * b >= 0
  {
  }

  // ---------------------------------------------------------------------
  // The capturer

  /** Which of the two capture devices run: the camera or the black-frame generator. */
  datatype Devices = Devices(realStarted: bool, fakeStarted: bool)

  /** `SuspendCapture`: a running camera is stopped and black frames replace it. */
  function Suspended(d: Devices): (r: (bool, Devices))
    ensures r.0 <==> d.realStarted
    ensures r.0 ==> r.1.fakeStarted && !r.1.realStarted
    ensures !r.0 ==> r.1 == d
  {
    if d.realStarted then (true, Devices(false, true)) else (false, d)
  }

  /** `ResumeCapture`: running black frames are stopped and the camera restarted. */
  function Resumed(d: Devices): (r: (bool, Devices))
    ensures r.0 <==> d.fakeStarted
    ensures r.0 ==> r.1.realStarted && !r.1.fakeStarted
    ensures !r.0 ==> r.1 == d
  {
    if d.fakeStarted then (true, Devices(true, false)) else (false, d)
  }

  /** Resuming undoes a suspension, and neither changes devices that are not running. */
  lemma ResumeUndoesSuspend(d: Devices)
    ensures !d.fakeStarted ==> Resumed(Suspended(d).1) == (d.realStarted, d)
    ensures Suspended(d).0 <==> d.realStarted
    ensures Resumed(d).0 <==> d.fakeStarted
    ensures Suspended(d).0 ==> Suspended(d).1.fakeStarted && !Suspended(d).1.realStarted
    ensures !Suspended(d).0 ==> Suspended(d).1 == d
  {
  }

  /** A capture device as enumerated: its id and, when it has one, the panel it sits on. */
  datatype DeviceInformation = DeviceInformation(id: string, panel: Option<Panel>)

  /**
   * Some device in `found` has `id`, the first such one sits on `panel`
   * (unknown when it has no enclosure location).
   */
  ghost predicate FirstWithId(found: seq<DeviceInformation>, id: string, panel: Panel)
  {
    exists k :: FirstIdAt(found, id, k) && panel == (if found[k].panel.Some? then found[k].panel.value else PanelUnknown)
  }

  predicate FirstIdAt(found: seq<DeviceInformation>, id: string, k: int)
  {
    0 <= k < |found| && found[k].id == id && forall j :: 0 <= j < k ==> found[j].id != id
  }

  /** `kVideoCaptureUniqueNameLength`. */
  const UniqueNameLength: int := 1024

  /** `VideoCaptureWinUWP`. */
  class Capturer {
    var deviceId: Option<string>
    var cameraLocation: Panel
    var devices: Devices
    var rotation: Rotation
    var lastFrameInfo: Option<Capability>
    var encodingSubtype: Option<Subtype>
    var chosenProperties: Option<nat>

    constructor()
      ensures deviceId == None && devices == Devices(false, false) && lastFrameInfo == None
    {
      deviceId := None;
      cameraLocation := PanelUnknown;
      devices := Devices(false, false);
      rotation := Rotation0;
      lastFrameInfo := None;
      encodingSubtype := None;
      chosenProperties := None;
    }

    /**
     * `Init`: rejects ids longer than the unique-name limit, then takes the
     * first enumerated device with that id and its panel (unknown without
     * an enclosure location); -1 when none has it.
     */
    method Init(id: string, found: seq<DeviceInformation>) returns (r: int)
      modifies this`deviceId, this`cameraLocation
      ensures |id| > UniqueNameLength ==> r == -1 && deviceId == old(deviceId)
      ensures |id| <= UniqueNameLength ==> (r == 0 <==> exists k :: 0 <= k < |found| && found[k].id == id)
      ensures r == 0 ==> deviceId == Some(id) && FirstWithId(found, id, cameraLocation)
      ensures |id| <= UniqueNameLength && r != 0 ==> deviceId == None
    {
      if |id| > UniqueNameLength {
        return -1;
      }
      deviceId := None;
      var i := 0;
      while i < |found|
        invariant 0 <= i <= |found|
        invariant deviceId == None
        invariant forall j :: 0 <= j < i ==> found[j].id != id
      {
        if found[i].id == id {
          deviceId := Some(id);
          cameraLocation := if found[i].panel.Some? then found[i].panel.value else PanelUnknown;
          assert FirstIdAt(found, id, i);
          return 0;
        }
        i := i + 1;
      }
      r := -1;
    }

    /**
     * `StartCapture`: -1 for a raw type without a subtype; otherwise the
     * closest stream format is chosen, the rotation for the current
     * orientation applied, the camera started and the request remembered.
     */
    method StartCapture(cap: Capability, props: seq<StreamProperties>, orientation: DisplayOrientation)
      returns (r: int)
      modifies this
      ensures RequestedSubtype(cap.rawType).None? ==>
        (r == -1 && devices == old(devices) && lastFrameInfo == old(lastFrameInfo))
      ensures RequestedSubtype(cap.rawType).Some? ==>
        && r == 0
        && encodingSubtype == RequestedSubtype(cap.rawType)
        && chosenProperties == ChooseAmong(props, cap, RequestedSubtype(cap.rawType).value, |props|).best
        && rotation == (if cameraLocation == PanelUnknown then old(rotation)
                        else CaptureRotation(cameraLocation, orientation).value)
        && devices.realStarted && devices.fakeStarted == old(devices).fakeStarted
        && lastFrameInfo == Some(cap)
      ensures r == 0 ==> CaptureStarted()
      ensures r != 0 ==> CaptureStarted() == old(CaptureStarted())
      ensures cameraLocation == old(cameraLocation) && deviceId == old(deviceId)
    {
      var subtype := RequestedSubtype(cap.rawType);
      if subtype.None? {
        return -1;
      }
      encodingSubtype := subtype;
      chosenProperties := ChooseStreamProperties(props, cap, subtype.value);
      var rot := CaptureRotation(cameraLocation, orientation);
      if rot.Some? {
        rotation := rot.value;
      }
      devices := devices.(realStarted := true);
      lastFrameInfo := Some(cap);
      r := 0;
    }

    /** `StopCapture`: stops whichever device runs. */
    method StopCapture() returns (r: int)
      modifies this`devices
      ensures r == 0 && devices == Devices(false, false)
      ensures !CaptureStarted()
    {
      if devices.realStarted {
        devices := devices.(realStarted := false);
      }
      if devices.fakeStarted {
        devices := devices.(fakeStarted := false);
      }
      r := 0;
    }

    /** `CaptureStarted`: whether the camera or the black-frame source runs. Starting
        makes it hold, stopping ends it, and suspending or resuming keeps it. */
    function CaptureStarted(): (b: bool)
      reads this
      ensures b <==> devices.realStarted || devices.fakeStarted
    {
      devices.realStarted || devices.fakeStarted
    }

    method SuspendCapture() returns (suspended: bool)
      modifies this`devices
      ensures (suspended, devices) == Suspended(old(devices))
      ensures CaptureStarted() == old(CaptureStarted())
      ensures suspended <==> old(devices).realStarted
    {
      if devices.realStarted {
        devices := Devices(false, true);
        return true;
      }
      suspended := false;
    }

    method ResumeCapture() returns (resumed: bool)
      modifies this`devices
      ensures (resumed, devices) == Resumed(old(devices))
      ensures CaptureStarted() == old(CaptureStarted())
      ensures resumed <==> old(devices).fakeStarted
    {
      if devices.fakeStarted {
        devices := Devices(true, false);
        return true;
      }
      resumed := false;
    }
  }
}
