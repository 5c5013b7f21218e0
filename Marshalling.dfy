/** Conversions between the WinRT API types and the native peer-connection types: the enum
    tables, the configuration and data-channel defaults, ICE server copying and the SDP
    type names. Strings convert between UTF-16 and UTF-8 without change of content here. */
module Marshalling {
  import opened Common

  // ---------------------------------------------------------------------------------------
  // Enum tables

  /** A table of `DEFINE_MARSHALLED_ENUM`: the `std::map` from WinRT values to native
      values, listed in key order. */
  predicate KeysDistinct<W(==), N>(table: seq<(W, N)>)
  {
    forall i, j :: 0 <= i < j < |table| ==> table[i].0 != table[j].0
  }

  predicate ValuesDistinct<W, N(==)>(table: seq<(W, N)>)
  {
    forall i, j :: 0 <= i < j < |table| ==> table[i].1 != table[j].1
  }

  predicate Lists<W(==), N>(table: seq<(W, N)>, w: W)
  {
    exists i :: 0 <= i < |table| && table[i].0 == w
  }

  /** `FromCx`: the native value the table maps a listed WinRT value to. */
  function FromCx<W(==), N>(table: seq<(W, N)>, w: W): (r: Option<N>)
    ensures r.Some? <==> Lists(table, w)
    ensures r.Some? ==> exists i :: 0 <= i < |table| && table[i] == (w, r.value)
    decreases |table|
  {
    if table == [] then None
    else if table[0].0 == w then Some(table[0].1)
    else
      var r := FromCx(table[1..], w);
      if r.Some? then
        ghost var i :| 0 <= i < |table[1..]| && table[1..][i] == (w, r.value);
        assert table[i + 1] == (w, r.value);
        r
      else
        assert !Lists(table, w) by {
          forall i | 0 <= i < |table| ensures table[i].0 != w {
            if i > 0 {
              assert table[i] == table[1..][i - 1];
            }
          }
        }
        None
  }

  /** `ToCx`: the first WinRT value, in key order, whose native value matches; `None` is
      the "Marshalling failed" exception. */
  function ToCx<W, N(==)>(table: seq<(W, N)>, n: N): (r: Option<W>)
    ensures r.None? <==> forall i :: 0 <= i < |table| ==> table[i].1 != n
    ensures r.Some? ==> exists i :: 0 <= i < |table| && table[i] == (r.value, n)
                               && forall j :: 0 <= j < i ==> table[j].1 != n
    decreases |table|
  {
    if table == [] then None
    else if table[0].1 == n then Some(table[0].0)
    else
      var r := ToCx(table[1..], n);
      if r.Some? then
        ghost var i :| 0 <= i < |table[1..]| && table[1..][i] == (r.value, n)
                      && forall j :: 0 <= j < i ==> table[1..][j].1 != n;
        assert table[i + 1] == (r.value, n);
        assert forall j :: 0 <= j < i + 1 ==> table[j].1 != n by {
          forall j | 0 <= j < i + 1 ensures table[j].1 != n {
            if j > 0 {
              assert table[j] == table[1..][j - 1];
            }
          }
        }
        r
      else
        assert forall i :: 0 <= i < |table| ==> table[i].1 != n by {
          forall i | 0 <= i < |table| ensures table[i].1 != n {
            if i > 0 {
              assert table[i] == table[1..][i - 1];
            }
          }
        }
        None
  }

  /** With distinct native values, converting a listed WinRT value to native and back gives
      the value again. */
  lemma ToCxInvertsFromCx<W, N>(table: seq<(W, N)>, w: W, i: nat)
    requires KeysDistinct(table) && ValuesDistinct(table)
    requires i < |table| && table[i].0 == w
    ensures FromCx(table, w).Some? && ToCx(table, FromCx(table, w).value) == Some(w)
  {
    var n := FromCx(table, w).value;
    var l :| 0 <= l < |table| && table[l] == (w, n);
    var r := ToCx(table, n);
    var k :| 0 <= k < |table| && table[k] == (r.value, n) && forall j :: 0 <= j < k ==> table[j].1 != n;
    assert table[k].1 == table[l].1;
  }

  /** With distinct WinRT values, converting a listed native value to WinRT and back gives
      the value again. */
  lemma FromCxInvertsToCx<W, N>(table: seq<(W, N)>, n: N, i: nat)
    requires KeysDistinct(table)
    requires i < |table| && table[i].1 == n
    ensures ToCx(table, n).Some? && FromCx(table, ToCx(table, n).value) == Some(n)
  {
    var w := ToCx(table, n).value;
    var k :| 0 <= k < |table| && table[k] == (w, n) && forall j :: 0 <= j < k ==> table[j].1 != n;
    var m := FromCx(table, w).value;
    var l :| 0 <= l < |table| && table[l] == (w, m);
    assert table[l].0 == table[k].0;
  }

  /** A table that every value of both enums survives: WinRT to native and back, and native
      to WinRT and back. */
  ghost predicate RoundTrips<W(!new), N(!new)>(table: seq<(W, N)>)
  {
    && (forall w: W :: FromCx(table, w).Some? && ToCx(table, FromCx(table, w).value) == Some(w))
    && (forall n: N :: ToCx(table, n).Some? && FromCx(table, ToCx(table, n).value) == Some(n))
  }

  datatype RTCBundlePolicy = Balanced | MaxBundle | MaxCompat
  datatype BundlePolicy = BundlePolicyBalanced | BundlePolicyMaxBundle | BundlePolicyMaxCompat

  const BundlePolicyTable: seq<(RTCBundlePolicy, BundlePolicy)> :=
    [(Balanced, BundlePolicyBalanced), (MaxBundle, BundlePolicyMaxBundle),
     (MaxCompat, BundlePolicyMaxCompat)]

  datatype RTCIceTransportPolicy = PolicyNone | Relay | NoHost | All
  datatype IceTransportsType = TransportsNone | TransportsRelay | TransportsNoHost | TransportsAll

  const IceTransportPolicyTable: seq<(RTCIceTransportPolicy, IceTransportsType)> :=
    [(PolicyNone, TransportsNone), (Relay, TransportsRelay), (NoHost, TransportsNoHost), (All, TransportsAll)]

  datatype RTCSignalingState = Stable | HaveLocalOffer | HaveRemoteOffer | HaveLocalPranswer
                             | HaveRemotePranswer | SignalingClosed
  datatype SignalingState = KStable | KHaveLocalOffer | KHaveRemoteOffer | KHaveLocalPrAnswer
                          | KHaveRemotePrAnswer | KClosed

  const SignalingStateTable: seq<(RTCSignalingState, SignalingState)> :=
    [(Stable, KStable), (HaveLocalOffer, KHaveLocalOffer), (HaveRemoteOffer, KHaveRemoteOffer),
     (HaveLocalPranswer, KHaveLocalPrAnswer), (HaveRemotePranswer, KHaveRemotePrAnswer),
     (SignalingClosed, KClosed)]

  datatype RTCDataChannelState = Connecting | Open | Closing | ChannelClosed
  datatype DataState = KConnecting | KOpen | KClosing | KChannelClosed

  const DataChannelStateTable: seq<(RTCDataChannelState, DataState)> :=
    [(Connecting, KConnecting), (Open, KOpen), (Closing, KClosing), (ChannelClosed, KChannelClosed)]

  datatype RTCIceGatheringState = GatheringNew | Gathering | Complete
  datatype IceGatheringState = KIceGatheringNew | KIceGatheringGathering | KIceGatheringComplete

  const IceGatheringStateTable: seq<(RTCIceGatheringState, IceGatheringState)> :=
    [(GatheringNew, KIceGatheringNew), (Gathering, KIceGatheringGathering), (Complete, KIceGatheringComplete)]

  datatype RTCIceConnectionState = ConnectionNew | Checking | Connected | Completed | Failed
                                 | Disconnected | ConnectionClosed
  datatype IceConnectionState = KNew | KChecking | KConnected | KCompleted | KFailed
                              | KDisconnected | KConnectionClosed

  const IceConnectionStateTable: seq<(RTCIceConnectionState, IceConnectionState)> :=
    [(ConnectionNew, KNew), (Checking, KChecking), (Connected, KConnected), (Completed, KCompleted),
     (Failed, KFailed), (Disconnected, KDisconnected), (ConnectionClosed, KConnectionClosed)]

  /** The BundlePolicy table lists every value of both enums once, so both conversions
      invert each other. */
  lemma BundlePolicyRoundTrips()
    ensures RoundTrips(BundlePolicyTable)
  {
    forall w: RTCBundlePolicy ensures FromCx(BundlePolicyTable, w).Some? && ToCx(BundlePolicyTable, FromCx(BundlePolicyTable, w).value) == Some(w) {
      ToCxInvertsFromCx(BundlePolicyTable, w, match w case Balanced => 0 case MaxBundle => 1 case MaxCompat => 2);
    }
    forall n: BundlePolicy ensures ToCx(BundlePolicyTable, n).Some? && FromCx(BundlePolicyTable, ToCx(BundlePolicyTable, n).value) == Some(n) {
      FromCxInvertsToCx(BundlePolicyTable, n, match n case BundlePolicyBalanced => 0 case BundlePolicyMaxBundle => 1 case BundlePolicyMaxCompat => 2);
    }
  }

  /** The IceTransportPolicy table lists every value of both enums once, so both conversions
      invert each other. */
  lemma IceTransportPolicyRoundTrips()
    ensures RoundTrips(IceTransportPolicyTable)
  {
    forall w: RTCIceTransportPolicy ensures FromCx(IceTransportPolicyTable, w).Some? && ToCx(IceTransportPolicyTable, FromCx(IceTransportPolicyTable, w).value) == Some(w) {
      ToCxInvertsFromCx(IceTransportPolicyTable, w, match w case PolicyNone => 0 case Relay => 1 case NoHost => 2 case All => 3);
    }
    forall n: IceTransportsType ensures ToCx(IceTransportPolicyTable, n).Some? && FromCx(IceTransportPolicyTable, ToCx(IceTransportPolicyTable, n).value) == Some(n) {
      FromCxInvertsToCx(IceTransportPolicyTable, n, match n case TransportsNone => 0 case TransportsRelay => 1 case TransportsNoHost => 2 case TransportsAll => 3);
    }
  }

  /** The SignalingState table lists every value of both enums once, so both conversions
      invert each other. */
  lemma SignalingStateRoundTrips()
    ensures RoundTrips(SignalingStateTable)
  {
    forall w: RTCSignalingState ensures FromCx(SignalingStateTable, w).Some? && ToCx(SignalingStateTable, FromCx(SignalingStateTable, w).value) == Some(w) {
      ToCxInvertsFromCx(SignalingStateTable, w, match w case Stable => 0 case HaveLocalOffer => 1 case HaveRemoteOffer => 2 case HaveLocalPranswer => 3 case HaveRemotePranswer => 4 case SignalingClosed => 5);
    }
    forall n: SignalingState ensures ToCx(SignalingStateTable, n).Some? && FromCx(SignalingStateTable, ToCx(SignalingStateTable, n).value) == Some(n) {
      FromCxInvertsToCx(SignalingStateTable, n, match n case KStable => 0 case KHaveLocalOffer => 1 case KHaveRemoteOffer => 2 case KHaveLocalPrAnswer => 3 case KHaveRemotePrAnswer => 4 case KClosed => 5);
    }
  }

  /** The DataChannelState table lists every value of both enums once, so both conversions
      invert each other. */
  lemma DataChannelStateRoundTrips()
    ensures RoundTrips(DataChannelStateTable)
  {
    forall w: RTCDataChannelState ensures FromCx(DataChannelStateTable, w).Some? && ToCx(DataChannelStateTable, FromCx(DataChannelStateTable, w).value) == Some(w) {
      ToCxInvertsFromCx(DataChannelStateTable, w, match w case Connecting => 0 case Open => 1 case Closing => 2 case ChannelClosed => 3);
    }
    forall n: DataState ensures ToCx(DataChannelStateTable, n).Some? && FromCx(DataChannelStateTable, ToCx(DataChannelStateTable, n).value) == Some(n) {
      FromCxInvertsToCx(DataChannelStateTable, n, match n case KConnecting => 0 case KOpen => 1 case KClosing => 2 case KChannelClosed => 3);
    }
  }

  /** The IceGatheringState table lists every value of both enums once, so both conversions
      invert each other. */
  lemma IceGatheringStateRoundTrips()
    ensures RoundTrips(IceGatheringStateTable)
  {
    forall w: RTCIceGatheringState ensures FromCx(IceGatheringStateTable, w).Some? && ToCx(IceGatheringStateTable, FromCx(IceGatheringStateTable, w).value) == Some(w) {
      ToCxInvertsFromCx(IceGatheringStateTable, w, match w case GatheringNew => 0 case Gathering => 1 case Complete => 2);
    }
    forall n: IceGatheringState ensures ToCx(IceGatheringStateTable, n).Some? && FromCx(IceGatheringStateTable, ToCx(IceGatheringStateTable, n).value) == Some(n) {
      FromCxInvertsToCx(IceGatheringStateTable, n, match n case KIceGatheringNew => 0 case KIceGatheringGathering => 1 case KIceGatheringComplete => 2);
    }
  }

  /** The IceConnectionState table lists every value of both enums once, so both conversions
      invert each other. */
  lemma IceConnectionStateRoundTrips()
    ensures RoundTrips(IceConnectionStateTable)
  {
    forall w: RTCIceConnectionState ensures FromCx(IceConnectionStateTable, w).Some? && ToCx(IceConnectionStateTable, FromCx(IceConnectionStateTable, w).value) == Some(w) {
      ToCxInvertsFromCx(IceConnectionStateTable, w, match w case ConnectionNew => 0 case Checking => 1 case Connected => 2 case Completed => 3 case Failed => 4 case Disconnected => 5 case ConnectionClosed => 6);
    }
    forall n: IceConnectionState ensures ToCx(IceConnectionStateTable, n).Some? && FromCx(IceConnectionStateTable, ToCx(IceConnectionStateTable, n).value) == Some(n) {
      FromCxInvertsToCx(IceConnectionStateTable, n, match n case KNew => 0 case KChecking => 1 case KConnected => 2 case KCompleted => 3 case KFailed => 4 case KDisconnected => 5 case KConnectionClosed => 6);
    }
  }

  // ---------------------------------------------------------------------------------------
  // Configuration, ICE servers and data channels

  /** `RTCIceServer`: each field may be null. */
  datatype RTCIceServer = RTCIceServer(url: Option<string>, username: Option<string>, credential: Option<string>)

  /** `PeerConnectionInterface::IceServer`. */
  datatype IceServer = IceServer(uri: string, username: string, password: string)

  /** `FromCx(RTCIceServer)`: only the fields that are set overwrite the output. */
  function IceServerFromCx(server: RTCIceServer, out: IceServer): (r: IceServer)
    ensures r.uri == (if server.url.Some? then server.url.value else out.uri)
    ensures r.username == (if server.username.Some? then server.username.value else out.username)
    ensures r.password == (if server.credential.Some? then server.credential.value else out.password)
  {
    var uri := if server.url.Some? then server.url.value else out.uri;
    var username := if server.username.Some? then server.username.value else out.username;
    var password := if server.credential.Some? then server.credential.value else out.password;
    IceServer(uri, username, password)
  }

  /** An ICE server with no field set leaves the output as it was. */
  lemma EmptyIceServerChangesNothing(out: IceServer)
    ensures IceServerFromCx(RTCIceServer(None, None, None), out) == out
  {
  }

  /** `RTCConfiguration`; the server list conversion is taken as given. */
  datatype RTCConfiguration = RTCConfiguration(bundlePolicy: Option<RTCBundlePolicy>,
                                               iceTransportPolicy: Option<RTCIceTransportPolicy>,
                                               iceServers: Option<seq<IceServer>>)

  datatype NativeConfiguration = NativeConfiguration(bundlePolicy: BundlePolicy, transportType: IceTransportsType,
                                                     servers: seq<IceServer>)

  /** `FromCx(RTCConfiguration)`: a missing bundle policy means Balanced and a missing
      transport policy means all, as the WebRTC API defines; a missing server list leaves the
      output's list alone. */
  function ConfigurationFromCx(c: RTCConfiguration, out: NativeConfiguration): (r: NativeConfiguration)
    ensures c.bundlePolicy.None? ==> r.bundlePolicy == BundlePolicyBalanced
    ensures c.bundlePolicy.Some? ==> Some(r.bundlePolicy) == FromCx(BundlePolicyTable, c.bundlePolicy.value)
    ensures c.iceTransportPolicy.None? ==> r.transportType == TransportsAll
    ensures c.iceTransportPolicy.Some? ==>
      Some(r.transportType) == FromCx(IceTransportPolicyTable, c.iceTransportPolicy.value)
    ensures r.servers == if c.iceServers.Some? then c.iceServers.value else out.servers
  {
    BundlePolicyRoundTrips();
    IceTransportPolicyRoundTrips();
    var bundle := if c.bundlePolicy.Some? then FromCx(BundlePolicyTable, c.bundlePolicy.value).value
                  else BundlePolicyBalanced;
    var transport := if c.iceTransportPolicy.Some? then FromCx(IceTransportPolicyTable, c.iceTransportPolicy.value).value
                     else TransportsAll;
    var servers := if c.iceServers.Some? then c.iceServers.value else out.servers;
    NativeConfiguration(bundle, transport, servers)
  }

  /** `RTCDataChannelInit`: each field may be null. */
  datatype RTCDataChannelInit = RTCDataChannelInit(ordered: Option<bool>, maxPacketLifeTime: Option<int>,
                                                   maxRetransmits: Option<int>, protocol: string,
                                                   negotiated: Option<bool>, id: Option<int>)

  /** `DataChannelInit`. */
  datatype DataChannelInit = DataChannelInit(ordered: bool, maxRetransmitTime: int, maxRetransmits: int,
                                             protocol: string, negotiated: bool, id: int)

  function OrElse<T>(o: Option<T>, default: T): T
  {
    if o.Some? then o.value else default
  }

  /** `FromCx(RTCDataChannelInit)`: every field is written, defaults standing in for nulls. */
  function DataChannelInitFromCx(init: RTCDataChannelInit): (r: DataChannelInit)
    ensures init.ordered.None? ==> r.ordered
    ensures init.maxPacketLifeTime.None? ==> r.maxRetransmitTime == -1
    ensures init.maxRetransmits.None? ==> r.maxRetransmits == -1
    ensures init.negotiated.None? ==> !r.negotiated
    ensures init.id.None? ==> r.id == -1
    ensures init.ordered.Some? ==> r.ordered == init.ordered.value
    ensures init.maxPacketLifeTime.Some? ==> r.maxRetransmitTime == init.maxPacketLifeTime.value
    ensures init.maxRetransmits.Some? ==> r.maxRetransmits == init.maxRetransmits.value
    ensures init.negotiated.Some? ==> r.negotiated == init.negotiated.value
    ensures init.id.Some? ==> r.id == init.id.value
    ensures r.protocol == init.protocol
  {
    DataChannelInit(OrElse(init.ordered, true), OrElse(init.maxPacketLifeTime, -1), OrElse(init.maxRetransmits, -1),
                    init.protocol, OrElse(init.negotiated, false), OrElse(init.id, -1))
  }

  // ---------------------------------------------------------------------------------------
  // SDP types

  datatype RTCSdpType = Offer | Pranswer | Answer

  /** `SessionDescriptionInterface::kOffer`, `kPrAnswer` and `kAnswer`. */
  const SdpOffer: string := "offer"
  const SdpPrAnswer: string := "pranswer"
  const SdpAnswer: string := "answer"

  /** `FromCx(RTCSdpType)`: every WinRT SDP type has a name, so the exception is never
      thrown for a value of the enum. */
  function SdpTypeFromCx(t: RTCSdpType): (r: string)
    ensures r in {SdpOffer, SdpPrAnswer, SdpAnswer}
  {
    match t
    case Offer => SdpOffer
    case Answer => SdpAnswer
    case Pranswer => SdpPrAnswer
  }

  /** `ToCx(string, RTCSdpType*)`: a known name overwrites the output; any other string
      leaves it as it was. */
  function SdpTypeToCx(s: string, out: RTCSdpType): (r: RTCSdpType)
    ensures s !in {SdpOffer, SdpPrAnswer, SdpAnswer} ==> r == out
  {
    if s == SdpPrAnswer then Pranswer
    else if s == SdpAnswer then Answer
    else if s == SdpOffer then Offer
    else out
  }

  /** Names round-trip: the type named by `FromCx` is read back by `ToCx` whatever the
      output held, and distinct types have distinct names. */
  lemma SdpTypeRoundTrip(t: RTCSdpType, out: RTCSdpType)
    ensures SdpTypeToCx(SdpTypeFromCx(t), out) == t
    ensures forall u: RTCSdpType :: u != t ==> SdpTypeFromCx(u) != SdpTypeFromCx(t)
  {
  }
}
