/** The RTP demuxer of one RTP session: packets are routed to a sink by their SSRC, and
    packets whose SSRC is not yet bound are resolved by payload type, MID, RSID or the
    MID/RSID pair of the registered criteria, after which the SSRC is latched to the sink
    found. Sinks and observers are compared by identity and are modelled as integers; the
    packets a sink receives and the RSID resolutions an observer is told of are recorded. */
module RtpDemuxer {
  import opened Common

  /** Identity of an `RtpPacketSinkInterface`. */
  type Sink = int
  /** Identity of an `RsidResolutionObserver`. */
  type Observer = int

  /** `RtpDemuxerCriteria`; an absent MID or RSID is `None`. */
  datatype Criteria = Criteria(mid: Option<string>, rsid: Option<string>, ssrcs: seq<int>, payloadTypes: seq<int>)

  /** One element of the `sinks_` list: criteria and the sink registered with them. */
  datatype Entry = Entry(criteria: Criteria, sink: Sink)

  /** What the demuxer reads of a received packet; a missing header extension is `None`. */
  datatype Packet = Packet(ssrc: int, payloadType: int, mid: Option<string>, rsid: Option<string>)

  /** The predicates `OnRtpPacket` hands to `FindSinkByPredicate`, in the order it tries them. */
  datatype Strategy = ByPayloadType | ByMid | ByRsid | ByMidRsid

  datatype Notification = Notification(observer: Observer, rsid: string, ssrc: int)

  /** The demuxer's state: the SSRC bindings, the registered criteria and the observers. */
  datatype Demux = Demux(mapping: map<int, Sink>, sinks: seq<Entry>, observers: seq<Observer>)

  /** Whether criteria `c` accept packet `p` under strategy `st`. */
  predicate Matches(st: Strategy, c: Criteria, p: Packet)
  {
    match st
    case ByPayloadType => p.payloadType in c.payloadTypes
    case ByMid => p.mid.Some? && c.mid == p.mid
    case ByRsid => p.rsid.Some? && c.rsid == p.rsid
    case ByMidRsid => p.mid.Some? && p.rsid.Some? && c.mid == p.mid && c.rsid == p.rsid
  }

  /** `FindSinkByPredicate`: the sink of the first entry whose criteria match. */
  function FindSink(sinks: seq<Entry>, st: Strategy, p: Packet): (r: Option<Sink>)
    ensures r.None? <==> forall i :: 0 <= i < |sinks| ==> !Matches(st, sinks[i].criteria, p)
    ensures r.Some? ==> exists i :: 0 <= i < |sinks| && sinks[i].sink == r.value
  {
    if sinks == [] then None
    else if Matches(st, sinks[0].criteria, p) then Some(sinks[0].sink)
    else
      var r := FindSink(sinks[1..], st, p);
      assert forall i :: 1 <= i < |sinks| ==> sinks[i] == sinks[1..][i - 1];
      r
  }

  /** The sink found is the one of the first matching entry. */
  lemma {:induction false} FindSinkIsFirst(sinks: seq<Entry>, st: Strategy, p: Packet, i: nat)
    requires i < |sinks| && Matches(st, sinks[i].criteria, p)
    requires forall j :: 0 <= j < i ==> !Matches(st, sinks[j].criteria, p)
    ensures FindSink(sinks, st, p) == Some(sinks[i].sink)
    decreases i
  {
    if i > 0 {
      FindSinkIsFirst(sinks[1..], st, p, i - 1);
    }
  }

  /** `AddSsrcSinkBinding` on the map alone: the new map and the result. */
  function Bind(m: map<int, Sink>, ssrc: int, sink: Sink): (r: (map<int, Sink>, bool))
    ensures r.0.Keys == m.Keys + {ssrc}
    ensures forall k :: k in m ==> r.0[k] == m[k]
    ensures ssrc !in m ==> r.0[ssrc] == sink
    ensures r.1 <==> r.0[ssrc] == sink
  {
    if ssrc in m then (m, m[ssrc] == sink) else (m[ssrc := sink], true)
  }

  /** Binding an SSRC fails exactly when it is bound to another sink, and then nothing changes;
      binding it again to its own sink succeeds and changes nothing. */
  lemma BindFailsOnlyOnConflict(m: map<int, Sink>, ssrc: int, sink: Sink)
    ensures !Bind(m, ssrc, sink).1 <==> ssrc in m && m[ssrc] != sink
    ensures ssrc in m ==> Bind(m, ssrc, sink).0 == m
  {
  }

  /** The binding loop of `AddSink(criteria, sink)`, over the SSRCs in order. */
  function BindAll(m: map<int, Sink>, ssrcs: seq<int>, sink: Sink): (r: map<int, Sink>)
    ensures forall k :: k in r <==> k in m || k in ssrcs
    ensures forall k :: k in m ==> r[k] == m[k]
    ensures forall k :: k in r && k !in m ==> r[k] == sink
  {
    if ssrcs == [] then m
    else Bind(BindAll(m, ssrcs[..|ssrcs| - 1], sink), ssrcs[|ssrcs| - 1], sink).0
  }

  /** The state after `AddSink(criteria, sink)`. */
  function WithSink(d: Demux, c: Criteria, sink: Sink): (r: Demux)
    ensures r.sinks == d.sinks + [Entry(c, sink)] && r.observers == d.observers
    ensures forall k :: k in d.mapping ==> k in r.mapping && r.mapping[k] == d.mapping[k]
    ensures forall i :: 0 <= i < |c.ssrcs| ==> c.ssrcs[i] in r.mapping
  {
    d.(mapping := BindAll(d.mapping, c.ssrcs, sink), sinks := d.sinks + [Entry(c, sink)])
  }

  /** `RemoveFromMapByValue` on the list: the entries of other sinks, in order. */
  function WithoutSink(sinks: seq<Entry>, sink: Sink): (r: seq<Entry>)
    ensures forall e :: e in r <==> e in sinks && e.sink != sink
    ensures |r| <= |sinks|
    ensures |r| == |sinks| <==> forall i :: 0 <= i < |sinks| ==> sinks[i].sink != sink
  {
    if sinks == [] then []
    else
      var rest := WithoutSink(sinks[1..], sink);
      assert forall e :: e in sinks <==> e == sinks[0] || e in sinks[1..];
      if sinks[0].sink == sink then rest else [sinks[0]] + rest
  }

  /** The state after `RemoveSink(sink)`. */
  function Removed(d: Demux, sink: Sink): (r: Demux)
    ensures forall i :: 0 <= i < |r.sinks| ==> r.sinks[i].sink != sink
    ensures forall k :: k in r.mapping ==> r.mapping[k] != sink
    ensures forall k :: k in d.mapping && d.mapping[k] != sink ==> k in r.mapping && r.mapping[k] == d.mapping[k]
    ensures r.observers == d.observers
  {
    var m := map k | k in d.mapping && d.mapping[k] != sink :: d.mapping[k];
    d.(mapping := m, sinks := WithoutSink(d.sinks, sink))
  }

  /** Whether `RemoveSink(sink)` removes anything. */
  predicate Registered(d: Demux, sink: Sink)
  {
    (exists i :: 0 <= i < |d.sinks| && d.sinks[i].sink == sink)
    || (exists k :: k in d.mapping && d.mapping[k] == sink)
  }

  /** How a packet is routed. */
  datatype Resolution = Unrouted | BySsrc(sink: Sink) | Resolved(strategy: Strategy, sink: Sink)

  /** Position of a strategy in the order `OnRtpPacket` tries them. */
  function Rank(st: Strategy): nat
  {
    match st
    case ByPayloadType => 0
    case ByMid => 1
    case ByRsid => 2
    case ByMidRsid => 3
  }

  /** The chain of `TryDemuxWith*` calls in `OnRtpPacket`: the bound SSRC first, then the
      first strategy that finds a sink. */
  function Resolve(d: Demux, p: Packet): (r: Resolution)
    ensures r.BySsrc? <==> p.ssrc in d.mapping
    ensures r.BySsrc? ==> r.sink == d.mapping[p.ssrc]
    ensures r.Unrouted? ==> forall st :: FindSink(d.sinks, st, p).None?
    ensures r.Resolved? ==> p.ssrc !in d.mapping && FindSink(d.sinks, r.strategy, p) == Some(r.sink)
    ensures r.Resolved? ==> forall st :: Rank(st) < Rank(r.strategy) ==> FindSink(d.sinks, st, p).None?
  {
    if p.ssrc in d.mapping then BySsrc(d.mapping[p.ssrc])
    else if FindSink(d.sinks, ByPayloadType, p).Some? then
      Resolved(ByPayloadType, FindSink(d.sinks, ByPayloadType, p).value)
    else if FindSink(d.sinks, ByMid, p).Some? then
      Resolved(ByMid, FindSink(d.sinks, ByMid, p).value)
    else if FindSink(d.sinks, ByRsid, p).Some? then
      Resolved(ByRsid, FindSink(d.sinks, ByRsid, p).value)
    else if FindSink(d.sinks, ByMidRsid, p).Some? then
      Resolved(ByMidRsid, FindSink(d.sinks, ByMidRsid, p).value)
    else Unrouted
  }

  /** The notifications of `NotifyObserversOfRsidResolution`, one per observer in order. */
  function Notify(observers: seq<Observer>, rsid: string, ssrc: int): (r: seq<Notification>)
    ensures |r| == |observers|
    ensures forall i :: 0 <= i < |r| ==> r[i] == Notification(observers[i], rsid, ssrc)
  {
    if observers == [] then []
    else Notify(observers[..|observers| - 1], rsid, ssrc) + [Notification(observers[|observers| - 1], rsid, ssrc)]
  }

  /** `OnRtpPacket` on the state: the new state, the sink that receives the packet, and the
      observer notifications, in that order. */
  function Received(d: Demux, p: Packet): (r: (Demux, Option<Sink>, seq<Notification>))
    ensures r.0.sinks == d.sinks && r.0.observers == d.observers
    ensures r.1.None? <==> Resolve(d, p).Unrouted?
    ensures r.1.None? ==> r.0 == d
    ensures r.2 != [] ==> Resolve(d, p).Resolved? && Resolve(d, p).strategy == ByRsid
  {
    match Resolve(d, p)
    case Unrouted => (d, None, [])
    case BySsrc(s) => (d, Some(s), [])
    case Resolved(st, s) =>
      var notes := if st == ByRsid then Notify(d.observers, p.rsid.value, p.ssrc) else [];
      (d.(mapping := Bind(d.mapping, p.ssrc, s).0), Some(s), notes)
  }

  /** After a packet has been routed, every later packet with the same SSRC takes the fast
      path to the same sink. */
  lemma RoutedSsrcIsLatched(d: Demux, p: Packet, q: Packet)
    requires Received(d, p).1.Some? && q.ssrc == p.ssrc
    ensures Resolve(Received(d, p).0, q) == BySsrc(Received(d, p).1.value)
  {
  }

  /** Latching never fails inside `OnRtpPacket`: an SSRC is only resolved when it is unbound. */
  lemma ResolutionNeverConflicts(d: Demux, p: Packet)
    requires Resolve(d, p).Resolved?
    ensures Bind(d.mapping, p.ssrc, Resolve(d, p).sink).1
  {
  }

  /** A removed sink receives no further packets. */
  lemma RemovedSinkReceivesNothing(d: Demux, sink: Sink, p: Packet)
    ensures Received(Removed(d, sink), p).1 != Some(sink)
  {
    var d' := Removed(d, sink);
    match Resolve(d', p)
    case Unrouted =>
    case BySsrc(s) =>
    case Resolved(st, s) =>
      var i :| 0 <= i < |d'.sinks| && d'.sinks[i].sink == s;
  }

  /** The state after `RegisterRsidResolutionObserver`. */
  function WithObserver(d: Demux, o: Observer): (r: Demux)
    requires o !in d.observers
    ensures r.observers == d.observers + [o]
    ensures r.mapping == d.mapping && r.sinks == d.sinks
  {
    d.(observers := d.observers + [o])
  }

  /** Deregistering an observer undoes its registration. */
  lemma DeregisterUndoesRegister(d: Demux, o: Observer)
    requires o !in d.observers
    ensures d.(observers := RemoveFirst(WithObserver(d, o).observers, o)) == d
  {
    RemoveFirstLast(d.observers, o);
  }

  lemma {:induction false} RemoveFirstLast(s: seq<Observer>, o: Observer)
    requires o !in s
    ensures RemoveFirst(s + [o], o) == s
  {
    if s != [] {
      assert (s + [o])[1..] == s[1..] + [o];
      RemoveFirstLast(s[1..], o);
    }
  }

  class Demuxer {
    var mapping: map<int, Sink>
    var sinks: seq<Entry>
    var observers: seq<Observer>
    /** Every packet handed to a sink so far. */
    var delivered: seq<(Sink, Packet)>
    /** Every RSID resolution reported to an observer so far. */
    var notified: seq<Notification>

    function Snapshot(): Demux
      reads this
    {
      Demux(mapping, sinks, observers)
    }

    constructor()
      ensures Snapshot() == Demux(map[], [], []) && delivered == [] && notified == []
    {
      mapping := map[];
      sinks := [];
      observers := [];
      delivered := [];
      notified := [];
    }

    /** `AddSsrcSinkBinding`. */
    method AddSsrcSinkBinding(ssrc: int, sink: Sink) returns (ok: bool)
      modifies this
      ensures (mapping, ok) == Bind(old(mapping), ssrc, sink)
      ensures sinks == old(sinks) && observers == old(observers)
      ensures delivered == old(delivered) && notified == old(notified)
    {
      if ssrc in mapping {
        ok := mapping[ssrc] == sink;
      } else {
        mapping := mapping[ssrc := sink];
        ok := true;
      }
    }

    /** `AddSink(criteria, sink)`: binds every listed SSRC, then appends the criteria. */
    method AddSink(criteria: Criteria, sink: Sink)
      modifies this
      ensures Snapshot() == WithSink(old(Snapshot()), criteria, sink)
      ensures delivered == old(delivered) && notified == old(notified)
    {
      var i := 0;
      while i < |criteria.ssrcs|
        invariant 0 <= i <= |criteria.ssrcs|
        invariant mapping == BindAll(old(mapping), criteria.ssrcs[..i], sink)
        invariant sinks == old(sinks) && observers == old(observers)
        invariant delivered == old(delivered) && notified == old(notified)
      {
        assert criteria.ssrcs[..i + 1][..i] == criteria.ssrcs[..i];
        assert BindAll(old(mapping), criteria.ssrcs[..i + 1], sink)
          == Bind(BindAll(old(mapping), criteria.ssrcs[..i], sink), criteria.ssrcs[i], sink).0;
        var _ := AddSsrcSinkBinding(criteria.ssrcs[i], sink);
        i := i + 1;
      }
      assert criteria.ssrcs[..i] == criteria.ssrcs;
      sinks := sinks + [Entry(criteria, sink)];
    }

    /** `AddSink(ssrc, sink)`: the binding it builds is discarded; it reports success and
        changes nothing. */
    method AddSsrcSink(ssrc: int, sink: Sink) returns (ok: bool)
      ensures ok
    {
      var criteria := Criteria(None, None, [ssrc], []);
      ok := true;
    }

    /** `AddSink(rsid, sink)`: registers criteria holding only the RSID. */
    method AddRsidSink(rsid: string, sink: Sink)
      modifies this
      ensures Snapshot() == WithSink(old(Snapshot()), Criteria(None, Some(rsid), [], []), sink)
      ensures Snapshot().mapping == old(mapping)
      ensures delivered == old(delivered) && notified == old(notified)
    {
      AddSink(Criteria(None, Some(rsid), [], []), sink);
    }

    /** `RemoveSink`: removes every entry and every binding of the sink. */
    method RemoveSink(sink: Sink) returns (removed: bool)
      modifies this
      ensures Snapshot() == Removed(old(Snapshot()), sink)
      ensures removed <==> Registered(old(Snapshot()), sink)
      ensures delivered == old(delivered) && notified == old(notified)
    {
      var kept := WithoutSink(sinks, sink);
      var m := map k | k in mapping && mapping[k] != sink :: mapping[k];
      assert mapping.Keys == m.Keys + (mapping.Keys - m.Keys) && m.Keys * (mapping.Keys - m.Keys) == {};
      if exists k :: k in mapping && mapping[k] == sink {
        var k :| k in mapping && mapping[k] == sink;
        assert k !in m.Keys;
      } else {
        assert m.Keys == mapping.Keys;
      }
      removed := (|sinks| - |kept|) + (|mapping.Keys| - |m.Keys|) > 0;
      sinks := kept;
      mapping := m;
    }

    /** `FindSinkByPredicate`: a scan of the criteria list in registration order. */
    method FindSinkByPredicate(st: Strategy, p: Packet) returns (found: Option<Sink>)
      ensures found == FindSink(sinks, st, p)
    {
      var i := 0;
      while i < |sinks|
        invariant 0 <= i <= |sinks|
        invariant forall j :: 0 <= j < i ==> !Matches(st, sinks[j].criteria, p)
      {
        if Matches(st, sinks[i].criteria, p) {
          FindSinkIsFirst(sinks, st, p, i);
          return Some(sinks[i].sink);
        }
        i := i + 1;
      }
      return None;
    }

    /** `NotifyObserversOfRsidResolution`. */
    method NotifyObservers(rsid: string, ssrc: int)
      modifies this
      ensures notified == old(notified) + Notify(observers, rsid, ssrc)
      ensures Snapshot() == old(Snapshot()) && delivered == old(delivered)
    {
      var i := 0;
      while i < |observers|
        invariant 0 <= i <= |observers|
        invariant notified == old(notified) + Notify(observers[..i], rsid, ssrc)
        invariant Snapshot() == old(Snapshot()) && delivered == old(delivered)
      {
        assert observers[..i + 1][..i] == observers[..i];
        notified := notified + [Notification(observers[i], rsid, ssrc)];
        i := i + 1;
      }
      assert observers[..i] == observers;
    }

    /** `TryDemuxWithSsrc`. */
    method TryDemuxWithSsrc(p: Packet) returns (ok: bool)
      modifies this
      ensures ok <==> p.ssrc in old(mapping)
      ensures Snapshot() == old(Snapshot()) && notified == old(notified)
      ensures delivered == old(delivered) + (if ok then [(mapping[p.ssrc], p)] else [])
    {
      ok := p.ssrc in mapping;
      if ok {
        delivered := delivered + [(mapping[p.ssrc], p)];
      }
    }

    /** `TryDemuxWithPayloadType`, `TryDemuxWithMid`, `TryDemuxWithRsid` and
        `TryDemuxWithMidRsid`: the packet is delivered to the sink found whether or not
        its SSRC could be latched to it. */
    method TryDemuxWith(st: Strategy, p: Packet) returns (ok: bool)
      modifies this
      ensures ok <==> FindSink(old(sinks), st, p).Some?
      ensures sinks == old(sinks) && observers == old(observers)
      ensures !ok ==> mapping == old(mapping) && delivered == old(delivered) && notified == old(notified)
      ensures ok ==> var s := FindSink(old(sinks), st, p).value;
        && mapping == Bind(old(mapping), p.ssrc, s).0
        && delivered == old(delivered) + [(s, p)]
        && notified == old(notified) + (if st == ByRsid then Notify(observers, p.rsid.value, p.ssrc) else [])
    {
      var found := FindSinkByPredicate(st, p);
      if found.None? {
        return false;
      }
      var sink := found.value;
      if st == ByRsid {
        NotifyObservers(p.rsid.value, p.ssrc);
      }
      var _ := AddSsrcSinkBinding(p.ssrc, sink);
      delivered := delivered + [(sink, p)];
      ok := true;
    }

    /** `OnRtpPacket`. */
    method OnRtpPacket(p: Packet) returns (ok: bool)
      modifies this
      ensures var (d, to, notes) := Received(old(Snapshot()), p);
        && Snapshot() == d
        && ok == to.Some?
        && delivered == old(delivered) + (if ok then [(to.value, p)] else [])
        && notified == old(notified) + notes
    {
      ok := TryDemuxWithSsrc(p);
      if ok {
        return;
      }
      ok := TryDemuxWith(ByPayloadType, p);
      if ok {
        return;
      }
      ok := TryDemuxWith(ByMid, p);
      if ok {
        return;
      }
      ok := TryDemuxWith(ByRsid, p);
      if ok {
        return;
      }
      ok := TryDemuxWith(ByMidRsid, p);
    }

    /** `RegisterRsidResolutionObserver`. */
    method RegisterRsidResolutionObserver(o: Observer)
      requires o !in observers
      modifies this
      ensures Snapshot() == WithObserver(old(Snapshot()), o)
      ensures delivered == old(delivered) && notified == old(notified)
    {
      observers := observers + [o];
    }

    /** `DeregisterRsidResolutionObserver`. */
    method DeregisterRsidResolutionObserver(o: Observer)
      requires o in observers
      modifies this
      ensures observers == RemoveFirst(old(observers), o)
      ensures mapping == old(mapping) && sinks == old(sinks)
      ensures delivered == old(delivered) && notified == old(notified)
    {
      observers := RemoveFirst(observers, o);
    }
  }
}
