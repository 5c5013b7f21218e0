/** The RTCP demuxer of one RTP session. Sinks are registered under a sender SSRC, an
    RSID, a MID, a MID/RSID pair or a payload type, or as broadcast sinks; when the RTP
    side reports that an SSRC has been bound to one of those attributes, the sinks
    registered under it become SSRC sinks too. An RTCP packet goes to the SSRC sinks of
    its sender SSRC and then to every broadcast sink. Sinks are identities (integers);
    each `std::multimap` is the sequence of its (key, sink) associations in insertion
    order, which is the order `equal_range` visits equal keys in. */
module RtcpDemuxer {
  import opened Common

  /** Identity of an `RtcpPacketSinkInterface`. */
  type Sink = int

  /** The key of a multimap entry: a sender SSRC, an RSID, a MID, a MID/RSID pair or a
      payload type. Each multimap holds keys of one kind. */
  datatype Key = SsrcKey(ssrc: int) | RsidKey(rsid: string) | MidKey(mid: string)
               | MidRsidKey(mid: string, rsid: string) | PayloadTypeKey(payloadType: int)

  datatype Assoc = Assoc(key: Key, sink: Sink)

  type Multimap = seq<Assoc>

  /** The sinks `equal_range(k)` visits, in order. */
  function SinksFor(m: Multimap, k: Key): (r: seq<Sink>)
    ensures forall s :: s in r <==> Assoc(k, s) in m
    ensures |r| <= |m|
  {
    if m == [] then []
    else
      var last := m[|m| - 1];
      assert forall a :: a in m <==> a in m[..|m| - 1] || a == last;
      SinksFor(m[..|m| - 1], k) + (if last.key == k then [last.sink] else [])
  }

  /** `MultimapHasValue`. */
  predicate HasValue(m: Multimap, s: Sink)
  {
    exists a :: a in m && a.sink == s
  }

  /** No (key, sink) association is recorded twice. */
  predicate NoDuplicates<T(==)>(m: seq<T>)
  {
    forall i, j :: 0 <= i < j < |m| ==> m[i] != m[j]
  }

  /** `RemoveFromMultimapByValue`: the associations of other sinks, in order. */
  function WithoutValue(m: Multimap, s: Sink): (r: Multimap)
    ensures forall a :: a in r <==> a in m && a.sink != s
    ensures NoDuplicates(m) ==> NoDuplicates(r)
    ensures |r| <= |m|
    ensures |r| < |m| <==> HasValue(m, s)
  {
    if m == [] then []
    else
      var rest := WithoutValue(m[1..], s);
      assert forall a :: a in m <==> a == m[0] || a in m[1..];
      assert NoDuplicates(m) ==> NoDuplicates(m[1..]) && m[0] !in m[1..] by {
        if NoDuplicates(m) {
          forall i, j | 0 <= i < j < |m[1..]|
            ensures m[1..][i] != m[1..][j]
          {
            assert m[1..][i] == m[i + 1] && m[1..][j] == m[j + 1];
          }
        }
      }
      if m[0].sink == s then rest
      else
        var r := [m[0]] + rest;
        assert NoDuplicates(m) ==> NoDuplicates(r) by {
          if NoDuplicates(m) {
            forall i, j | 0 <= i < j < |r|
              ensures r[i] != r[j]
            {
              assert r[j] == rest[j - 1] && r[j] in rest;
              if i > 0 {
                assert r[i] == rest[i - 1];
              }
            }
          }
        }
        r
  }

  /** `BindSinksToSsrc` on the SSRC multimap: each of `sinks` in turn is associated with
      `ssrc` unless it already is. */
  function BindSinks(ssrcSinks: Multimap, sinks: seq<Sink>, ssrc: int): (r: Multimap)
    ensures |ssrcSinks| <= |r| && r[..|ssrcSinks|] == ssrcSinks
    ensures forall s :: s in sinks ==> Assoc(SsrcKey(ssrc), s) in r
    ensures forall a :: a in r ==> a in ssrcSinks || (a.key == SsrcKey(ssrc) && a.sink in sinks)
    ensures NoDuplicates(ssrcSinks) ==> NoDuplicates(r)
  {
    if sinks == [] then ssrcSinks
    else
      var before := BindSinks(ssrcSinks, sinks[..|sinks| - 1], ssrc);
      var s := sinks[|sinks| - 1];
      assert forall x :: x in sinks <==> x in sinks[..|sinks| - 1] || x == s;
      if Assoc(SsrcKey(ssrc), s) in before then before
      else
        var r := before + [Assoc(SsrcKey(ssrc), s)];
        assert r[..|ssrcSinks|] == before[..|ssrcSinks|];
        assert NoDuplicates(ssrcSinks) ==> NoDuplicates(r) by {
          if NoDuplicates(ssrcSinks) {
            forall i, j | 0 <= i < j < |r|
              ensures r[i] != r[j]
            {
              if j == |r| - 1 {
                assert r[i] == before[i] && r[i] in before;
              } else {
                assert r[i] == before[i] && r[j] == before[j];
              }
            }
          }
        }
        r
  }

  /** The demuxer's state: the five keyed multimaps and the broadcast list. */
  datatype Rtcp = Rtcp(ssrcSinks: Multimap, rsidSinks: Multimap, midSinks: Multimap,
                       midRsidSinks: Multimap, payloadTypeSinks: Multimap,
                       broadcastSinks: seq<Sink>)

  /** Whether a sink has any keyed association. */
  predicate Keyed(d: Rtcp, s: Sink)
  {
    HasValue(d.ssrcSinks, s) || HasValue(d.rsidSinks, s) || HasValue(d.midSinks, s)
    || HasValue(d.midRsidSinks, s) || HasValue(d.payloadTypeSinks, s)
  }

  /** The registration rules the demuxer's checks enforce: no association twice, no sink
      both keyed and broadcast, no broadcast sink twice. */
  predicate Valid(d: Rtcp)
  {
    && NoDuplicates(d.ssrcSinks) && NoDuplicates(d.rsidSinks) && NoDuplicates(d.midSinks)
    && NoDuplicates(d.midRsidSinks) && NoDuplicates(d.payloadTypeSinks)
    && NoDuplicates(d.broadcastSinks)
    && forall s :: s in d.broadcastSinks ==> !Keyed(d, s)
  }

  /** The sinks an RTCP packet reaches, in delivery order. */
  function Recipients(d: Rtcp, senderSsrc: Option<int>): (r: seq<Sink>)
    ensures forall s :: s in r <==> s in d.broadcastSinks || (senderSsrc.Some? && Assoc(SsrcKey(senderSsrc.value), s) in d.ssrcSinks)
    ensures senderSsrc.None? ==> r == d.broadcastSinks
    ensures |d.broadcastSinks| <= |r| && r[|r| - |d.broadcastSinks|..] == d.broadcastSinks
  {
    (if senderSsrc.Some? then SinksFor(d.ssrcSinks, SsrcKey(senderSsrc.value)) else []) + d.broadcastSinks
  }

  /** The state after `RemoveSink(s)`. */
  function Unregistered(d: Rtcp, s: Sink): (r: Rtcp)
    ensures !Keyed(r, s) && r.broadcastSinks == d.broadcastSinks
    ensures Valid(d) ==> Valid(r)
  {
    Rtcp(WithoutValue(d.ssrcSinks, s), WithoutValue(d.rsidSinks, s), WithoutValue(d.midSinks, s),
         WithoutValue(d.midRsidSinks, s), WithoutValue(d.payloadTypeSinks, s), d.broadcastSinks)
  }

  /** After the RTP side binds an RSID to an SSRC, every sink registered for that RSID
      receives the RTCP packets of that sender SSRC. */
  lemma RsidSinksReceiveAfterBinding(d: Rtcp, rsid: string, ssrc: int, s: Sink)
    requires Assoc(RsidKey(rsid), s) in d.rsidSinks
    ensures s in Recipients(d.(ssrcSinks := BindSinks(d.ssrcSinks, SinksFor(d.rsidSinks, RsidKey(rsid)), ssrc)), Some(ssrc))
  {
  }

  /** A keyed sink that has been removed receives no further packets. */
  lemma RemovedSinkReceivesNothing(d: Rtcp, s: Sink, senderSsrc: Option<int>)
    requires Valid(d) && Keyed(d, s)
    ensures s !in Recipients(Unregistered(d, s), senderSsrc)
  {
    assert !HasValue(Unregistered(d, s).ssrcSinks, s);
  }

  class Demuxer {
    var ssrcSinks: Multimap
    var rsidSinks: Multimap
    var midSinks: Multimap
    var midRsidSinks: Multimap
    var payloadTypeSinks: Multimap
    var broadcastSinks: seq<Sink>
    /** The sinks each packet was handed to, in order. */
    var received: seq<Sink>

    function Snapshot(): Rtcp
      reads this
    {
      Rtcp(ssrcSinks, rsidSinks, midSinks, midRsidSinks, payloadTypeSinks, broadcastSinks)
    }

    constructor()
      ensures Snapshot() == Rtcp([], [], [], [], [], []) && received == []
      ensures Valid(Snapshot())
    {
      ssrcSinks, rsidSinks, midSinks, midRsidSinks, payloadTypeSinks := [], [], [], [], [];
      broadcastSinks := [];
      received := [];
    }

    /** `AddSink(sender_ssrc, sink)`. */
    method AddSsrcSink(ssrc: int, s: Sink)
      requires Valid(Snapshot())
      requires s !in broadcastSinks && Assoc(SsrcKey(ssrc), s) !in ssrcSinks
      modifies this
      ensures Snapshot() == old(Snapshot()).(ssrcSinks := old(ssrcSinks) + [Assoc(SsrcKey(ssrc), s)])
      ensures Valid(Snapshot()) && received == old(received)
    {
      ssrcSinks := ssrcSinks + [Assoc(SsrcKey(ssrc), s)];
      assert forall a :: a in ssrcSinks <==> a in old(ssrcSinks) || a == Assoc(SsrcKey(ssrc), s);
    }

    /** `AddSink(rsid, sink)`. */
    method AddRsidSink(rsid: string, s: Sink)
      requires Valid(Snapshot())
      requires s !in broadcastSinks && Assoc(RsidKey(rsid), s) !in rsidSinks
      modifies this
      ensures Snapshot() == old(Snapshot()).(rsidSinks := old(rsidSinks) + [Assoc(RsidKey(rsid), s)])
      ensures Valid(Snapshot()) && received == old(received)
    {
      rsidSinks := rsidSinks + [Assoc(RsidKey(rsid), s)];
      assert forall a :: a in rsidSinks <==> a in old(rsidSinks) || a == Assoc(RsidKey(rsid), s);
    }

    /** `AddMidSink`. */
    method AddMidSink(mid: string, s: Sink)
      requires Valid(Snapshot())
      requires s !in broadcastSinks && Assoc(MidKey(mid), s) !in midSinks
      modifies this
      ensures Snapshot() == old(Snapshot()).(midSinks := old(midSinks) + [Assoc(MidKey(mid), s)])
      ensures Valid(Snapshot()) && received == old(received)
    {
      midSinks := midSinks + [Assoc(MidKey(mid), s)];
      assert forall a :: a in midSinks <==> a in old(midSinks) || a == Assoc(MidKey(mid), s);
    }

    /** `AddMidRsidSink`. */
    method AddMidRsidSink(mid: string, rsid: string, s: Sink)
      requires Valid(Snapshot())
      requires s !in broadcastSinks && Assoc(MidRsidKey(mid, rsid), s) !in midRsidSinks
      modifies this
      ensures Snapshot() == old(Snapshot()).(midRsidSinks := old(midRsidSinks) + [Assoc(MidRsidKey(mid, rsid), s)])
      ensures Valid(Snapshot()) && received == old(received)
    {
      midRsidSinks := midRsidSinks + [Assoc(MidRsidKey(mid, rsid), s)];
      assert forall a :: a in midRsidSinks <==> a in old(midRsidSinks) || a == Assoc(MidRsidKey(mid, rsid), s);
    }

    /** `AddPayloadTypeSink`. */
    method AddPayloadTypeSink(payloadType: int, s: Sink)
      requires Valid(Snapshot())
      requires s !in broadcastSinks && Assoc(PayloadTypeKey(payloadType), s) !in payloadTypeSinks
      modifies this
      ensures Snapshot() == old(Snapshot()).(payloadTypeSinks := old(payloadTypeSinks) + [Assoc(PayloadTypeKey(payloadType), s)])
      ensures Valid(Snapshot()) && received == old(received)
    {
      payloadTypeSinks := payloadTypeSinks + [Assoc(PayloadTypeKey(payloadType), s)];
      assert forall a :: a in payloadTypeSinks <==> a in old(payloadTypeSinks) || a == Assoc(PayloadTypeKey(payloadType), s);
    }

    /** `AddBroadcastSink`: only a sink with no keyed association and not yet broadcast. */
    method AddBroadcastSink(s: Sink)
      requires Valid(Snapshot())
      requires !Keyed(Snapshot(), s) && s !in broadcastSinks
      modifies this
      ensures Snapshot() == old(Snapshot()).(broadcastSinks := old(broadcastSinks) + [s])
      ensures Valid(Snapshot()) && received == old(received)
    {
      broadcastSinks := broadcastSinks + [s];
    }

    /** `RemoveSink`: at least one association of the sink must exist. */
    method RemoveSink(s: Sink)
      requires Valid(Snapshot()) && Keyed(Snapshot(), s)
      modifies this
      ensures Snapshot() == Unregistered(old(Snapshot()), s)
      ensures Valid(Snapshot()) && received == old(received)
    {
      var after := Unregistered(Snapshot(), s);
      ssrcSinks := after.ssrcSinks;
      rsidSinks := after.rsidSinks;
      midSinks := after.midSinks;
      midRsidSinks := after.midRsidSinks;
      payloadTypeSinks := after.payloadTypeSinks;
    }

    /** `RemoveBroadcastSink`: erases the one occurrence of the sink. */
    method RemoveBroadcastSink(s: Sink)
      requires Valid(Snapshot()) && s in broadcastSinks
      modifies this
      ensures Snapshot() == old(Snapshot()).(broadcastSinks := RemoveFirst(old(broadcastSinks), s))
      ensures s !in broadcastSinks
      ensures Valid(Snapshot()) && received == old(received)
    {
      RemoveFirstOfDistinct(broadcastSinks, s);
      broadcastSinks := RemoveFirst(broadcastSinks, s);
    }

    /** `OnRtcpPacket`, given the sender SSRC the packet parses to (if any). */
    method OnRtcpPacket(senderSsrc: Option<int>)
      modifies this`received
      ensures Snapshot() == old(Snapshot())
      ensures received == old(received) + Recipients(old(Snapshot()), senderSsrc)
    {
      if senderSsrc.Some? {
        DeliverToSsrcSinks(senderSsrc.value);
      }
      DeliverToBroadcastSinks();
    }

    /** The first loop of `OnRtcpPacket`: every sink bound to the sender SSRC gets the packet. */
    method DeliverToSsrcSinks(ssrc: int)
      modifies this`received
      ensures received == old(received) + SinksFor(ssrcSinks, SsrcKey(ssrc))
    {
      var i := 0;
      while i < |ssrcSinks|
        invariant 0 <= i <= |ssrcSinks|
        invariant received == old(received) + SinksFor(ssrcSinks[..i], SsrcKey(ssrc))
      {
        assert ssrcSinks[..i + 1][..i] == ssrcSinks[..i];
        if ssrcSinks[i].key == SsrcKey(ssrc) {
          received := received + [ssrcSinks[i].sink];
        }
        i := i + 1;
      }
      assert ssrcSinks[..i] == ssrcSinks;
    }

    /** The second loop of `OnRtcpPacket`: every broadcast sink gets the packet. */
    method DeliverToBroadcastSinks()
      modifies this`received
      ensures received == old(received) + broadcastSinks
    {
      var j := 0;
      while j < |broadcastSinks|
        invariant 0 <= j <= |broadcastSinks|
        invariant received == old(received) + broadcastSinks[..j]
      {
        received := received + [broadcastSinks[j]];
        j := j + 1;
      }
      assert broadcastSinks[..j] == broadcastSinks;
    }

    /** `BindSinksToSsrc` for the sinks of one key. */
    method BindSinksToSsrc(sinks: seq<Sink>, ssrc: int)
      modifies this
      ensures Snapshot() == old(Snapshot()).(ssrcSinks := BindSinks(old(ssrcSinks), sinks, ssrc))
      ensures received == old(received)
    {
      var i := 0;
      while i < |sinks|
        invariant 0 <= i <= |sinks|
        invariant Snapshot() == old(Snapshot()).(ssrcSinks := BindSinks(old(ssrcSinks), sinks[..i], ssrc))
        invariant received == old(received)
      {
        assert sinks[..i + 1][..i] == sinks[..i];
        if Assoc(SsrcKey(ssrc), sinks[i]) !in ssrcSinks {
          ssrcSinks := ssrcSinks + [Assoc(SsrcKey(ssrc), sinks[i])];
        }
        i := i + 1;
      }
      assert sinks[..i] == sinks;
    }

    /** `OnSsrcBoundToRsid`. */
    method OnSsrcBoundToRsid(rsid: string, ssrc: int)
      requires Valid(Snapshot())
      modifies this
      ensures Snapshot() == old(Snapshot()).(ssrcSinks := BindSinks(old(ssrcSinks), SinksFor(rsidSinks, RsidKey(rsid)), ssrc))
      ensures Valid(Snapshot()) && received == old(received)
    {
      BindSinksToSsrc(SinksFor(rsidSinks, RsidKey(rsid)), ssrc);
      BoundSinksKeepValid(old(Snapshot()), SinksFor(rsidSinks, RsidKey(rsid)), ssrc);
    }

    /** `OnSsrcBoundToMid`. */
    method OnSsrcBoundToMid(mid: string, ssrc: int)
      requires Valid(Snapshot())
      modifies this
      ensures Snapshot() == old(Snapshot()).(ssrcSinks := BindSinks(old(ssrcSinks), SinksFor(midSinks, MidKey(mid)), ssrc))
      ensures Valid(Snapshot()) && received == old(received)
    {
      BindSinksToSsrc(SinksFor(midSinks, MidKey(mid)), ssrc);
      BoundSinksKeepValid(old(Snapshot()), SinksFor(midSinks, MidKey(mid)), ssrc);
    }

    /** `OnSsrcBoundToMidRsid`. */
    method OnSsrcBoundToMidRsid(mid: string, rsid: string, ssrc: int)
      requires Valid(Snapshot())
      modifies this
      ensures Snapshot() == old(Snapshot()).(ssrcSinks := BindSinks(old(ssrcSinks), SinksFor(midRsidSinks, MidRsidKey(mid, rsid)), ssrc))
      ensures Valid(Snapshot()) && received == old(received)
    {
      BindSinksToSsrc(SinksFor(midRsidSinks, MidRsidKey(mid, rsid)), ssrc);
      BoundSinksKeepValid(old(Snapshot()), SinksFor(midRsidSinks, MidRsidKey(mid, rsid)), ssrc);
    }

    /** `OnSsrcBoundToPayloadType`. */
    method OnSsrcBoundToPayloadType(payloadType: int, ssrc: int)
      requires Valid(Snapshot())
      modifies this
      ensures Snapshot() == old(Snapshot()).(ssrcSinks := BindSinks(old(ssrcSinks), SinksFor(payloadTypeSinks, PayloadTypeKey(payloadType)), ssrc))
      ensures Valid(Snapshot()) && received == old(received)
    {
      BindSinksToSsrc(SinksFor(payloadTypeSinks, PayloadTypeKey(payloadType)), ssrc);
      BoundSinksKeepValid(old(Snapshot()), SinksFor(payloadTypeSinks, PayloadTypeKey(payloadType)), ssrc);
    }
  }

  /** Binding sinks that are not broadcast sinks keeps the registration rules. */
  lemma BoundSinksKeepValid(d: Rtcp, sinks: seq<Sink>, ssrc: int)
    requires Valid(d)
    requires forall s :: s in sinks ==> Keyed(d, s)
    ensures Valid(d.(ssrcSinks := BindSinks(d.ssrcSinks, sinks, ssrc)))
  {
    var d' := d.(ssrcSinks := BindSinks(d.ssrcSinks, sinks, ssrc));
    forall s | s in d'.broadcastSinks
      ensures !Keyed(d', s)
    {
      assert !Keyed(d, s);
    }
  }

  /** Removing the one occurrence of an element from a list without repetitions. */
  lemma RemoveFirstOfDistinct(s: seq<Sink>, x: Sink)
    requires NoDuplicates(s) && x in s
    ensures x !in RemoveFirst(s, x) && NoDuplicates(RemoveFirst(s, x))
    ensures forall y :: y in RemoveFirst(s, x) ==> y in s
  {
    var r := RemoveFirst(s, x);
    assert multiset(r) == multiset(s) - multiset{x};
    assert multiset(s)[x] == 1 by {
      MultiplicityOfDistinct(s, x);
    }
    assert x !in multiset(r);
    forall y | y in r
      ensures y in s
    {
      assert y in multiset(r);
    }
    forall i, j | 0 <= i < j < |r|
      ensures r[i] != r[j]
    {
      if r[i] == r[j] {
        assert multiset(r)[r[i]] >= 2 by {
          PairCounted(r, i, j);
        }
        MultiplicityOfDistinct(s, r[i]);
      }
    }
  }

  lemma {:induction false} MultiplicityOfDistinct(s: seq<Sink>, x: Sink)
    requires NoDuplicates(s)
    ensures multiset(s)[x] <= 1
  {
    if s != [] {
      assert s == [s[0]] + s[1..];
      assert NoDuplicates(s[1..]) by {
        forall i, j | 0 <= i < j < |s[1..]|
          ensures s[1..][i] != s[1..][j]
        {
          assert s[1..][i] == s[i + 1] && s[1..][j] == s[j + 1];
        }
      }
      MultiplicityOfDistinct(s[1..], x);
      if s[0] == x {
        assert x !in s[1..];
      }
    }
  }

  lemma PairCounted(r: seq<Sink>, i: int, j: int)
    requires 0 <= i < j < |r| && r[i] == r[j]
    ensures multiset(r)[r[i]] >= 2
  {
    assert r == r[..i] + [r[i]] + r[i + 1..j] + [r[j]] + r[j + 1..];
    assert multiset(r) == multiset(r[..i]) + multiset{r[i]} + multiset(r[i + 1..j]) + multiset{r[j]} + multiset(r[j + 1..]);
  }
}
