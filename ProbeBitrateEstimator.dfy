/** The probe bitrate estimator of the congestion controller: feedback for packets sent in
    probe clusters is aggregated per cluster, and once a cluster has enough probes its send
    and receive rates give a bandwidth estimate. `float` arithmetic is modelled with `real`
    (no rounding); the `std::map` of clusters is a sequence of (id, cluster) pairs in
    increasing id order, so its `begin()` is the first pair. */
module ProbeBitrateEstimator {
  import opened Common

  const MaxNumSavedClusters: nat := 5
  const MinNumProbesValidCluster: int := 4
  const ValidRatio: real := 2.0

  /** `PacketInfo::kNotAProbe` and `ProbingResult::kNoEstimate`. */
  const NotAProbe: int := -1
  const NoEstimate: int := -1

  const Int64Max: int := 0x7FFF_FFFF_FFFF_FFFF

  /** `AggregatedCluster`. */
  datatype Cluster = Cluster(firstSendMs: int, lastSendMs: int, sizeLastSend: int,
                             firstReceiveMs: int, lastReceiveMs: int, sizeFirstReceive: int,
                             sizeTotal: int, numProbes: int)

  /** A cluster as `operator[]` creates it. */
  const NewCluster: Cluster := Cluster(Int64Max, 0, 0, Int64Max, 0, 0, 0, 0)

  /** The fields of `PacketInfo` the estimator reads. */
  datatype PacketInfo = PacketInfo(probeClusterId: int, payloadSize: int, sendTimeMs: int, arrivalTimeMs: int)

  /** `ProbingResult`; it is valid when `bps` is not `NoEstimate`. */
  datatype ProbingResult = ProbingResult(bps: int, timestamp: int)
  {
    predicate Valid() { bps != NoEstimate }
  }

  const NoResult: ProbingResult := ProbingResult(NoEstimate, 0)

  type Clusters = seq<(int, Cluster)>

  /** The ids are strictly increasing, as the keys of a `std::map` iterate. */
  predicate Sorted(cs: Clusters)
  {
    forall i, j :: 0 <= i < j < |cs| ==> cs[i].0 < cs[j].0
  }

  function Ids(cs: Clusters): set<int>
  {
    if cs == [] then {} else {cs[0].0} + Ids(cs[1..])
  }

  /** Every id in `cs` is above `x`. */
  predicate Above(x: int, cs: Clusters)
  {
    forall i :: 0 <= i < |cs| ==> x < cs[i].0
  }

  lemma {:induction false} AboveNotIn(x: int, cs: Clusters)
    requires Above(x, cs)
    ensures x !in Ids(cs)
  {
    if cs != [] {
      assert Above(x, cs[1..]) by {
        assert forall i :: 0 <= i < |cs[1..]| ==> cs[1..][i] == cs[i + 1];
      }
      AboveNotIn(x, cs[1..]);
    }
  }

  /** The cluster stored under `id`, or a new one. */
  function Lookup(cs: Clusters, id: int): (c: Cluster)
    ensures id !in Ids(cs) ==> c == NewCluster
    ensures cs != [] && cs[0].0 == id ==> c == cs[0].1
  {
    if cs == [] then NewCluster
    else if cs[0].0 == id then cs[0].1
    else Lookup(cs[1..], id)
  }

  /** Storing `c` under `id`: the entry is replaced or inserted in id order. */
  function Put(cs: Clusters, id: int, c: Cluster): (r: Clusters)
    requires Sorted(cs)
    ensures Sorted(r)
    ensures Ids(r) == Ids(cs) + {id}
    ensures |r| == if id in Ids(cs) then |cs| else |cs| + 1
    ensures forall x :: Above(x, cs) && x < id ==> Above(x, r)
    ensures Lookup(r, id) == c
    ensures forall k :: k != id ==> Lookup(r, k) == Lookup(cs, k)
  {
    if cs == [] then [(id, c)]
    else if cs[0].0 == id then
      var r := [(id, c)] + cs[1..];
      assert r[1..] == cs[1..];
      r
    else if id < cs[0].0 then
      var r := [(id, c)] + cs;
      assert r[1..] == cs;
      AboveNotIn(id, cs);
      r
    else
      assert Sorted(cs[1..]);
      var rest := Put(cs[1..], id, c);
      var r := [cs[0]] + rest;
      assert r[1..] == rest;
      assert Above(cs[0].0, cs[1..]);
      assert Above(cs[0].0, rest);
      assert forall i :: 1 <= i < |r| ==> r[i] == rest[i - 1];
      r
  }

  /** The packet's times and size folded into its cluster. */
  function Aggregate(c: Cluster, p: PacketInfo): (r: Cluster)
    ensures r.firstSendMs == Min(c.firstSendMs, p.sendTimeMs) && r.lastSendMs == Max(c.lastSendMs, p.sendTimeMs)
    ensures r.firstReceiveMs == Min(c.firstReceiveMs, p.arrivalTimeMs) && r.lastReceiveMs == Max(c.lastReceiveMs, p.arrivalTimeMs)
    ensures r.sizeTotal == c.sizeTotal + PayloadSizeBits(p) && r.numProbes == c.numProbes + 1
    ensures r.sizeLastSend == (if p.sendTimeMs > c.lastSendMs then PayloadSizeBits(p) else c.sizeLastSend)
    ensures r.sizeFirstReceive == (if p.arrivalTimeMs < c.firstReceiveMs then PayloadSizeBits(p) else c.sizeFirstReceive)
  {
    var bits := PayloadSizeBits(p);
    var c1 := if p.sendTimeMs < c.firstSendMs then c.(firstSendMs := p.sendTimeMs) else c;
    var c2 := if p.sendTimeMs > c1.lastSendMs then c1.(lastSendMs := p.sendTimeMs, sizeLastSend := bits) else c1;
    var c3 := if p.arrivalTimeMs < c2.firstReceiveMs then c2.(firstReceiveMs := p.arrivalTimeMs, sizeFirstReceive := bits) else c2;
    var c4 := if p.arrivalTimeMs > c3.lastReceiveMs then c3.(lastReceiveMs := p.arrivalTimeMs) else c3;
    c4.(sizeTotal := c4.sizeTotal + bits, numProbes := c4.numProbes + 1)
  }

  /** `int payload_size_bits = payload_size * 8`. */
  function PayloadSizeBits(p: PacketInfo): (r: int)
    ensures -0x8000_0000 <= r < 0x8000_0000
    ensures -0x8000_0000 <= p.payloadSize * 8 < 0x8000_0000 ==> r == p.payloadSize * 8
  {
    ToInt32(p.payloadSize * 8)
  }

  /** `ratio > kValidRatio` for `ratio = receive_bps / send_bps` in IEEE arithmetic: a zero
      send rate gives an infinite ratio for a positive receive rate and NaN for zero. */
  predicate RatioTooHigh(sendBps: real, receiveBps: real)
  {
    if sendBps > 0.0 then receiveBps > ValidRatio * sendBps
    else if sendBps < 0.0 then receiveBps < ValidRatio * sendBps
    else receiveBps > 0.0
  }

  /** For a non-zero send rate the test is the ratio comparison itself. */
  lemma RatioTooHighIsRatio(sendBps: real, receiveBps: real)
    requires sendBps != 0.0
    ensures RatioTooHigh(sendBps, receiveBps) <==> receiveBps / sendBps > ValidRatio
  {
    assert receiveBps == receiveBps / sendBps * sendBps;
  }

  /** The rates of a cluster: the last sent packet does not count toward the send rate and
      the first received one not toward the receive rate. */
  function SendBps(c: Cluster): (r: real)
    requires c.lastSendMs != c.firstSendMs
    ensures r * (c.lastSendMs - c.firstSendMs) as real == (c.sizeTotal - c.sizeLastSend) as real * 1000.0
  {
    (c.sizeTotal - c.sizeLastSend) as real / (c.lastSendMs - c.firstSendMs) as real * 1000.0
  }

  function ReceiveBps(c: Cluster): (r: real)
    requires c.lastReceiveMs != c.firstReceiveMs
    ensures r * (c.lastReceiveMs - c.firstReceiveMs) as real == (c.sizeTotal - c.sizeFirstReceive) as real * 1000.0
  {
    (c.sizeTotal - c.sizeFirstReceive) as real / (c.lastReceiveMs - c.firstReceiveMs) as real * 1000.0
  }

  /** The estimate an updated cluster gives, if any: none for too few probes, an empty
      send or receive interval, or too high a receive-to-send ratio. */
  function Evaluate(c: Cluster, arrivalTimeMs: int): (r: Option<ProbingResult>)
    ensures r.Some? <==> && c.numProbes >= MinNumProbesValidCluster
                         && c.lastSendMs != c.firstSendMs && c.lastReceiveMs != c.firstReceiveMs
                         && !RatioTooHigh(SendBps(c), ReceiveBps(c))
    ensures r.Some? ==> r.value.timestamp == arrivalTimeMs
    ensures r.Some? ==> r.value.bps == TruncToInt(MinRate(SendBps(c), ReceiveBps(c)))
    ensures r.Some? ==> r.value.bps as real <= MinRate(SendBps(c), ReceiveBps(c)) + 1.0
  {
    if c.numProbes < MinNumProbesValidCluster then None
    else if c.lastSendMs == c.firstSendMs || c.lastReceiveMs == c.firstReceiveMs then None
    else
      var sendBps := SendBps(c);
      var receiveBps := ReceiveBps(c);
      if RatioTooHigh(sendBps, receiveBps) then None
      else Some(ProbingResult(TruncToInt(if sendBps <= receiveBps then sendBps else receiveBps), arrivalTimeMs))
  }

  /** The smaller of two rates (`std::min`). */
  function MinRate(a: real, b: real): (r: real)
    ensures r <= a && r <= b && (r == a || r == b)
  {
    if a <= b then a else b
  }

  /** The estimator's state: the saved clusters and `last_valid_cluster_id_`. */
  datatype Estimator = Estimator(clusters: Clusters, lastValidClusterId: int)

  predicate Valid(e: Estimator)
  {
    Sorted(e.clusters) && |e.clusters| <= MaxNumSavedClusters
  }

  /** The clean-up loop, as written: the smallest ids are erased, which can be the cluster
      being fed. */
  function TrimOldest(cs: Clusters): (r: Clusters)
    ensures |r| == if |cs| > MaxNumSavedClusters then MaxNumSavedClusters else |cs|
    ensures r == cs[|cs| - |r|..]
  {
    if |cs| > MaxNumSavedClusters then TrimOldest(cs[1..]) else cs
  }

  /** The clean-up loop, corrected: the smallest ids other than `keep` are erased. */
  function TrimKeeping(cs: Clusters, keep: int): (r: Clusters)
    requires Sorted(cs)
    ensures Sorted(r)
    ensures |r| == if |cs| > MaxNumSavedClusters then MaxNumSavedClusters else |cs|
    ensures keep in Ids(cs) ==> keep in Ids(r) && Lookup(r, keep) == Lookup(cs, keep)
    ensures Ids(r) <= Ids(cs)
    decreases |cs|
  {
    if |cs| <= MaxNumSavedClusters then cs
    else if cs[0].0 != keep then
      assert Sorted(cs[1..]);
      TrimKeeping(cs[1..], keep)
    else
      var rest := [cs[0]] + cs[2..];
      assert forall i :: 1 <= i < |rest| ==> rest[i] == cs[i + 1];
      assert rest[1..] == cs[1..][1..];
      TrimKeeping(rest, keep)
  }

  /** `PacketFeedback`, with the clean-up corrected: the new state and the result. */
  function Feedback(e: Estimator, p: PacketInfo): (r: (Estimator, ProbingResult))
    requires Valid(e)
    ensures Valid(r.0)
  {
    var id := p.probeClusterId;
    if id == NotAProbe || id < e.lastValidClusterId then (e, NoResult)
    else
      var c := Aggregate(Lookup(e.clusters, id), p);
      var cs := Stored(e.clusters, id, c);
      var estimate := Evaluate(c, p.arrivalTimeMs);
      if estimate.None? then (Estimator(cs, e.lastValidClusterId), NoResult)
      else (Estimator(cs, id), estimate.value)
  }

  /** The saved clusters after `c` is stored under `id`: the entry is created, the clean-up
      erases the oldest other clusters, and the updated cluster is written back. */
  function Stored(cs: Clusters, id: int, c: Cluster): (r: Clusters)
    requires Sorted(cs) && |cs| <= MaxNumSavedClusters
    ensures Sorted(r) && |r| <= MaxNumSavedClusters
    ensures Lookup(r, id) == c && id in Ids(r)
  {
    Put(TrimKeeping(Put(cs, id, Lookup(cs, id)), id), id, c)
  }

  /** Feedback that is not for a probe, or for a cluster older than the last valid one,
      gives no estimate and changes nothing. */
  lemma IgnoredFeedback(e: Estimator, p: PacketInfo)
    requires Valid(e)
    requires p.probeClusterId == NotAProbe || p.probeClusterId < e.lastValidClusterId
    ensures Feedback(e, p) == (e, NoResult)
  {
  }

  /** Each probe of a cluster adds its size to the cluster and one to its count. */
  lemma FeedbackAggregates(e: Estimator, p: PacketInfo)
    requires Valid(e)
    requires p.probeClusterId != NotAProbe && p.probeClusterId >= e.lastValidClusterId
    ensures var after := Lookup(Feedback(e, p).0.clusters, p.probeClusterId);
      && after.numProbes == Lookup(e.clusters, p.probeClusterId).numProbes + 1
      && after.sizeTotal == Lookup(e.clusters, p.probeClusterId).sizeTotal + PayloadSizeBits(p)
  {
  }

  /** A valid estimate comes from the fed cluster, carries the arrival time, and moves
      `last_valid_cluster_id_` up to that cluster; without one it stays put. */
  lemma EstimateMovesLastValidCluster(e: Estimator, p: PacketInfo)
    requires Valid(e)
    ensures var (e2, result) := Feedback(e, p);
      && e2.lastValidClusterId >= e.lastValidClusterId
      && (e2.lastValidClusterId != e.lastValidClusterId ==> e2.lastValidClusterId == p.probeClusterId)
      && (result != NoResult ==> result.timestamp == p.arrivalTimeMs && e2.lastValidClusterId == p.probeClusterId)
  {
  }

  /** A cluster with fewer than four probes gives no estimate. */
  lemma TooFewProbesNoEstimate(e: Estimator, p: PacketInfo)
    requires Valid(e)
    requires Lookup(e.clusters, p.probeClusterId).numProbes + 1 < MinNumProbesValidCluster
    ensures Feedback(e, p).1 == NoResult
  {
  }

  /** `PacketFeedback` as written: the pointer to the cluster is taken before the clean-up,
      and the clean-up may erase that very cluster, so its update is not kept. */
  function FeedbackAsWritten(e: Estimator, p: PacketInfo): (r: Estimator)
    requires Valid(e)
    ensures Valid(r) && r.lastValidClusterId == e.lastValidClusterId
    ensures p.probeClusterId == NotAProbe || p.probeClusterId < e.lastValidClusterId ==> r == e
    ensures p.probeClusterId in Ids(r.clusters) && p.probeClusterId != NotAProbe && p.probeClusterId >= e.lastValidClusterId ==>
      Lookup(r.clusters, p.probeClusterId) == Aggregate(Lookup(e.clusters, p.probeClusterId), p)
  {
    var id := p.probeClusterId;
    if id == NotAProbe || id < e.lastValidClusterId then e
    else
      var cs1 := Put(e.clusters, id, Lookup(e.clusters, id));
      var cs2 := TrimOldest(cs1);
      var c := Aggregate(Lookup(e.clusters, id), p);
      if id in Ids(cs2) then Estimator(Put(cs2, id, c), e.lastValidClusterId)
      else Estimator(cs2, e.lastValidClusterId)
  }

  /** Five saved clusters 1..5 and a late probe of cluster 0: as written, cluster 0 is
      created, erased by the clean-up and its probe lost; corrected, cluster 1 is erased
      and cluster 0 keeps its probe. */
  lemma CleanupErasesFedCluster()
    ensures var cs := [(1, NewCluster), (2, NewCluster), (3, NewCluster), (4, NewCluster), (5, NewCluster)];
      var e := Estimator(cs, 0);
      var p := PacketInfo(0, 100, 10, 20);
      && 0 !in Ids(FeedbackAsWritten(e, p).clusters)
      && 0 in Ids(Feedback(e, p).0.clusters)
      && Lookup(Feedback(e, p).0.clusters, 0).numProbes == 1
  {
    var cs := [(1, NewCluster), (2, NewCluster), (3, NewCluster), (4, NewCluster), (5, NewCluster)];
    var e := Estimator(cs, 0);
    var p := PacketInfo(0, 100, 10, 20);
    var cs1 := Put(cs, 0, NewCluster);
    assert cs1 == [(0, NewCluster)] + cs;
    assert TrimOldest(cs1) == cs;
    AboveNotIn(0, cs);
  }

  class ProbeEstimator {
    var clusters: Clusters
    var lastValidClusterId: int

    function Snapshot(): Estimator
      reads this
    {
      Estimator(clusters, lastValidClusterId)
    }

    constructor()
      ensures Snapshot() == Estimator([], 0) && Valid(Snapshot())
    {
      clusters := [];
      lastValidClusterId := 0;
    }

    /** The corrected clean-up loop of `PacketFeedback`: the oldest clusters other than
        `id` are erased until at most `MaxNumSavedClusters` remain. */
    method EraseOldClusters(id: int)
      requires Sorted(clusters)
      modifies this`clusters
      ensures clusters == TrimKeeping(old(clusters), id)
    {
      while |clusters| > MaxNumSavedClusters
        invariant Sorted(clusters)
        invariant TrimKeeping(clusters, id) == TrimKeeping(old(clusters), id)
        decreases |clusters|
      {
        if clusters[0].0 != id {
          assert Sorted(clusters[1..]);
          clusters := clusters[1..];
        } else {
          var rest := [clusters[0]] + clusters[2..];
          assert forall i :: 1 <= i < |rest| ==> rest[i] == clusters[i + 1];
          assert rest[1..] == clusters[1..][1..];
          clusters := rest;
        }
      }
    }

    /** `PacketFeedback`, with the corrected clean-up. */
    method PacketFeedback(p: PacketInfo) returns (result: ProbingResult)
      requires Valid(Snapshot())
      modifies this
      ensures (Snapshot(), result) == Feedback(old(Snapshot()), p)
      ensures Valid(Snapshot())
    {
      var id := p.probeClusterId;
      if id == NotAProbe || id < lastValidClusterId {
        return NoResult;
      }
      var payloadSizeBits := ToInt32(p.payloadSize * 8);
      var cluster := Lookup(clusters, id);
      ghost var aggregated := Aggregate(cluster, p);
      ghost var stored := Stored(clusters, id, aggregated);
      clusters := Put(clusters, id, cluster);
      EraseOldClusters(id);
      if p.sendTimeMs < cluster.firstSendMs {
        cluster := cluster.(firstSendMs := p.sendTimeMs);
      }
      if p.sendTimeMs > cluster.lastSendMs {
        cluster := cluster.(lastSendMs := p.sendTimeMs, sizeLastSend := payloadSizeBits);
      }
      if p.arrivalTimeMs < cluster.firstReceiveMs {
        cluster := cluster.(firstReceiveMs := p.arrivalTimeMs, sizeFirstReceive := payloadSizeBits);
      }
      if p.arrivalTimeMs > cluster.lastReceiveMs {
        cluster := cluster.(lastReceiveMs := p.arrivalTimeMs);
      }
      cluster := cluster.(sizeTotal := cluster.sizeTotal + payloadSizeBits, numProbes := cluster.numProbes + 1);
      assert cluster == aggregated;
      clusters := Put(clusters, id, cluster);
      assert clusters == stored;

      if cluster.numProbes < MinNumProbesValidCluster {
        return NoResult;
      }
      var sendIntervalMs := (cluster.lastSendMs - cluster.firstSendMs) as real;
      var receiveIntervalMs := (cluster.lastReceiveMs - cluster.firstReceiveMs) as real;
      if sendIntervalMs == 0.0 || receiveIntervalMs == 0.0 {
        return NoResult;
      }
      var sendBps := SendBps(cluster);
      var receiveBps := ReceiveBps(cluster);
      if RatioTooHigh(sendBps, receiveBps) {
        return NoResult;
      }
      var resultBps := TruncToInt(if sendBps <= receiveBps then sendBps else receiveBps);
      lastValidClusterId := id;
      result := ProbingResult(resultBps, p.arrivalTimeMs);
    }
  }
}
