/**
  What every observation built by the rule has, whatever was observed (internal/monitor/monitor.go and collector.go).
*/
module Observations {
  import opened Wrappers
  import opened Decimal
  import opened MonitorTypes
  import opened DomainRule
  import Shmem

  /** The metric every ready domain publishes: hami_vgpu_memory_used_bytes. */
  const USED := 2

  /** The domains whose used-bytes sample is in the list, in its order. */
  function UsedDomains(samples: seq<Sample>): seq<nat> {
    if samples == [] then []
    else
      var s := samples[|samples| - 1];
      UsedDomains(samples[..|samples| - 1]) + if s.desc == USED && s.domain.Some? then [s.domain.value] else []
  }

  lemma FrontOfSum(a: seq<Sample>, b: seq<Sample>)
    requires b != []
    ensures (a + b)[..|a + b| - 1] == a + b[..|b| - 1] && (a + b)[|a + b| - 1] == b[|b| - 1]
  {
  }

  lemma {:induction false} UsedOfSum(a: seq<Sample>, b: seq<Sample>)
    ensures UsedDomains(a + b) == UsedDomains(a) + UsedDomains(b)
  {
    if b == [] {
      assert a + b == a;
    } else {
      var front := b[..|b| - 1];
      UsedOfSum(a, front);
      FrontOfSum(a, b);
    }
  }

  function ReadyDomains(domains: seq<DomainObs>): seq<nat> {
    if domains == [] then []
    else
      var n := |domains| - 1;
      ReadyDomains(domains[..n]) + if domains[n].state == Ready then [n] else []
  }

  /** The observation has a domain of this claim. */
  predicate Observes(o: Observation, uid: string) {
    exists p :: 0 <= p < |o.domains| && o.domains[p].claimUID == uid
  }

  // ---- Well-formed observations ----

  /** A container sample points to a ready domain; all but utilization are as old as the observation. */
  predicate SampleFits(o: Observation, s: Sample) {
    s.desc < 8
    && match s.domain
       case None => s.desc < USED
       case Some(p) =>
         s.desc >= USED && p < |o.domains| && o.domains[p].state == Ready && (s.desc == USED ==> s.at == o.at)
  }

  predicate SameSeries(a: Sample, b: Sample) {
    a.desc == b.desc && a.labels == b.labels
  }

  /**
    The used-bytes samples are those of the ready domains, one each; every domain has a state; no two container
    samples share metric and labels.
  */
  ghost predicate Coherent(o: Observation) {
    UsedDomains(o.samples) == ReadyDomains(o.domains)
    && (forall k :: 0 <= k < |o.samples| ==> SampleFits(o, o.samples[k]))
    && (forall p :: 0 <= p < |o.domains| ==> o.domains[p].state != Unset)
    && SeriesDistinct(o.samples)
  }

  ghost predicate SeriesDistinct(samples: seq<Sample>) {
    forall a, b :: 0 <= a < b < |samples| && samples[a].desc >= USED ==> !SameSeries(samples[a], samples[b])
  }

  predicate HostSamples(host: seq<Sample>) {
    forall k :: 0 <= k < |host| ==> host[k].desc < USED && host[k].domain.None?
  }

  /** `o` is what one sampling round publishes in the world `w`, after the samples of the host devices. */
  ghost predicate ObservedFrom(o: Observation, w: World) {
    (exists host :: o.samples == host + SamplesUpTo(w, |w.domains|) && HostSamples(host))
    && o.domains == DomainsSeen(w) && o.at == Some(w.now)
    && (if "workload" in o.last then Some(o.last["workload"]) else None) == w.workloadAt
  }

  // ---- Facts about the rule ----

  /** A ready domain publishes its used bytes once; every other domain publishes nothing. */
  lemma OneUsedEach(w: World, i: nat)
    requires Kept(w, i)
    ensures UsedDomains(SamplesOf(w, i)) == if RuleState(w, i) == Ready then [Position(w, i)] else []
  {
    if RuleState(w, i) == Ready {
      OnlyFirstUsed(SamplesOf(w, i), Position(w, i));
    }
  }

  lemma OnlyFirstUsed(all: seq<Sample>, p: nat)
    requires all != [] && all[0].desc == USED && all[0].domain == Some(p)
    requires forall k :: 0 < k < |all| ==> all[k].desc != USED
    ensures UsedDomains(all) == [p]
  {
    var rest := all[1..];
    forall k | 0 <= k < |rest| ensures rest[k].desc != USED {
      assert rest[k] == all[k + 1];
    }
    NoneUsed(rest);
    OneUsed(all[0], p);
    UsedOfSum([all[0]], rest);
    assert all == [all[0]] + rest;
  }

  lemma OneUsed(s: Sample, p: nat)
    requires s.desc == USED && s.domain == Some(p)
    ensures UsedDomains([s]) == [p]
  {
    assert [s][..0] == [];
  }

  lemma {:induction false} NoneUsed(samples: seq<Sample>)
    requires forall k :: 0 <= k < |samples| ==> samples[k].desc == USED ==> samples[k].domain.None?
    ensures UsedDomains(samples) == []
  {
    if samples != [] {
      NoneUsed(samples[..|samples| - 1]);
    }
  }

  lemma UsedStep(w: World, n: nat)
    requires Kept(w, n)
    ensures UsedDomains(SamplesUpTo(w, n + 1))
            == UsedDomains(SamplesUpTo(w, n)) + if RuleState(w, n) == Ready then [Position(w, n)] else []
  {
    UsedOfSum(SamplesUpTo(w, n), SamplesOf(w, n));
    OneUsedEach(w, n);
  }

  /** The used-bytes samples and the ready domains name the same positions in the same order. */
  lemma {:induction false} UsedAreReady(w: World, n: nat)
    requires n <= |w.domains|
    ensures UsedDomains(SamplesUpTo(w, n)) == ReadyDomains(SeenUpTo(w, n))
  {
    if n > 0 {
      var m := n - 1;
      UsedAreReady(w, m);
      if Kept(w, m) {
        UsedStep(w, m);
      } else {
        NotKeptStep(w, m);
      }
    }
  }

  lemma NotKeptStep(w: World, n: nat)
    requires n < |w.domains| && !Kept(w, n)
    ensures SamplesUpTo(w, n + 1) == SamplesUpTo(w, n) && SeenUpTo(w, n + 1) == SeenUpTo(w, n)
  {
  }

  /** What a container metric reports of a domain whose memory was read; three of the metrics have no source. */
  predicate Reports(w: World, d: Domain, desc: nat, value: real) {
    ReadOf(w, d).Ok? && d.physicalID in w.hosts
    && match desc
       case 2 => value == ReadOf(w, d).value.used as real
       case 3 => value == ReadOf(w, d).value.limit as real
       case 4 => w.hosts[d.physicalID].utilValid && value == w.hosts[d.physicalID].utilization
       case _ => value == 0.0
  }

  /** Sample `s` is one of those the ready domain `i` publishes. */
  predicate From(w: World, i: nat, s: Sample) {
    i < |w.domains| && Kept(w, i) && RuleState(w, i) == Ready && Consumers(w, w.domains[i]) != []
    && s.labels == Labels(w, w.domains[i]) && s.domain == Some(Position(w, i))
    && USED <= s.desc < 8 && Reports(w, w.domains[i], s.desc, s.value)
    && s.at == if s.desc == 4 then w.hostAt else Some(w.now)
  }

  lemma SampleOfIsFrom(w: World, i: nat, s: Sample)
    requires Kept(w, i) && s in SamplesOf(w, i)
    ensures From(w, i, s)
  {
    var k :| 0 <= k < |SamplesOf(w, i)| && SamplesOf(w, i)[k] == s;
  }

  /** One domain has at most one sample of each metric. */
  lemma MetricsInOrder(w: World, i: nat, j: nat, k: nat)
    requires Kept(w, i) && j < k < |SamplesOf(w, i)|
    ensures SamplesOf(w, i)[j].desc < SamplesOf(w, i)[k].desc
  {
  }

  lemma SamplesStep(w: World, n: nat)
    requires n < |w.domains|
    ensures SamplesUpTo(w, n + 1) == SamplesUpTo(w, n) + if Kept(w, n) then SamplesOf(w, n) else []
  {
  }

  lemma SamplesOneMore(w: World, n: nat, s: Sample)
    requires n < |w.domains|
    ensures s in SamplesUpTo(w, n + 1) <==> s in SamplesUpTo(w, n) || (Kept(w, n) && s in SamplesOf(w, n))
  {
    SamplesStep(w, n);
  }

  /** Every container sample is published by some ready domain. */
  lemma {:induction false} SamplesAreFrom(w: World, n: nat, s: Sample) returns (i: nat)
    requires n <= |w.domains| && s in SamplesUpTo(w, n)
    ensures i < n && From(w, i, s)
  {
    SamplesOneMore(w, n - 1, s);
    if s in SamplesUpTo(w, n - 1) {
      i := SamplesAreFrom(w, n - 1, s);
    } else {
      i := n - 1;
      SampleOfIsFrom(w, i, s);
    }
  }

  lemma FromDiffer(w: World, i: nat, j: nat, a: Sample, b: Sample)
    requires From(w, i, a) && From(w, j, b) && i != j
    ensures !SameSeries(a, b)
  {
    ReadyLabelsDiffer(w, i, j);
  }

  lemma SumDistinct(a: seq<Sample>, b: seq<Sample>)
    requires SeriesDistinct(a) && SeriesDistinct(b)
    requires forall x, y :: x in a && y in b && x.desc >= USED ==> !SameSeries(x, y)
    ensures SeriesDistinct(a + b)
  {
  }

  lemma ReadyDistinct(w: World, i: nat)
    requires Kept(w, i)
    ensures SeriesDistinct(SamplesOf(w, i))
  {
    var s := SamplesOf(w, i);
    forall a, b | 0 <= a < b < |s| ensures !SameSeries(s[a], s[b]) {
      MetricsInOrder(w, i, a, b);
    }
  }

  lemma LaterDiffer(w: World, n: nat)
    requires Kept(w, n)
    ensures forall x, y :: x in SamplesUpTo(w, n) && y in SamplesOf(w, n) ==> !SameSeries(x, y)
  {
    forall x, y | x in SamplesUpTo(w, n) && y in SamplesOf(w, n) ensures !SameSeries(x, y) {
      var i := SamplesAreFrom(w, n, x);
      SampleOfIsFrom(w, n, y);
      FromDiffer(w, i, n, x, y);
    }
  }

  /** No two container samples share metric and labels. */
  lemma {:induction false} SamplesDistinct(w: World, n: nat)
    requires n <= |w.domains|
    ensures SeriesDistinct(SamplesUpTo(w, n))
  {
    if n > 0 {
      SamplesDistinct(w, n - 1);
      if Kept(w, n - 1) {
        MoreSamplesDistinct(w, n - 1);
      } else {
        NotKeptStep(w, n - 1);
      }
    }
  }

  lemma MoreSamplesDistinct(w: World, n: nat)
    requires Kept(w, n) && SeriesDistinct(SamplesUpTo(w, n))
    ensures SeriesDistinct(SamplesUpTo(w, n + 1))
  {
    ReadyDistinct(w, n);
    LaterDiffer(w, n);
    SumDistinct(SamplesUpTo(w, n), SamplesOf(w, n));
    SamplesStep(w, n);
  }

  /** An observed domain sits at its position with its state and its claim's token. */
  lemma {:induction false} SeenAt(w: World, n: nat, i: nat)
    requires i < n <= |w.domains| && Kept(w, i)
    ensures Position(w, i) < |SeenUpTo(w, n)|
    ensures SeenUpTo(w, n)[Position(w, i)] == ObsOf(w.domains[i], RuleState(w, i))
  {
    if i < n - 1 {
      SeenAt(w, n - 1, i);
    }
  }

  /** Every entry is the observation of some domain of the snapshot. */
  lemma {:induction false} SeenFrom(w: World, n: nat, p: nat) returns (i: nat)
    requires n <= |w.domains| && p < |SeenUpTo(w, n)|
    ensures i < n && Kept(w, i) && Position(w, i) == p && SeenUpTo(w, n)[p] == ObsOf(w.domains[i], RuleState(w, i))
  {
    if p < |SeenUpTo(w, n - 1)| {
      i := SeenFrom(w, n - 1, p);
    } else {
      i := n - 1;
    }
  }

  /** The domains observed are the kept ones of the snapshot, each with its claim's token and the state it deserves. */
  ghost predicate ObservesAll(w: World, domains: seq<DomainObs>) {
    (forall i {:trigger Kept(w, i)} :: Kept(w, i) ==>
       Position(w, i) < |domains| && ObservedAs(w, i, domains[Position(w, i)]))
    && forall p :: 0 <= p < |domains| ==> StandsFor(w, p, domains[p])
  }

  predicate StandsFor(w: World, p: nat, o: DomainObs) {
    exists i :: 0 <= i < |w.domains| && Kept(w, i) && Position(w, i) == p && ObservedAs(w, i, o)
  }

  predicate ObservedAs(w: World, i: nat, o: DomainObs)
    requires i < |w.domains|
  {
    o.claimUID == w.domains[i].claimUID && o.generation == w.domains[i].generation && Deserves(w, i, o.state)
  }

  lemma AllAreObserved(w: World)
    ensures ObservesAll(w, DomainsSeen(w))
  {
    forall i | Kept(w, i)
      ensures Position(w, i) < |DomainsSeen(w)| && ObservedAs(w, i, DomainsSeen(w)[Position(w, i)])
    {
      SeenAt(w, |w.domains|, i);
      StateIff(w, i, RuleState(w, i));
    }
    forall p | 0 <= p < |DomainsSeen(w)| ensures StandsFor(w, p, DomainsSeen(w)[p]) {
      var i := SeenFrom(w, |w.domains|, p);
      assert ObservedAs(w, i, DomainsSeen(w)[p]);
    }
  }

  // ---- What a ready domain publishes ----

  /** Metric `desc` of the ready domain `i` is among the samples, with its value, labels and age. */
  ghost predicate Publishes(w: World, samples: seq<Sample>, i: nat, desc: nat) {
    exists s :: s in samples && s.desc == desc && MetricOf(w, i, s)
  }

  /** What a container metric of domain `i` says: labels of its consumer and card, value and age of its source. */
  predicate MetricOf(w: World, i: nat, s: Sample) {
    && i < |w.domains| && Observable(w, w.domains[i]) && ReadOf(w, w.domains[i]).Ok?
    && var d, stats := w.domains[i], ReadOf(w, w.domains[i]).value;
       var c, h := w.workloads[d.claimUID][0], w.hosts[d.physicalID];
       && s.labels == [c.namespace, c.pod, c.container, Itoa(d.physicalID), d.uuid] && s.domain == Some(Position(w, i))
       && match s.desc
          case 2 => s.value == stats.used as real && s.at == Some(w.now)
          case 3 => s.value == stats.limit as real && s.at == Some(w.now)
          case 4 => h.utilValid && s.value == h.utilization && s.at == w.hostAt
          case _ => s.value == 0.0 && s.at == Some(w.now)
  }

  /**
    Every ready domain publishes all six metrics, utilization exactly when the host reading is valid, and no other
    domain publishes any.
  */
  ghost predicate PublishesAll(w: World, samples: seq<Sample>) {
    (forall i, desc: nat {:trigger Publishes(w, samples, i, desc)} :: Kept(w, i) && 2 <= desc < 8 ==>
       (Publishes(w, samples, i, desc) <==> Deserves(w, i, Ready) && (desc == 4 ==> HostIsValid(w, i))))
    && forall s :: s in samples ==> IsMetric(w, s)
  }

  predicate HostIsValid(w: World, i: nat) {
    i < |w.domains| && w.domains[i].physicalID in w.hosts && w.hosts[w.domains[i].physicalID].utilValid
  }

  /** The sample is one of the six container metrics of some domain. */
  predicate IsMetric(w: World, s: Sample) {
    2 <= s.desc < 8 && exists i :: 0 <= i < |w.domains| && Kept(w, i) && MetricOf(w, i, s)
  }

  lemma SamplesStay(w: World, m: nat, n: nat, s: Sample)
    requires m <= n <= |w.domains| && s in SamplesUpTo(w, m)
    ensures s in SamplesUpTo(w, n)
  {
    for k := m to n
      invariant s in SamplesUpTo(w, k)
    {
      SamplesOneMore(w, k, s);
    }
  }

  lemma SamplesInclude(w: World, i: nat, s: Sample)
    requires Kept(w, i) && s in SamplesOf(w, i)
    ensures s in SamplesUpTo(w, |w.domains|)
  {
    SamplesOneMore(w, i, s);
    SamplesStay(w, i + 1, |w.domains|, s);
  }

  /** The six samples of a ready domain, one by one. */
  lemma HasMetric(w: World, i: nat, desc: nat) returns (s: Sample)
    requires Kept(w, i) && RuleState(w, i) == Ready && 2 <= desc < 8
    requires desc == 4 ==> HostIsValid(w, i)
    ensures s in SamplesOf(w, i) && s.desc == desc
  {
    var all := SamplesOf(w, i);
    var skipped := if HostIsValid(w, i) then 0 else 1;
    s := all[if desc <= 4 then desc - 2 else desc - 2 - skipped];
  }

  lemma FromIsMetric(w: World, i: nat, s: Sample)
    requires From(w, i, s)
    ensures MetricOf(w, i, s) && Deserves(w, i, Ready)
  {
    StateIff(w, i, Ready);
  }

  lemma AllArePublished(w: World)
    ensures PublishesAll(w, SamplesUpTo(w, |w.domains|))
  {
    var samples := SamplesUpTo(w, |w.domains|);
    forall i, desc: nat | Kept(w, i) && 2 <= desc < 8
      ensures Publishes(w, samples, i, desc) <==> Deserves(w, i, Ready) && (desc == 4 ==> HostIsValid(w, i))
    {
      OneIsPublished(w, i, desc);
    }
    forall s | s in samples ensures IsMetric(w, s) {
      SampleIsMetric(w, s);
    }
  }

  lemma SampleIsMetric(w: World, s: Sample)
    requires s in SamplesUpTo(w, |w.domains|)
    ensures IsMetric(w, s)
  {
    var i := SamplesAreFrom(w, |w.domains|, s);
    FromIsMetric(w, i, s);
  }

  lemma OneIsPublished(w: World, i: nat, desc: nat)
    requires Kept(w, i) && 2 <= desc < 8
    ensures Publishes(w, SamplesUpTo(w, |w.domains|), i, desc) <==>
            Deserves(w, i, Ready) && (desc == 4 ==> HostIsValid(w, i))
  {
    if Publishes(w, SamplesUpTo(w, |w.domains|), i, desc) {
      var s :| s in SamplesUpTo(w, |w.domains|) && s.desc == desc && MetricOf(w, i, s);
      PublisherIsReady(w, i, s);
    } else if Deserves(w, i, Ready) && (desc == 4 ==> HostIsValid(w, i)) {
      ReadyPublishes(w, i, desc);
    }
  }

  lemma PublisherIsReady(w: World, i: nat, s: Sample)
    requires Kept(w, i) && s in SamplesUpTo(w, |w.domains|) && MetricOf(w, i, s)
    ensures Deserves(w, i, Ready)
  {
    var j := SamplesAreFrom(w, |w.domains|, s);
    if i < j {
      PositionGrows(w, i, j);
    } else if j < i {
      PositionGrows(w, j, i);
    }
    StateIff(w, i, Ready);
  }

  lemma ReadyPublishes(w: World, i: nat, desc: nat)
    requires Kept(w, i) && 2 <= desc < 8 && Deserves(w, i, Ready)
    requires desc == 4 ==> HostIsValid(w, i)
    ensures Publishes(w, SamplesUpTo(w, |w.domains|), i, desc)
  {
    StateIff(w, i, Ready);
    var s := HasMetric(w, i, desc);
    SampleOfIsFrom(w, i, s);
    FromIsMetric(w, i, s);
    SamplesInclude(w, i, s);
  }

  /** A kept domain takes its position before every later one. */
  lemma {:induction false} PositionGrows(w: World, i: nat, j: nat)
    requires Kept(w, i) && i < j <= |w.domains|
    ensures Position(w, i) < Position(w, j)
  {
    if i + 1 < j {
      PositionGrows(w, i, j - 1);
    }
  }

  lemma SamplesFit(o: Observation, w: World, host: seq<Sample>)
    requires o.samples == host + SamplesUpTo(w, |w.domains|) && HostSamples(host)
    requires o.domains == DomainsSeen(w) && o.at == Some(w.now)
    ensures forall k :: 0 <= k < |o.samples| ==> SampleFits(o, o.samples[k])
  {
    forall k | 0 <= k < |o.samples| ensures SampleFits(o, o.samples[k]) {
      if k < |host| {
        assert o.samples[k] == host[k];
      } else {
        assert o.samples[k] in SamplesUpTo(w, |w.domains|);
        var i := SamplesAreFrom(w, |w.domains|, o.samples[k]);
        SeenAt(w, |w.domains|, i);
      }
    }
  }

  lemma StatesAreSet(w: World)
    ensures forall p :: 0 <= p < |DomainsSeen(w)| ==> DomainsSeen(w)[p].state != Unset
  {
    forall p | 0 <= p < |DomainsSeen(w)| ensures DomainsSeen(w)[p].state != Unset {
      var i := SeenFrom(w, |w.domains|, p);
      RuleStateIsSet(w, i);
    }
  }

  /** What a sampling round publishes is coherent. */
  lemma ObservedIsCoherent(o: Observation, w: World)
    requires ObservedFrom(o, w)
    ensures Coherent(o)
  {
    var samples := SamplesUpTo(w, |w.domains|);
    var host :| o.samples == host + samples && HostSamples(host);
    NoneUsed(host);
    UsedOfSum(host, samples);
    UsedAreReady(w, |w.domains|);
    SamplesDistinct(w, |w.domains|);
    SumDistinct(host, samples);
    SamplesFit(o, w, host);
    StatesAreSet(w);
  }

  /**
    A container sample is labelled with the one consumer that the last resolve gave for its claim, of a domain of
    the snapshot that referred to the device, while that resolve was fresh.
  */
  lemma SampleIsOwned(o: Observation, w: World, s: Sample) returns (i: nat)
    requires ObservedFrom(o, w) && s in o.samples && s.desc >= USED
    ensures From(w, i, s) && s.domain.Some? && s.domain.value < |o.domains|
    ensures o.domains[s.domain.value] == ObsOf(w.domains[i], Ready)
    ensures Within(w.now, w.workloadAt, w.maxAge) && w.domains[i].claimUID in w.workloads
    ensures OneConsumer(w.workloads[w.domains[i].claimUID])
    ensures Refers(w.workloads[w.domains[i].claimUID], DeviceRef(w.domains[i].pool, w.domains[i].device))
  {
    var host :| o.samples == host + SamplesUpTo(w, |w.domains|) && HostSamples(host);
    assert s in SamplesUpTo(w, |w.domains|);
    i := SamplesAreFrom(w, |w.domains|, s);
    SeenAt(w, |w.domains|, i);
    ReadyIff(w, i);
  }

  /** The used bytes a domain exports are the exact sum over the live slots of one whole read of its file. */
  lemma UsedBytesAreTheSum(w: World, views: map<string, Shmem.FileView>, i: nat, s: Sample)
    returns (data: seq<Shmem.byte>)
    requires From(w, i, s) && s.desc == USED
    requires forall path :: path in w.files ==> path in views && Shmem.ValidView(views[path])
    requires forall path :: path in w.files && w.files[path].Ok? ==> Shmem.Gives(views[path], w.files[path].value)
    ensures var f := views[DomainPath(w.root, w.domains[i])];
            f.Regular? && Some(data) in f.chunks && Shmem.Long(data)
              && s.value == Shmem.Usage(data, Shmem.PROCESS_COUNT) as real
  {
    var path := DomainPath(w.root, w.domains[i]);
    var f, stats := views[path], w.files[path].value;
    data := if Shmem.PairGives(f, 0, stats) then f.chunks[0].value else f.chunks[2].value;
  }
}
