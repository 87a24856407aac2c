/**
  The whole metrics protocol as one step relation: lifecycle operations move tokens, the sampler takes a snapshot
  and publishes an observation of it later, and scrapes copy the published observation and read one token at a time
  (cmd/ascend-dra-kubeletplugin/state.go and metrics.go, internal/monitor/monitor.go and collector.go).
*/
module ScrapeProtocol {
  import opened Wrappers
  import opened Decimal
  import opened MonitorTypes
  import opened DomainRule
  import opened Observations
  import opened ScrapeRule
  import opened ExportRule
  import opened SampleRuns
  import opened TokenProtocol
  import opened Collector

  // ---- States ----

  /** The world a round saw, and the successful resolves up to it. */
  datatype Origin = Origin(w: World, resolves: seq<Resolve>)

  /** A published observation: its snapshot was taken at position `snap` of the token history. */
  datatype Cached = Cached(o: Observation, snap: nat, origin: Option<Origin>)

  datatype Sampling = Sampling(snap: nat, domains: seq<Domain>)

  /**
    A scrape under way or finished: what it copied, where in the history it began, its clock, the tokens it read and
    where in the history.
  */
  datatype Reading = Reading(cached: Cached, from: nat, now: Time, memo: Memo, readAt: map<string, nat>)

  datatype System = System(
    hist: seq<Tokens>,
    resolves: seq<Resolve>,
    sampling: Option<Sampling>,
    cached: Cached,
    scrapes: map<nat, Reading>,
    finished: seq<Reading>)

  const EMPTY := Observation([], [], map[], map[], None)

  const INITIAL := System([START], [], None, Cached(EMPTY, 0, None), map[], [])

  // ---- Steps ----

  datatype Event =
    | Lifecycle(tokens: Tokens)
    | Resolves(resolve: Resolve)
    | Snapshot(domains: seq<Domain>)
    | Publish(o: Observation, w: World)
    | PublishWithoutSnapshot(o: Observation, w: World)
    | ScrapeStart(id: nat, now: Time)
    | ScrapeRead(id: nat, uid: string, at: nat)
    | ScrapeFinish(id: nat)

  predicate AllRead(r: Reading) {
    forall p :: 0 <= p < |r.cached.o.domains| ==> r.cached.o.domains[p].claimUID in r.memo
  }

  ghost predicate Sampled(s: System, o: Observation, w: World) {
    ObservedFrom(o, w) && LastResolve(s.resolves, w.workloads, w.workloadAt)
  }

  ghost predicate Enabled(s: System, e: Event)
    requires s.hist != []
  {
    match e
    case Lifecycle(tokens) => Next(Now(s.hist), tokens)
    case Resolves(_) => true
    case Snapshot(domains) => s.sampling.None? && Snapped(Now(s.hist), domains)
    case Publish(o, w) => s.sampling.Some? && w.domains == s.sampling.value.domains && Sampled(s, o, w)
    case PublishWithoutSnapshot(o, w) => s.sampling.None? && w.domains == [] && Sampled(s, o, w)
    case ScrapeStart(id, now) => id !in s.scrapes
    case ScrapeRead(id, uid, at) => id in s.scrapes && CanRead(s.scrapes[id], s.hist, uid, at)
    case ScrapeFinish(id) => id in s.scrapes && AllRead(s.scrapes[id])
  }

  ghost function After(s: System, e: Event): System
    requires s.hist != [] && Enabled(s, e)
  {
    match e
    case Lifecycle(tokens) => s.(hist := s.hist + [tokens])
    case Resolves(resolve) => s.(resolves := s.resolves + [resolve])
    case Snapshot(domains) => s.(sampling := Some(Sampling(|s.hist| - 1, domains)))
    case Publish(o, w) => s.(cached := Cached(o, s.sampling.value.snap, Some(Origin(w, s.resolves))), sampling := None)
    case PublishWithoutSnapshot(o, w) => s.(cached := Cached(o, |s.hist| - 1, Some(Origin(w, s.resolves))))
    case ScrapeStart(id, now) => s.(scrapes := s.scrapes[id := Starts(s, now)])
    case ScrapeRead(id, uid, at) => s.(scrapes := s.scrapes[id := ReadOne(s.scrapes[id], s.hist, uid, at)])
    case ScrapeFinish(id) => s.(scrapes := s.scrapes - {id}, finished := s.finished + [s.scrapes[id]])
  }

  function Starts(s: System, now: Time): Reading
    requires s.hist != []
  {
    Reading(s.cached, |s.hist| - 1, now, map[], map[])
  }

  /** A claim of the copied observation, not read yet, and a moment since the scrape began. */
  predicate CanRead(r: Reading, hist: seq<Tokens>, uid: string, at: nat) {
    uid !in r.memo && Observes(r.cached.o, uid) && r.from <= at < |hist|
  }

  /** One atomic load of one claim's token, at that moment. */
  function ReadOne(r: Reading, hist: seq<Tokens>, uid: string, at: nat): Reading
    requires at < |hist|
  {
    r.(memo := r.memo[uid := Read(hist[at], uid)], readAt := r.readAt[uid := at])
  }

  ghost predicate Takes(s: System, e: Event, s': System) {
    s.hist != [] && Enabled(s, e) && s' == After(s, e)
  }

  ghost predicate Step(s: System, s': System) {
    exists e :: Takes(s, e, s')
  }

  /** A run of the system from its start. */
  ghost predicate Behaviour(run: seq<System>) {
    run != [] && run[0] == INITIAL && forall k :: 0 <= k < |run| - 1 ==> Step(run[k], run[k + 1])
  }

  // ---- Invariant ----

  /** Every observed domain has the token its claim had when the snapshot was taken; the claim was prepared then. */
  ghost predicate Backed(hist: seq<Tokens>, c: Cached) {
    c.snap < |hist| && Coherent(c.o) && PointersValid(c.o)
    && forall p :: 0 <= p < |c.o.domains| ==> BackedDomain(hist[c.snap], c.o.domains[p])
  }

  predicate BackedDomain(t: Tokens, d: DomainObs) {
    t.swap.None? && Has(t.prepared, d.claimUID) && d.generation == Read(t, d.claimUID) && d.generation != 0
  }

  ghost predicate Owned(resolves: seq<Resolve>, c: Cached) {
    match c.origin
    case None => c.o == EMPTY
    case Some(origin) =>
      ObservedFrom(c.o, origin.w) && LastResolve(origin.resolves, origin.w.workloads, origin.w.workloadAt)
      && origin.resolves <= resolves
  }

  /** A scrape reads every token after its snapshot, and records what the history held. */
  ghost predicate Faithful(hist: seq<Tokens>, resolves: seq<Resolve>, r: Reading) {
    Run(hist) && Backed(hist, r.cached) && Owned(resolves, r.cached)
      && r.cached.snap <= r.from < |hist| && ReadSince(hist, r.from, r.cached.o, r.memo, r.readAt)
  }

  ghost predicate SamplingInv(s: System) {
    s.sampling.Some? ==>
      s.sampling.value.snap < |s.hist|
      && Snapped(s.hist[s.sampling.value.snap], s.sampling.value.domains)
  }

  ghost predicate Inv(s: System) {
    && Run(s.hist) && SamplingInv(s) && Backed(s.hist, s.cached) && Owned(s.resolves, s.cached)
    && (forall id :: id in s.scrapes ==> Faithful(s.hist, s.resolves, s.scrapes[id]))
    && (forall k :: 0 <= k < |s.finished| ==> Faithful(s.hist, s.resolves, s.finished[k]) && AllRead(s.finished[k]))
  }

  /** The invariant holds in every state of every run. */
  lemma {:induction false} RunKeeps(run: seq<System>, k: nat)
    requires Behaviour(run) && k < |run|
    ensures Inv(run[k])
  {
    if k == 0 {
      assert Coherent(EMPTY);
    } else {
      RunKeeps(run, k - 1);
      assert Step(run[k - 1], run[k]);
      var e :| Takes(run[k - 1], e, run[k]);
      StepKeeps(run[k - 1], e);
    }
  }

  /** An observation of a snapshot carries the snapshot's tokens, however late it is published. */
  lemma PublishIsBacked(hist: seq<Tokens>, snap: nat, o: Observation, w: World, origin: Option<Origin>)
    requires snap < |hist| && ObservedFrom(o, w)
    requires Snapped(hist[snap], w.domains)
    ensures Backed(hist, Cached(o, snap, origin))
  {
    ObservedIsCoherent(o, w);
    CoherentPointers(o);
    forall p | 0 <= p < |o.domains| ensures BackedDomain(hist[snap], o.domains[p]) {
      var i := SeenFrom(w, |w.domains|, p);
      assert w.domains[i] in w.domains;
    }
  }

  // ---- What every scrape shows ----

  function ScrapeOf(r: Reading, maxAge: Time): Scrape {
    Scrape(r.cached.o, r.now, maxAge, r.memo)
  }

  /**
    A claim's container sample has its series exactly when it and the ownership are young enough and the claim stayed
    in one unbroken prepared lifetime from the snapshot to the scrape's own read of its token. What other claims do in
    between changes nothing, and a claim prepared again never shows an old sample.
  */
  lemma ShownIffUnbroken(hist: seq<Tokens>, resolves: seq<Resolve>, r: Reading, maxAge: Time, k: nat)
    requires Faithful(hist, resolves, r) && AllRead(r) && k < |r.cached.o.samples|
    requires r.cached.o.samples[k].domain.Some?
    ensures var o, s := r.cached.o, r.cached.o.samples[k];
            var d := o.domains[s.domain.value];
            SeriesOf(s) in Output(ScrapeOf(r, maxAge)) <==>
              && s.at.Some? && r.now - s.at.value <= maxAge
              && "workload" in o.last && r.now - o.last["workload"] <= maxAge
              && Unbroken(hist, r.cached.snap, r.readAt[d.claimUID], d.claimUID, d.generation)
  {
    SampleShown(hist, resolves, r, maxAge, k);
    ContainerSeriesIff(ScrapeOf(r, maxAge), k);
  }

  /** A container series stands for one sample only, as no two share metric and labels. */
  lemma ContainerSeriesIff(x: Scrape, k: nat)
    requires Coherent(x.o) && PointersValid(x.o) && k < |x.o.samples| && x.o.samples[k].domain.Some?
    ensures SeriesOf(x.o.samples[k]) in Output(x) <==> Shown(x, k)
  {
    assert SampleFits(x.o, x.o.samples[k]);
    if SeriesOf(x.o.samples[k]) in Output(x) {
      var i := ShownSample(x, SeriesOf(x.o.samples[k]));
      SampleOfSeries(x.o, i, k);
    }
    if Shown(x, k) {
      ShownHasSeries(x, |x.o.samples|, k);
    }
  }

  lemma SampleOfSeries(o: Observation, i: nat, k: nat)
    requires Coherent(o) && i < |o.samples| && k < |o.samples| && o.samples[k].desc >= USED
    requires SameSeries(o.samples[i], o.samples[k])
    ensures i == k
  {
  }

  lemma SampleShown(hist: seq<Tokens>, resolves: seq<Resolve>, r: Reading, maxAge: Time, k: nat)
    requires Faithful(hist, resolves, r) && AllRead(r) && k < |r.cached.o.samples|
    requires r.cached.o.samples[k].domain.Some?
    ensures var x := ScrapeOf(r, maxAge);
            var d := r.cached.o.domains[r.cached.o.samples[k].domain.value];
            Shown(x, k) <==>
              Young(x, r.cached.o.samples[k].at) && WorkloadFresh(x)
              && Unbroken(hist, r.cached.snap, r.readAt[d.claimUID], d.claimUID, d.generation)
  {
    var d := r.cached.o.domains[r.cached.o.samples[k].domain.value];
    assert BackedDomain(hist[r.cached.snap], d);
    var at := r.readAt[d.claimUID];
    assert ReadAt(hist, r.from, r.cached.o, d.claimUID, r.memo[d.claimUID], at);
    if Read(hist[at], d.claimUID) == d.generation {
      SameTokenIsUnbroken(hist, r.cached.snap, at, d.claimUID, d.generation);
    }
  }

  /** Once a claim lost its token after the snapshot, no later read shows its samples again, prepared anew or not. */
  lemma GoneStaysHidden(hist: seq<Tokens>, resolves: seq<Resolve>, r: Reading, maxAge: Time, k: nat, j: nat)
    requires Faithful(hist, resolves, r) && AllRead(r) && k < |r.cached.o.samples|
    requires r.cached.o.samples[k].domain.Some?
    requires j < |hist|
    requires var uid := r.cached.o.domains[r.cached.o.samples[k].domain.value].claimUID;
             r.cached.snap <= j <= r.readAt[uid] && uid !in hist[j].table
    ensures SeriesOf(r.cached.o.samples[k]) !in Output(ScrapeOf(r, maxAge))
  {
    ShownIffUnbroken(hist, resolves, r, maxAge, k);
    var d := r.cached.o.domains[r.cached.o.samples[k].domain.value];
    assert BackedDomain(hist[r.cached.snap], d);
    assert Read(hist[j], d.claimUID) != d.generation;
  }

  /** Every finished scrape of every run exports consistent numbers, whatever happened between its reads. */
  lemma EveryScrapeIsCoherent(run: seq<System>, n: nat, f: nat, maxAge: Time)
    requires Behaviour(run) && n < |run| && f < |run[n].finished|
    ensures var x := ScrapeOf(run[n].finished[f], maxAge);
            && PointersValid(x.o) && Exact(x, Output(x))
            && (forall c: nat :: DomainCount(Ready, c) in Output(x) <==> c == Series(Output(x), USED))
            && SumOfCounts(Output(x)) == AliveUpTo(x, |x.o.domains|)
            && (forall a, b :: 0 <= a < b < |Output(x)| ==> !SameExport(Output(x)[a], Output(x)[b]))
  {
    RunKeeps(run, n);
    var x := ScrapeOf(run[n].finished[f], maxAge);
    ReadyMatchesSeries(x);
    CountsSumToAlive(x);
    OutputIsExact(x);
    forall a, b | 0 <= a < b < |Output(x)| ensures !SameExport(Output(x)[a], Output(x)[b]) {
      NoExportTwice(x, a, b);
    }
  }

  /** Two container series with one metric and one label set. */
  predicate SameExport(a: Metric, b: Metric) {
    a.Business? && b.Business? && a.desc == b.desc && a.labels == b.labels && a.desc >= USED
  }

  lemma NoExportTwice(x: Scrape, a: nat, b: nat)
    requires Coherent(x.o) && PointersValid(x.o) && a < b < |Output(x)|
    ensures !SameExport(Output(x)[a], Output(x)[b])
  {
    var n := |ShownUpTo(x, |x.o.samples|)|;
    if b < n {
      ShownIsBusiness(x, |x.o.samples|);
      if Output(x)[a].desc >= USED {
        SeriesNeverRepeat(x, |x.o.samples|, a, b);
      }
    } else {
      OnlyShownAreBusiness(x, b);
    }
  }

  lemma OnlyShownAreBusiness(x: Scrape, k: nat)
    requires PointersValid(x.o) && |ShownUpTo(x, |x.o.samples|)| <= k < |Output(x)|
    ensures !Output(x)[k].Business?
  {
    SourcesAreNoSeries(x, |SOURCES|);
    StatesAt(x, |STATES|);
  }

  /**
    The series `m` of scrape `r` is that of sample `k`, which the round published for domain `i` of its snapshot: a
    claim that kept its token, and was prepared, from the snapshot to the scrape's own read; labelled with the consumer
    that the last successful resolve before the observation gave for it, at most `maxAge` before the scrape; and with
    the value read for that domain.
  */
  ghost predicate Live(
      hist: seq<Tokens>, resolves: seq<Resolve>, r: Reading, maxAge: Time, m: Metric, k: nat, i: nat)
    requires m.Business?
  {
    && r.cached.origin.Some? && k < |r.cached.o.samples| && m == SeriesOf(r.cached.o.samples[k])
    && From(r.cached.origin.value.w, i, r.cached.o.samples[k])
    && LiveDomain(hist, r, r.cached.origin.value.w.domains[i])
    && OwnedSeries(resolves, r, maxAge, r.cached.origin.value, m, r.cached.origin.value.w.domains[i])
  }

  /** The snapshot's token of this domain is the claim's, without a break, until the scrape read it. */
  ghost predicate LiveDomain(hist: seq<Tokens>, r: Reading, d: Domain) {
    && d.claimUID in r.readAt && d.generation != 0
    && Unbroken(hist, r.cached.snap, r.readAt[d.claimUID], d.claimUID, d.generation)
    && (forall j :: r.cached.snap <= j <= r.readAt[d.claimUID] && hist[j].swap.None? ==>
      Has(hist[j].prepared, d.claimUID))
  }

  /** The last resolve before the observation is young enough and names the owner. */
  ghost predicate OwnedSeries(resolves: seq<Resolve>, r: Reading, maxAge: Time, origin: Origin, m: Metric, d: Domain)
    requires m.Business?
  {
    && origin.resolves != [] && origin.resolves <= resolves
    && var last := origin.resolves[|origin.resolves| - 1];
       && r.now - last.at <= maxAge && origin.w.workloadAt == Some(last.at) && origin.w.workloads == last.workloads
       && NamesOwner(m.labels, d, last.workloads) && Reports(origin.w, d, m.desc, m.value)
  }

  lemma ShownIsLive(hist: seq<Tokens>, resolves: seq<Resolve>, r: Reading, maxAge: Time, k: nat) returns (i: nat)
    requires Faithful(hist, resolves, r) && AllRead(r) && k < |r.cached.o.samples|
    requires Shown(ScrapeOf(r, maxAge), k) && r.cached.o.samples[k].desc >= USED
    ensures Live(hist, resolves, r, maxAge, SeriesOf(r.cached.o.samples[k]), k, i)
  {
    var x := ScrapeOf(r, maxAge);
    assert SampleFits(x.o, x.o.samples[k]);
    var origin := r.cached.origin.value;
    i := ExportedIsOwned(x, origin.w, origin.resolves, k);
    var d := origin.w.domains[i];
    assert LiveDomain(hist, r, d) by {
      SampleShown(hist, resolves, r, maxAge, k);
      UnbrokenMeansPrepared(hist, r.cached.snap, r.readAt[d.claimUID], d.claimUID, d.generation);
    }
  }

  /**
    Every container series of every finished scrape is live, whatever happened between the snapshot, the publication
    and the scrape's reads. That the observation's pointers are valid is what EveryScrapeIsCoherent says first.
  */
  lemma EverySeriesIsLive(run: seq<System>, n: nat, f: nat, maxAge: Time, m: Metric) returns (k: nat, i: nat)
    requires Behaviour(run) && n < |run| && f < |run[n].finished| && PointersValid(run[n].finished[f].cached.o)
    requires m in Output(ScrapeOf(run[n].finished[f], maxAge)) && m.Business? && m.desc >= USED
    ensures Live(run[n].hist, run[n].resolves, run[n].finished[f], maxAge, m, k, i)
  {
    RunKeeps(run, n);
    k, i := SeriesIsLive(run[n].hist, run[n].resolves, run[n].finished[f], maxAge, m);
  }

  lemma SeriesIsLive(hist: seq<Tokens>, resolves: seq<Resolve>, r: Reading, maxAge: Time, m: Metric)
    returns (k: nat, i: nat)
    requires Faithful(hist, resolves, r) && AllRead(r)
    requires m in Output(ScrapeOf(r, maxAge)) && m.Business? && m.desc >= USED
    ensures Live(hist, resolves, r, maxAge, m, k, i)
  {
    var x := ScrapeOf(r, maxAge);
    var at :| 0 <= at < |Output(x)| && Output(x)[at] == m;
    if at >= |ShownUpTo(x, |x.o.samples|)| {
      OnlyShownAreBusiness(x, at);
    }
    k := SeriesFrom(x, |x.o.samples|, at);
    i := ShownIsLive(hist, resolves, r, maxAge, k);
  }

  /** The labels are those of the only consumer of the claim, which refers to the device, and of the card. */
  predicate NamesOwner(labels: seq<string>, d: Domain, workloads: map<string, seq<Consumer>>) {
    d.claimUID in workloads && OneConsumer(workloads[d.claimUID])
    && Refers(workloads[d.claimUID], DeviceRef(d.pool, d.device))
    && var c := workloads[d.claimUID][0];
       labels == [c.namespace, c.pod, c.container, Itoa(d.physicalID), d.uuid]
  }

  // ---- Every step keeps the invariant ----

  lemma BackedGrows(hist: seq<Tokens>, hist': seq<Tokens>, c: Cached)
    requires hist <= hist' && Backed(hist, c)
    ensures Backed(hist', c)
  {
    assert hist'[c.snap] == hist[c.snap];
  }

  lemma FaithfulGrows(
      hist: seq<Tokens>, hist': seq<Tokens>, resolves: seq<Resolve>, resolves': seq<Resolve>, r: Reading)
    requires hist <= hist' && Run(hist') && resolves <= resolves' && Faithful(hist, resolves, r)
    ensures Faithful(hist', resolves', r)
  {
    BackedGrows(hist, hist', r.cached);
    ReadSinceGrows(hist, hist', r.from, r.cached.o, r.memo, r.readAt);
  }

  lemma StepKeeps(s: System, e: Event)
    requires Inv(s) && Enabled(s, e)
    ensures Inv(After(s, e))
  {
    match e
    case Lifecycle(tokens) => LifecycleKeeps(s, tokens);
    case Resolves(resolve) => ResolveKeeps(s, resolve);
    case Snapshot(domains) => SnapshotKeeps(s, domains);
    case Publish(o, w) =>
      PublishIsBacked(s.hist, s.sampling.value.snap, o, w, Some(Origin(w, s.resolves)));
      CachedKeeps(s, Cached(o, s.sampling.value.snap, Some(Origin(w, s.resolves))));
    case PublishWithoutSnapshot(o, w) =>
      PublishIsEmpty(s.hist, o, w, Some(Origin(w, s.resolves)));
      CachedKeeps(s, Cached(o, |s.hist| - 1, Some(Origin(w, s.resolves))));
    case ScrapeStart(id, now) => ScrapeKeeps(s, id, Starts(s, now));
    case ScrapeRead(id, uid, at) =>
      ReadKeeps(s.hist, s.resolves, s.scrapes[id], uid, at);
      ScrapeKeeps(s, id, ReadOne(s.scrapes[id], s.hist, uid, at));
    case ScrapeFinish(id) => FinishKeeps(s, id);
  }

  lemma SnapshotKeeps(s: System, domains: seq<Domain>)
    requires Inv(s) && Snapped(Now(s.hist), domains)
    ensures Inv(s.(sampling := Some(Sampling(|s.hist| - 1, domains))))
  {
  }

  lemma CachedKeeps(s: System, c: Cached)
    requires Inv(s) && Backed(s.hist, c) && Owned(s.resolves, c)
    ensures Inv(s.(cached := c, sampling := None))
    ensures s.sampling.None? ==> Inv(s.(cached := c))
  {
  }

  lemma ReadKeeps(hist: seq<Tokens>, resolves: seq<Resolve>, r: Reading, uid: string, at: nat)
    requires Faithful(hist, resolves, r) && CanRead(r, hist, uid, at)
    ensures Faithful(hist, resolves, ReadOne(r, hist, uid, at))
  {
    var r', lo, o := ReadOne(r, hist, uid, at), r.from, r.cached.o;
    forall u | u in r'.memo ensures ReadAt(hist, lo, o, u, r'.memo[u], r'.readAt[u]) {
      if u != uid {
        assert ReadAt(hist, lo, o, u, r.memo[u], r.readAt[u]);
      }
    }
  }

  lemma ScrapeKeeps(s: System, id: nat, r: Reading)
    requires Inv(s) && Faithful(s.hist, s.resolves, r)
    ensures Inv(s.(scrapes := s.scrapes[id := r]))
  {
  }

  lemma FinishKeeps(s: System, id: nat)
    requires Inv(s) && id in s.scrapes && AllRead(s.scrapes[id])
    ensures Inv(s.(scrapes := s.scrapes - {id}, finished := s.finished + [s.scrapes[id]]))
  {
    var all := s.finished + [s.scrapes[id]];
    forall k | 0 <= k < |all| ensures Faithful(s.hist, s.resolves, all[k]) && AllRead(all[k]) {
      if k < |s.finished| {
        assert all[k] == s.finished[k];
      }
    }
  }

  lemma LifecycleKeeps(s: System, tokens: Tokens)
    requires Inv(s) && Next(Now(s.hist), tokens)
    ensures Inv(s.(hist := s.hist + [tokens]))
  {
    var more := s.hist + [tokens];
    Extend(s.hist, tokens);
    BackedGrows(s.hist, more, s.cached);
    forall id | id in s.scrapes ensures Faithful(more, s.resolves, s.scrapes[id]) {
      FaithfulGrows(s.hist, more, s.resolves, s.resolves, s.scrapes[id]);
    }
    forall k | 0 <= k < |s.finished| ensures Faithful(more, s.resolves, s.finished[k]) {
      FaithfulGrows(s.hist, more, s.resolves, s.resolves, s.finished[k]);
    }
  }

  lemma ResolveKeeps(s: System, resolve: Resolve)
    requires Inv(s)
    ensures Inv(s.(resolves := s.resolves + [resolve]))
  {
    var more := s.resolves + [resolve];
    forall id | id in s.scrapes ensures Faithful(s.hist, more, s.scrapes[id]) {
      FaithfulGrows(s.hist, s.hist, s.resolves, more, s.scrapes[id]);
    }
    forall k | 0 <= k < |s.finished| ensures Faithful(s.hist, more, s.finished[k]) {
      FaithfulGrows(s.hist, s.hist, s.resolves, more, s.finished[k]);
    }
  }

  lemma PublishIsEmpty(hist: seq<Tokens>, o: Observation, w: World, origin: Option<Origin>)
    requires hist != [] && ObservedFrom(o, w) && w.domains == []
    ensures Backed(hist, Cached(o, |hist| - 1, origin))
  {
    ObservedIsCoherent(o, w);
    CoherentPointers(o);
  }
}
