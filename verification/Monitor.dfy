/**
  The sampling side of the metrics monitor: one round, when rounds happen, and what they carry over
  (internal/monitor/monitor.go).
*/
module Monitor {
  import opened Wrappers
  import opened Decimal
  import opened MonitorTypes
  import opened DomainRule
  import opened Observe
  import opened Observations
  import opened SampleRuns
  import opened Collector

  datatype Config = Config(interval: Time, maxAge: Time, root: string)

  predicate ValidConfig(config: Config) {
    config.interval > 0 && config.maxAge >= config.interval && config.root != ""
  }

  /** Which of the sources, other than the token source, are given. */
  datatype SourceSet = SourceSet(prepared: bool, host: bool, workloads: bool)

  predicate AllGiven(sources: SourceSet) {
    sources.prepared && sources.host && sources.workloads
  }

  datatype StartError = InvalidConfig | MissingSource | CannotListen

  datatype HostResult = HostResult(devices: seq<HostDevice>, failed: bool, at: Time)

  /** What the sources and the file reads give to one round; None where the source fails. */
  datatype Inputs = Inputs(
    workloads: Option<map<string, seq<Consumer>>>,
    prepared: Option<seq<Domain>>,
    files: map<string, MemoryRead>)

  // ---- Host devices ----

  /** The last reading of a card wins. */
  function HostMap(devices: seq<HostDevice>): map<int, HostDevice> {
    if devices == [] then map[]
    else
      var h := devices[|devices| - 1];
      HostMap(devices[..|devices| - 1])[h.physicalID := h]
  }

  lemma {:induction false} HostMapMeans(devices: seq<HostDevice>, p: int)
    ensures p in HostMap(devices) <==> exists k :: 0 <= k < |devices| && devices[k].physicalID == p
    ensures p in HostMap(devices) ==> exists k :: LastOf(devices, k, p) && HostMap(devices)[p] == devices[k]
  {
    if p in HostMap(devices) {
      var k := LastReading(devices, p);
    } else if k :| 0 <= k < |devices| && devices[k].physicalID == p {
      ListedIsMapped(devices, k);
    }
  }

  lemma {:induction false} ListedIsMapped(devices: seq<HostDevice>, k: nat)
    requires k < |devices|
    ensures devices[k].physicalID in HostMap(devices)
  {
    if k < |devices| - 1 {
      ListedIsMapped(devices[..|devices| - 1], k);
    }
  }

  lemma {:induction false} LastReading(devices: seq<HostDevice>, p: int) returns (k: nat)
    requires p in HostMap(devices)
    ensures LastOf(devices, k, p) && HostMap(devices)[p] == devices[k]
  {
    k := |devices| - 1;
    if devices[k].physicalID != p {
      k := LastReading(devices[..k], p);
    }
  }

  predicate LastOf(devices: seq<HostDevice>, k: int, p: int) {
    0 <= k < |devices| && devices[k].physicalID == p && forall j :: k < j < |devices| ==> devices[j].physicalID != p
  }

  function HostLabels(h: HostDevice): seq<string> {
    [Itoa(h.logicalID), h.uuid, DeviceType(h.deviceType)]
  }

  function SamplesOfHost(h: HostDevice, at: Option<Time>): seq<Sample> {
    (if h.memoryValid then [Sample(0, h.memoryUsed as real, HostLabels(h), at, None)] else [])
    + if h.utilValid then [Sample(1, h.utilization, HostLabels(h), at, None)] else []
  }

  function HostSamplesOf(devices: seq<HostDevice>, at: Option<Time>): seq<Sample> {
    if devices == [] then []
    else HostSamplesOf(devices[..|devices| - 1], at) + SamplesOfHost(devices[|devices| - 1], at)
  }

  /** How many readings of the first `k` devices are exported. */
  function ReadingsUpTo(devices: seq<HostDevice>, k: nat): nat
    requires k <= |devices|
  {
    if k == 0 then 0
    else
      ReadingsUpTo(devices, k - 1) + (if devices[k - 1].memoryValid then 1 else 0)
      + if devices[k - 1].utilValid then 1 else 0
  }

  /** Which readings appear, and where: those of device `k` alone, after those of the devices before it. */
  lemma {:induction false} HostSamplesAt(devices: seq<HostDevice>, at: Option<Time>, k: nat)
    requires k < |devices|
    ensures |HostSamplesOf(devices, at)| == ReadingsUpTo(devices, |devices|)
    ensures ReadingsUpTo(devices, k) <= ReadingsUpTo(devices, k + 1) <= |HostSamplesOf(devices, at)|
    ensures HostSamplesOf(devices, at)[ReadingsUpTo(devices, k)..ReadingsUpTo(devices, k + 1)]
              == SamplesOfHost(devices[k], at)
  {
    var first, own := HostSamplesOf(devices[..k], at), SamplesOfHost(devices[k], at);
    assert devices[..k + 1][..k] == devices[..k] && devices[..|devices|] == devices;
    HostPrefix(devices, at, k);
    HostPrefix(devices, at, k + 1);
    HostPrefix(devices, at, |devices|);
    SliceAfter(HostSamplesOf(devices, at), first, own);
  }

  /** The samples of the first `k` devices come first, one for each of their readings. */
  lemma HostPrefix(devices: seq<HostDevice>, at: Option<Time>, k: nat)
    requires k <= |devices|
    ensures HostSamplesOf(devices[..k], at) <= HostSamplesOf(devices, at)
    ensures |HostSamplesOf(devices[..k], at)| == ReadingsUpTo(devices, k)
  {
    FirstHostsFirst(devices, at, k);
    HostSamplesLength(devices[..k], at);
    ReadingsOfPrefix(devices, k, k);
  }

  lemma {:induction false} FirstHostsFirst(devices: seq<HostDevice>, at: Option<Time>, k: nat)
    requires k <= |devices|
    ensures HostSamplesOf(devices[..k], at) <= HostSamplesOf(devices, at)
    decreases |devices| - k
  {
    if k == |devices| {
      assert devices[..k] == devices;
    } else {
      FirstHostsFirst(devices, at, k + 1);
      assert devices[..k + 1][..k] == devices[..k];
      assert HostSamplesOf(devices[..k], at) <= HostSamplesOf(devices[..k + 1], at);
    }
  }

  /** A device has its memory if that was read, then its utilization if that was read, as old as the poll. */
  lemma HostReadings(h: HostDevice, at: Option<Time>, s: Sample)
    ensures s in SamplesOfHost(h, at) <==>
            s.labels == [Itoa(h.logicalID), h.uuid, DeviceType(h.deviceType)] && s.at == at && s.domain == None
            && ((h.memoryValid && s.desc == 0 && s.value == h.memoryUsed as real)
                || (h.utilValid && s.desc == 1 && s.value == h.utilization))
    ensures |SamplesOfHost(h, at)| == 2 ==> SamplesOfHost(h, at)[0].desc == 0
  {
  }

  lemma {:induction false} HostSamplesLength(devices: seq<HostDevice>, at: Option<Time>)
    ensures |HostSamplesOf(devices, at)| == ReadingsUpTo(devices, |devices|)
  {
    if devices != [] {
      var n := |devices| - 1;
      HostSamplesLength(devices[..n], at);
      ReadingsOfPrefix(devices, n, n);
    }
  }

  lemma {:induction false} ReadingsOfPrefix(devices: seq<HostDevice>, n: nat, k: nat)
    requires k <= n <= |devices|
    ensures ReadingsUpTo(devices[..n], k) == ReadingsUpTo(devices, k)
  {
    if k > 0 {
      ReadingsOfPrefix(devices, n, k - 1);
    }
  }

  lemma {:induction false} HostSamplesAreHost(devices: seq<HostDevice>, at: Option<Time>)
    ensures HostSamples(HostSamplesOf(devices, at))
  {
    if devices != [] {
      HostSamplesAreHost(devices[..|devices| - 1], at);
    }
  }

  method SampleHosts(devices: seq<HostDevice>, at: Option<Time>)
    returns (hosts: map<int, HostDevice>, samples: seq<Sample>)
    ensures hosts == HostMap(devices) && samples == HostSamplesOf(devices, at)
  {
    hosts, samples := map[], [];
    for k := 0 to |devices|
      invariant hosts == HostMap(devices[..k]) && samples == HostSamplesOf(devices[..k], at)
    {
      var h := devices[k];
      assert devices[..k + 1][..k] == devices[..k];
      hosts := hosts[h.physicalID := h];
      var labels := [Itoa(h.logicalID), h.uuid, DeviceType(h.deviceType)];
      ghost var before := samples;
      if h.memoryValid {
        samples := samples + [Sample(0, h.memoryUsed as real, labels, at, None)];
      }
      if h.utilValid {
        samples := samples + [Sample(1, h.utilization, labels, at, None)];
      }
      assert samples == before + SamplesOfHost(h, at);
    }
    assert devices[..|devices|] == devices;
  }

  // ---- The monitor ----

  /** What one round sees once its inputs are in; without a snapshot it sees no domains. */
  function WorldOf(
      config: Config, input: Inputs, workloads: map<string, seq<Consumer>>, workloadAt: Option<Time>,
      devices: seq<HostDevice>, hostAt: Option<Time>, shortFiles: map<string, Time>, now: Time): World
  {
    World(input.prepared.GetOr([]), workloads, workloadAt,
          if Within(now, hostAt, config.maxAge) then HostMap(devices) else map[], hostAt,
          input.files, shortFiles, now, config.interval, config.maxAge, config.root)
  }

  /** A round sees a card through its last host reading, and only while the poll that gave it is young. */
  lemma WorldMeans(
      config: Config, input: Inputs, workloads: map<string, seq<Consumer>>, workloadAt: Option<Time>,
      devices: seq<HostDevice>, hostAt: Option<Time>, shortFiles: map<string, Time>, now: Time, card: int)
    ensures var w := WorldOf(config, input, workloads, workloadAt, devices, hostAt, shortFiles, now);
            && (card in w.hosts <==> hostAt.Some? && now - hostAt.value <= config.maxAge
                                     && exists k :: 0 <= k < |devices| && devices[k].physicalID == card)
            && (card in w.hosts ==> exists k :: LastOf(devices, k, card) && w.hosts[card] == devices[k])
            && w.domains == (if input.prepared.Some? then input.prepared.value else []) && w.files == input.files
            && w.now == now && w.interval == config.interval && w.maxAge == config.maxAge && w.root == config.root
            && w.workloads == workloads && w.workloadAt == workloadAt && w.hostAt == hostAt
  {
    HostMapMeans(devices, card);
  }

  function HostPart(w: World, devices: seq<HostDevice>): seq<Sample> {
    if Within(w.now, w.hostAt, w.maxAge) then HostSamplesOf(devices, w.hostAt) else []
  }

  /** The shared-memory source is good when there is a snapshot and none of its domains is invalid. */
  predicate ShmemGood(w: World, input: Inputs) {
    input.prepared.Some? && NoInvalid(w, |w.domains|)
  }

  function LastAfter(last: map<string, Time>, input: Inputs, w: World): map<string, Time> {
    var l := if input.workloads.Some? then last["workload" := w.now] else last;
    if ShmemGood(w, input) then l["shmem" := w.now] else l
  }

  /** What a round in the world `w` publishes. */
  function RoundOf(w: World, host: seq<Sample>, input: Inputs, hostOK: bool, last: map<string, Time>): Observation {
    Observation(
      host + SamplesUpTo(w, |w.domains|), DomainsSeen(w),
      map["workload" := input.workloads.Some?, "devices" := hostOK, "shmem" := ShmemGood(w, input)],
      last, Some(w.now))
  }

  lemma RoundIsObserved(
      w: World, devices: seq<HostDevice>, input: Inputs, hostOK: bool, last: map<string, Time>)
    requires w.workloadAt == (if "workload" in last then Some(last["workload"]) else None)
    ensures ObservedFrom(RoundOf(w, HostPart(w, devices), input, hostOK, last), w)
  {
    HostSamplesAreHost(devices, w.hostAt);
    assert HostSamples(HostPart(w, devices));
  }

  /** The monitor's state between rounds, with the history of its rounds. */
  datatype Carry = Carry(
    lastStarted: Option<Time>,
    workloads: map<string, seq<Consumer>>,
    workloadAt: Option<Time>,
    last: map<string, Time>,
    shortFiles: map<string, Time>,
    current: Observation,
    starts: seq<Time>,
    resolves: seq<Resolve>,
    worlds: seq<World>,
    published: Option<World>)

  /**
    Rounds are spaced; the consumers are those of the last successful resolve; the short files are those the last
    observing round left; and the cached observation is that of the last round, under the ownership still held.
  */
  ghost predicate CarryInv(c: Carry, interval: Time) {
    && c.workloadAt == (if "workload" in c.last then Some(c.last["workload"]) else None)
    && LastResolve(c.resolves, c.workloads, c.workloadAt)
    && Started(c.starts, c.lastStarted, interval)
    && Remembered(c.worlds, c.shortFiles, interval)
    && (c.worlds != [] ==> c.starts != [] && c.worlds[|c.worlds| - 1].now <= c.starts[|c.starts| - 1])
    && Holds(c.current, c.published, c.workloads, c.workloadAt)
  }

  /** What a round started at `w.now` in the world `w` makes of the state. */
  ghost predicate Round(c: Carry, c': Carry, w: World, input: Inputs, devices: seq<HostDevice>, hostOK: bool) {
    && c'.lastStarted == Some(w.now) && c'.starts == c.starts + [w.now]
    && (c'.workloads, c'.workloadAt) == (if input.workloads.Some? then (input.workloads.value, Some(w.now))
                                         else (c.workloads, c.workloadAt))
    && w.workloads == c'.workloads && w.workloadAt == c'.workloadAt && w.shortFiles == c.shortFiles
    && c'.last == LastAfter(c.last, input, w)
    && c'.current == RoundOf(w, HostPart(w, devices), input, hostOK, c'.last) && c'.published == Some(w)
    && c'.resolves == (if input.workloads.Some? then c.resolves + [Resolve(w.now, input.workloads.value)]
                       else c.resolves)
    && (if input.prepared.Some? then c'.worlds == c.worlds + [w] && c'.shortFiles == ShortFilesUpTo(w, |w.domains|)
        else c'.worlds == c.worlds && c'.shortFiles == c.shortFiles)
  }

  /** Some domain of the round is in the state invalid. */
  ghost predicate SomeInvalid(w: World) {
    exists i :: 0 <= i < |w.domains| && Kept(w, i) && Deserves(w, i, Invalid)
  }

  /** The sources that a round stamps with its own time; the devices are stamped when a host result arrives. */
  predicate Stamps(o: Observation, source: string) {
    (source == "workload" || source == "shmem") && source in o.ok && o.ok[source]
  }

  /** The host samples come first and are there while the last reading is young; the rest are the domains' metrics. */
  ghost predicate HasSamples(o: Observation, w: World, devices: seq<HostDevice>) {
    var host := if w.hostAt.Some? && w.now - w.hostAt.value <= w.maxAge then HostSamplesOf(devices, w.hostAt) else [];
    host <= o.samples && PublishesAll(w, o.samples[|host|..])
  }

  /** The sources whose success the round reports, and the stamps it leaves. */
  ghost predicate ReportsSources(
      o: Observation, before: map<string, Time>, w: World, input: Inputs, hostOK: bool)
  {
    o.ok == map["workload" := input.workloads.Some?, "devices" := hostOK,
                "shmem" := input.prepared.Some? && !SomeInvalid(w)]
    && (forall s :: s in o.last <==> s in before || Stamps(o, s))
    && forall s :: s in o.last ==> o.last[s] == if Stamps(o, s) then w.now else before[s]
  }

  lemma RoundReportsSources(
      w: World, host: seq<Sample>, input: Inputs, hostOK: bool, before: map<string, Time>)
    ensures ReportsSources(RoundOf(w, host, input, hostOK, LastAfter(before, input, w)), before, w, input, hostOK)
  {
    ShmemGoodMeans(w, input);
  }

  lemma RoundHasSamples(
      w: World, devices: seq<HostDevice>, input: Inputs, hostOK: bool, last: map<string, Time>)
    ensures HasSamples(RoundOf(w, HostPart(w, devices), input, hostOK, last), w, devices)
  {
    AllArePublished(w);
    var host := HostPart(w, devices);
    assert (host + SamplesUpTo(w, |w.domains|))[|host|..] == SamplesUpTo(w, |w.domains|);
  }

  /**
    What a round publishes: every domain with the state it deserves, all metrics of the ready ones, whether each of
    the three sources succeeded, and the stamps of those that did.
  */
  lemma RoundPublishes(c: Carry, c': Carry, w: World, input: Inputs, devices: seq<HostDevice>, hostOK: bool)
    requires Round(c, c', w, input, devices, hostOK)
    ensures c'.current.at == Some(w.now) && c'.current.last == c'.last
    ensures ObservesAll(w, c'.current.domains) && HasSamples(c'.current, w, devices)
    ensures ReportsSources(c'.current, c.last, w, input, hostOK)
  {
    AllAreObserved(w);
    RoundHasSamples(w, devices, input, hostOK, c'.last);
    RoundReportsSources(w, HostPart(w, devices), input, hostOK, c.last);
  }

  lemma ShmemGoodMeans(w: World, input: Inputs)
    ensures ShmemGood(w, input) <==> input.prepared.Some? && !SomeInvalid(w)
  {
    NoInvalidMeans(w, |w.domains|);
    forall i | 0 <= i < |w.domains| && Kept(w, i) ensures RuleState(w, i) == Invalid <==> Deserves(w, i, Invalid) {
      StateIff(w, i, Invalid);
    }
  }

  lemma RoundKeepsSources(
      c: Carry, c': Carry, w: World, input: Inputs, devices: seq<HostDevice>, hostOK: bool, interval: Time)
    requires CarryInv(c, interval) && Round(c, c', w, input, devices, hostOK)
    ensures c'.workloadAt == (if "workload" in c'.last then Some(c'.last["workload"]) else None)
    ensures LastResolve(c'.resolves, c'.workloads, c'.workloadAt)
    ensures Holds(c'.current, c'.published, c'.workloads, c'.workloadAt)
  {
    RoundIsObserved(w, devices, input, hostOK, c'.last);
  }

  lemma RoundKeeps(
      c: Carry, c': Carry, w: World, input: Inputs, devices: seq<HostDevice>, hostOK: bool, interval: Time)
    requires CarryInv(c, interval) && w.interval == interval && Round(c, c', w, input, devices, hostOK)
    requires c.lastStarted.Some? ==> w.now - c.lastStarted.value >= interval
    ensures CarryInv(c', interval)
  {
    RoundKeepsSources(c, c', w, input, devices, hostOK, interval);
    RoundKeepsWorlds(c, c', w, input, devices, hostOK, interval);
  }

  lemma RoundKeepsWorlds(
      c: Carry, c': Carry, w: World, input: Inputs, devices: seq<HostDevice>, hostOK: bool, interval: Time)
    requires CarryInv(c, interval) && w.interval == interval && Round(c, c', w, input, devices, hostOK)
    requires c.lastStarted.Some? ==> w.now - c.lastStarted.value >= interval
    ensures Started(c'.starts, c'.lastStarted, interval) && Remembered(c'.worlds, c'.shortFiles, interval)
    ensures c'.worlds != [] ==>
              c'.starts != [] && c'.worlds[|c'.worlds| - 1].now <= c'.starts[|c'.starts| - 1]
  {
    if input.prepared.Some? {
      ChainGrows(c.worlds, c.shortFiles, w, c'.shortFiles, interval);
    }
    StartsGrow(c.starts, c.lastStarted, w.now, interval);
  }

  lemma StartsGrow(starts: seq<Time>, last: Option<Time>, now: Time, interval: Time)
    requires Started(starts, last, interval) && (last.Some? ==> now - last.value >= interval)
    ensures Started(starts + [now], Some(now), interval)
  {
  }

  /** Nothing a round carries over depends on when the devices were last polled. */
  lemma DevicesPolled(c: Carry, at: Time, interval: Time)
    requires CarryInv(c, interval)
    ensures CarryInv(c.(last := c.last["devices" := at]), interval)
  {
  }

  class Monitor {
    const config: Config
    const collector: Collector
    var lastRefreshStarted: Option<Time>
    var hostDevices: seq<HostDevice>
    var hostAt: Option<Time>
    var hostOK: bool
    var workloads: map<string, seq<Consumer>>
    var workloadAt: Option<Time>
    var last: map<string, Time>
    var shortFiles: map<string, Time>
    // The starts of all rounds, the successful resolves, the rounds that observed domains, and the last round.
    ghost var starts: seq<Time>
    ghost var resolves: seq<Resolve>
    ghost var worlds: seq<World>
    ghost var published: Option<World>

    ghost predicate Valid()
      reads this, collector
    {
      && config.maxAge >= config.interval > 0 && config.maxAge == collector.maxAge
      && CarryInv(View(), config.interval)
    }

    ghost function View(): Carry
      reads this, collector
    {
      Carry(lastRefreshStarted, workloads, workloadAt, last, shortFiles, collector.current,
            starts, resolves, worlds, published)
    }

    /**
      Start: the checks of the configuration and the sources, then the listener, in that order; and the monitor before
      its first round. A source that is not given is nil; the token source is the reader.
    */
    static method Start(config: Config, sources: SourceSet, reader: TokenReader?, listens: bool)
      returns (r: Result<Monitor, StartError>)
      ensures r == Err(InvalidConfig) <==> !ValidConfig(config)
      ensures r == Err(MissingSource) <==> ValidConfig(config) && !(AllGiven(sources) && reader != null)
      ensures r == Err(CannotListen) <==> ValidConfig(config) && AllGiven(sources) && reader != null && !listens
      ensures r.Ok? ==> fresh(r.value) && fresh(r.value.collector) && r.value.Valid() && r.value.config == config
                        && r.value.starts == [] && r.value.resolves == [] && r.value.published.None?
                        && r.value.collector.reader == reader
    {
      if config.interval <= 0 || config.maxAge < config.interval || config.root == "" {
        return Err(InvalidConfig);
      }
      if !sources.prepared || reader == null || !sources.host || !sources.workloads {
        return Err(MissingSource);
      }
      if !listens {
        return Err(CannotListen);
      }
      var c := new Collector(config.maxAge, reader);
      var monitor := new Monitor(config, c);
      return Ok(monitor);
    }

    constructor (config: Config, collector: Collector)
      requires config.maxAge >= config.interval > 0 && collector.maxAge == config.maxAge
      requires collector.current == Observation([], [], map[], map[], None)
      ensures Valid() && this.config == config && this.collector == collector
      ensures starts == [] && resolves == [] && published.None?
    {
      this.config, this.collector := config, collector;
      lastRefreshStarted, hostDevices, hostAt, hostOK := None, [], None, false;
      workloads, workloadAt, last, shortFiles := map[], None, map[], map[];
      starts, resolves, worlds, published := [], [], [], None;
    }

    /** The step of run that receives a host result: a failed poll keeps the devices it has, unless it brings some. */
    method HostArrived(result: HostResult)
      requires Valid()
      modifies this`hostDevices, this`hostAt, this`hostOK, this`last
      ensures Valid() && hostOK == !result.failed
      ensures (hostDevices, hostAt) == if !result.failed || |result.devices| > 0
                                       then (result.devices, Some(result.at)) else old((hostDevices, hostAt))
      ensures last == if result.failed then old(last) else old(last)["devices" := result.at]
    {
      hostOK := !result.failed;
      if !result.failed || |result.devices| > 0 {
        hostDevices, hostAt := result.devices, Some(result.at);
      }
      if !result.failed {
        DevicesPolled(View(), result.at, config.interval);
        last := last["devices" := result.at];
      }
    }

    /** No round started less than an interval ago. */
    predicate Due(started: Time)
      reads this
    {
      lastRefreshStarted.None? || started - lastRefreshStarted.value >= config.interval
    }

    /** Starts a round unless one started less than an interval ago; a skipped attempt changes nothing. */
    method Refresh(started: Time, input: Inputs) returns (sampled: bool)
      requires Valid()
      modifies this`lastRefreshStarted, this`workloads, this`workloadAt, this`last, this`shortFiles, this`starts,
               this`resolves, this`worlds, this`published, collector`current
      ensures Valid()
      ensures sampled <==> old(Due(started))
      ensures !sampled ==> View() == old(View())
      ensures sampled ==>
                && published
                   == Some(WorldOf(config, input, workloads, workloadAt, hostDevices, hostAt, old(shortFiles), started))
                && Round(old(View()), View(), published.value, input, hostDevices, hostOK)
    {
      if !Due(started) {
        return false;
      }
      ghost var before := View();
      StartRound(started, input);
      RoundKeeps(before, View(), published.value, input, hostDevices, hostOK, config.interval);
      return true;
    }

    /** The start is reserved for this round whether or not its sources succeed. */
    method StartRound(started: Time, input: Inputs)
      modifies this`lastRefreshStarted, this`workloads, this`workloadAt, this`last, this`shortFiles, this`starts,
               this`resolves, this`worlds, this`published, collector`current
      ensures published
              == Some(WorldOf(config, input, workloads, workloadAt, hostDevices, hostAt, old(shortFiles), started))
      ensures Round(old(View()), View(), published.value, input, hostDevices, hostOK)
    {
      lastRefreshStarted := Some(started);
      Sample(started, input);
      worlds := if input.prepared.Some? then worlds + [published.value] else worlds;
      resolves := if input.workloads.Some? then resolves + [Resolve(started, workloads)] else resolves;
      starts := starts + [started];
    }

    /** One round: what is published is what the rule gives for what the sources gave. */
    method Sample(now: Time, input: Inputs)
      modifies this`workloads, this`workloadAt, this`last, this`shortFiles, this`published, collector`current
      ensures (workloads, workloadAt) == if input.workloads.Some? then (input.workloads.value, Some(now))
                                         else old((workloads, workloadAt))
      ensures published
              == Some(WorldOf(config, input, workloads, workloadAt, hostDevices, hostAt, old(shortFiles), now))
      ensures last == LastAfter(old(last), input, published.value)
      ensures collector.current == RoundOf(published.value, HostPart(published.value, hostDevices), input, hostOK, last)
      ensures shortFiles == if input.prepared.Some? then ShortFilesUpTo(published.value, |published.value.domains|)
                            else old(shortFiles)
    {
      if input.workloads.Some? {
        workloads, workloadAt, last := input.workloads.value, Some(now), last["workload" := now];
      }
      var w, host := LookAtHosts(now, input);
      var domains, samples, good, short := LookAtDomains(w, input);
      if input.prepared.Some? {
        shortFiles := short;
      }
      if good {
        last := last["shmem" := now];
      }
      var ok := map["workload" := input.workloads.Some?, "devices" := hostOK, "shmem" := good];
      published := Some(w);
      collector.current := Observation(host + samples, domains, ok, last, Some(now));
    }

    /** The host devices, unless the last poll that brought any is too old. */
    method LookAtHosts(now: Time, input: Inputs) returns (w: World, samples: seq<Sample>)
      ensures w == WorldOf(config, input, workloads, workloadAt, hostDevices, hostAt, shortFiles, now)
      ensures samples == HostPart(w, hostDevices)
    {
      var hosts: map<int, HostDevice> := map[];
      samples := [];
      if hostAt.Some? && now - hostAt.value <= config.maxAge {
        hosts, samples := SampleHosts(hostDevices, hostAt);
      }
      w := World(input.prepared.GetOr([]), workloads, workloadAt, hosts, hostAt,
                 input.files, shortFiles, now, config.interval, config.maxAge, config.root);
    }

    /** The prepared domains, if there is a snapshot. */
    method LookAtDomains(w: World, input: Inputs)
      returns (domains: seq<DomainObs>, samples: seq<Sample>, good: bool, short: map<string, Time>)
      requires w.domains == input.prepared.GetOr([])
      ensures domains == DomainsSeen(w) && samples == SamplesUpTo(w, |w.domains|)
      ensures good <==> input.prepared.Some? && NoInvalid(w, |w.domains|)
      ensures input.prepared.Some? ==> short == ShortFilesUpTo(w, |w.domains|)
    {
      domains, samples, good, short := [], [], false, map[];
      if input.prepared.Some? {
        domains, samples, good, short := ObserveDomains(w);
      }
    }
  }

  /** The starts of the rounds and the field that remembers the last one. */
  predicate Started(starts: seq<Time>, last: Option<Time>, interval: Time) {
    Spaced(starts, interval) && last == if starts == [] then None else Some(starts[|starts| - 1])
  }

  /** The short files the monitor holds are those its last observing round left. */
  predicate Remembered(worlds: seq<World>, shortFiles: map<string, Time>, interval: Time) {
    Chain(worlds, interval)
    && if worlds == [] then shortFiles == map[]
       else shortFiles == ShortFilesUpTo(worlds[|worlds| - 1], |worlds[|worlds| - 1].domains|)
  }

  /** The cached observation comes from the last round, under the ownership the monitor still holds. */
  ghost predicate Holds(
      o: Observation, published: Option<World>, workloads: map<string, seq<Consumer>>, at: Option<Time>)
  {
    match published
    case None => o == Observation([], [], map[], map[], None)
    case Some(w) => ObservedFrom(o, w) && w.workloads == workloads && w.workloadAt == at
  }

  lemma ChainGrows(
      worlds: seq<World>, shortFiles: map<string, Time>, w: World, short: map<string, Time>, interval: Time)
    requires Remembered(worlds, shortFiles, interval) && w.shortFiles == shortFiles && w.interval == interval
    requires worlds != [] ==> w.now - worlds[|worlds| - 1].now >= interval
    requires short == ShortFilesUpTo(w, |w.domains|)
    ensures Remembered(worlds + [w], short, interval)
  {
    var more := worlds + [w];
    forall k | 0 <= k < |more| - 1 ensures Follows(more[k], more[k + 1]) {
      assert k < |worlds| - 1 ==> more[k + 1] == worlds[k + 1];
    }
  }
}
