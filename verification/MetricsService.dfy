/**
  The driver, the monitor and the collector put together. Everything they do is a run of the protocol over the
  driver's own token history, so that what the protocol promises holds of every scrape the code serves
  (cmd/ascend-dra-kubeletplugin/state.go and metrics.go, internal/monitor).
*/
module MetricsService {
  import opened Wrappers
  import opened MonitorTypes
  import opened DomainRule
  import opened Observations
  import opened SampleRuns
  import opened ScrapeRule
  import opened ExportRule
  import opened TokenProtocol
  import opened CorePrepare
  import opened Lifecycle
  import opened Collector
  import opened Monitor
  import opened ScrapeProtocol
  import opened ProtocolRuns

  /** A round under way: when it started, and its snapshot if that succeeded. */
  datatype BegunRound = BegunRound(started: Time, snapshot: Option<seq<Domain>>)

  /** A scrape under way: the observation it copied, the moment of the token history at which it did, its clock. */
  datatype BegunScrape = BegunScrape(o: Observation, from: nat, now: Time)

  /** The protocol's state is that of the objects. */
  predicate Linked(
      s: System, hist: seq<Tokens>, resolves: seq<Resolve>, o: Observation, round: Option<BegunRound>,
      scrapes: map<nat, BegunScrape>)
  {
    && s.hist == hist && s.resolves == resolves && s.cached.o == o && Awaits(s.sampling, round)
    && s.scrapes.Keys == scrapes.Keys && forall id :: id in scrapes ==> Reads(s.scrapes[id], scrapes[id])
  }

  /** A run of the protocol that has come to the objects' state. */
  ghost predicate Runs(
      run: seq<System>, hist: seq<Tokens>, resolves: seq<Resolve>, o: Observation, round: Option<BegunRound>,
      scrapes: map<nat, BegunScrape>)
  {
    Behaviour(run) && Linked(Latest(run), hist, resolves, o, round, scrapes)
    && forall id :: id in scrapes ==> scrapes[id].from < |hist|
  }

  predicate Awaits(sampling: Option<Sampling>, round: Option<BegunRound>) {
    match sampling
    case None => round.None? || round.value.snapshot.None?
    case Some(begun) => round.Some? && round.value.snapshot == Some(begun.domains)
  }

  predicate Reads(r: Reading, b: BegunScrape) {
    r == Reading(r.cached, b.from, b.now, map[], map[]) && r.cached.o == b.o
  }

  /**
    What is sent is exact for the observation and the tokens read, every container series is live, and the exported
    numbers agree with each other.
  */
  ghost predicate Sound(s: System, r: Reading, maxAge: Time, out: seq<Metric>)
    requires PointersValid(r.cached.o)
  {
    && Exact(ScrapeOf(r, maxAge), out)
    && (forall m {:trigger LiveSeries(s, r, maxAge, m)} :: m in out && m.Business? && m.desc >= USED ==>
          LiveSeries(s, r, maxAge, m))
    && (forall n: nat :: DomainCount(Ready, n) in out <==> n == Series(out, USED))
    && SumOfCounts(out) == AliveUpTo(ScrapeOf(r, maxAge), |r.cached.o.domains|)
    && (forall a, b :: 0 <= a < b < |out| ==> !SameExport(out[a], out[b]))
  }

  ghost predicate LiveSeries(s: System, r: Reading, maxAge: Time, m: Metric)
    requires m.Business?
  {
    exists k: nat, i: nat :: Live(s.hist, s.resolves, r, maxAge, m, k, i)
  }

  lemma LastFinishedIsSound(run: seq<System>, maxAge: Time)
    requires Behaviour(run) && Latest(run).finished != []
    ensures var s := Latest(run);
            var r := s.finished[|s.finished| - 1];
            PointersValid(r.cached.o) && Sound(s, r, maxAge, Output(ScrapeOf(r, maxAge)))
  {
    var n := |run| - 1;
    var f := |run[n].finished| - 1;
    var r := run[n].finished[f];
    EveryScrapeIsCoherent(run, n, f, maxAge);
    var out := Output(ScrapeOf(r, maxAge));
    forall m | m in out && m.Business? && m.desc >= USED ensures LiveSeries(run[n], r, maxAge, m) {
      var k, i := EverySeriesIsLive(run, n, f, maxAge, m);
    }
  }

  // ---- What each call does to the run ----

  /** Lifecycle operations. */
  lemma MovesOn(
      run: seq<System>, hist: seq<Tokens>, resolves: seq<Resolve>, o: Observation, round: Option<BegunRound>,
      scrapes: map<nat, BegunScrape>, hist': seq<Tokens>)
    returns (more: seq<System>)
    requires Runs(run, hist, resolves, o, round, scrapes) && hist <= hist' && Run(hist')
    ensures Runs(more, hist', resolves, o, round, scrapes) && run <= more
    ensures Latest(more) == Latest(run).(hist := hist')
  {
    more := AdvanceTo(run, hist');
  }

  lemma RoundBegins(
      run: seq<System>, hist: seq<Tokens>, resolves: seq<Resolve>, o: Observation, scrapes: map<nat, BegunScrape>,
      started: Time, snapshot: Option<seq<Domain>>)
    returns (more: seq<System>)
    requires Runs(run, hist, resolves, o, None, scrapes) && hist != []
    requires snapshot.Some? ==> Snapped(TokenProtocol.Now(hist), snapshot.value)
    ensures Runs(more, hist, resolves, o, Some(BegunRound(started, snapshot)), scrapes) && run <= more
    ensures Latest(more) == Latest(run).(sampling := SnapshotAt(hist, snapshot))
  {
    more := BeginRound(run, snapshot);
  }

  /** What a round of the monitor does to its state is the end of a round of the protocol. */
  lemma RoundEnds(
      run: seq<System>, hist: seq<Tokens>, c: Carry, c': Carry, w: World, input: Inputs, devices: seq<HostDevice>,
      hostOK: bool, interval: Time, round: BegunRound, scrapes: map<nat, BegunScrape>)
    returns (more: seq<System>)
    requires Runs(run, hist, c.resolves, c.current, Some(round), scrapes) && hist != []
    requires Round(c, c', w, input, devices, hostOK) && CarryInv(c', interval)
    requires input.prepared == round.snapshot && w.domains == round.snapshot.GetOr([])
    ensures Runs(more, hist, c'.resolves, c'.current, None, scrapes) && run <= more
    ensures Latest(more) == AfterRound(Latest(run), ResolveOf(input, w), c'.current, w)
  {
    assert c'.resolves == WithResolve(c.resolves, ResolveOf(input, w));
    assert ObservedFrom(c'.current, w) && LastResolve(c'.resolves, w.workloads, w.workloadAt);
    more := FinishRound(run, ResolveOf(input, w), c'.current, w);
  }

  lemma ScrapeBegins(
      run: seq<System>, hist: seq<Tokens>, resolves: seq<Resolve>, o: Observation, round: Option<BegunRound>,
      scrapes: map<nat, BegunScrape>, id: nat, now: Time)
    returns (more: seq<System>)
    requires Runs(run, hist, resolves, o, round, scrapes) && hist != [] && id !in scrapes
    ensures Runs(more, hist, resolves, o, round, scrapes[id := BegunScrape(o, |hist| - 1, now)]) && run <= more
    ensures Latest(more) == Latest(run).(scrapes := Latest(run).scrapes[id := Starts(Latest(run), now)])
  {
    more := Do(run, ScrapeStart(id, now));
  }

  lemma ScrapeEnds(
      run: seq<System>, hist: seq<Tokens>, resolves: seq<Resolve>, o: Observation, round: Option<BegunRound>,
      scrapes: map<nat, BegunScrape>, id: nat, hist': seq<Tokens>, memo: Memo, readAt: map<string, nat>)
    returns (more: seq<System>, r: Reading)
    requires Runs(run, hist, resolves, o, round, scrapes) && hist <= hist' && Run(hist') && id in scrapes
    requires ReadSince(hist', scrapes[id].from, scrapes[id].o, memo, readAt)
    requires forall p :: 0 <= p < |scrapes[id].o.domains| ==> scrapes[id].o.domains[p].claimUID in memo
    ensures Runs(more, hist', resolves, o, round, scrapes - {id}) && run <= more
    ensures id in Latest(run).scrapes && r == Latest(run).scrapes[id].(memo := memo, readAt := readAt)
    ensures Latest(more) == Latest(run).(hist := hist', scrapes := Latest(run).scrapes - {id},
                                         finished := Latest(run).finished + [r])
    ensures r.cached.o == scrapes[id].o && r.now == scrapes[id].now && AllRead(r)
  {
    r := Latest(run).scrapes[id].(memo := memo, readAt := readAt);
    assert Reads(Latest(run).scrapes[id], scrapes[id]);
    more := FinishScrape(run, id, r, hist');
  }

  function ResolveOf(input: Inputs, w: World): Option<Resolve> {
    if input.workloads.Some? then Some(Resolve(w.now, input.workloads.value)) else None
  }

  /** The goroutines of the plugin: lifecycle calls, the loop that runs the rounds one after the other, scrapes. */
  class Service {
    const state: DeviceState
    const monitor: Monitor
    var round: Option<BegunRound>
    var scrapes: map<nat, BegunScrape>
    // The run of the protocol that the calls made so far amount to.
    ghost var run: seq<System>

    ghost predicate Valid()
      reads this, state, state.files, monitor, monitor.collector, monitor.collector.reader
    {
      && state.Valid() && monitor.Valid() && monitor.collector.reader.state == state
      && (round.Some? ==> monitor.Due(round.value.started))
      && Runs(run, state.trace, monitor.resolves, monitor.collector.current, round, scrapes)
    }

    ghost function Now(): System
      requires run != []
      reads this
    {
      Latest(run)
    }

    /** startMetrics: the monitor reads the tokens of this driver. */
    constructor (state: DeviceState, monitor: Monitor)
      requires state.Valid() && monitor.Valid() && monitor.resolves == [] && monitor.published.None?
      requires monitor.collector.reader.state == state
      ensures Valid() && this.state == state && this.monitor == monitor && round.None? && scrapes == map[]
      ensures Now() == INITIAL.(hist := state.trace)
    {
      this.state, this.monitor, round, scrapes := state, monitor, None, map[];
      ghost var start := [INITIAL];
      ghost var more := AdvanceTo(start, state.trace);
      run := more;
    }

    /** Lifecycle calls move the token history on, and nothing else that rounds or scrapes see. */
    method Prepare(claim: Claim) returns (r: PrepareResult)
      requires Valid()
      modifies this`run, state, state.files
      ensures Valid() && old(run) <= run && Now() == old(Now()).(hist := state.trace)
      ensures PreparePost(state.allocatable, state.root, old(state.View()), claim, state.View(), r)
    {
      r := state.Prepare(claim);
      ghost var more := MovesOn(run, old(state.trace), monitor.resolves, monitor.collector.current, round, scrapes,
                                state.trace);
      run := more;
    }

    method Unprepare(uid: string) returns (r: UnprepareResult)
      requires Valid()
      modifies this`run, state, state.files
      ensures Valid() && old(run) <= run && Now() == old(Now()).(hist := state.trace)
      ensures UnpreparePost(old(state.View()), uid, state.View(), r)
    {
      r := state.Unprepare(uid);
      ghost var more := MovesOn(run, old(state.trace), monitor.resolves, monitor.collector.current, round, scrapes,
                                state.trace);
      run := more;
    }

    /** The loop receives a host result between two rounds. */
    method HostArrived(result: HostResult)
      requires Valid() && round.None?
      modifies monitor`hostDevices, monitor`hostAt, monitor`hostOK, monitor`last
      ensures Valid() && run == old(run)
      ensures monitor.hostOK == !result.failed
      ensures (monitor.hostDevices, monitor.hostAt) == if !result.failed || |result.devices| > 0
                                                       then (result.devices, Some(result.at))
                                                       else old((monitor.hostDevices, monitor.hostAt))
    {
      monitor.HostArrived(result);
    }

    /** A round starts unless one did less than an interval ago, and takes its snapshot of the driver. */
    method BeginRound(started: Time) returns (begun: bool)
      requires Valid() && round.None?
      modifies this`run, this`round
      ensures Valid() && old(run) <= run
      ensures begun <==> monitor.Due(started)
      ensures !begun ==> round.None? && Now() == old(Now())
      ensures begun ==> round.Some? && round.value.started == started
                        && Now() == old(Now()).(sampling := SnapshotAt(state.trace, round.value.snapshot))
    {
      begun := monitor.Due(started);
      if begun {
        var snapshot := state.MetricsSnapshot();
        ghost var more := RoundBegins(run, state.trace, monitor.resolves, monitor.collector.current, scrapes, started,
                                      snapshot);
        run, round := more, Some(BegunRound(started, snapshot));
      }
    }

    /**
      The rest of the round, whatever went on since its snapshot: it reads its sources and publishes an observation
      that is backed by the tokens of the snapshot's moment.
    */
    method FinishRound(input: Inputs)
      requires Valid() && round.Some?
      modifies this`run, this`round, monitor, monitor.collector
      ensures Valid() && old(run) <= run && round.None?
      ensures monitor.published.Some?
      ensures Now() == AfterRound(old(Now()), ResolveOf(input, monitor.published.value), monitor.collector.current,
                                  monitor.published.value)
    {
      ghost var more := Publish(round.value, input);
      run, round := more, None;
    }

    method Publish(begun: BegunRound, input: Inputs) returns (ghost more: seq<System>)
      requires Valid() && round == Some(begun)
      modifies monitor, monitor.collector
      ensures monitor.Valid() && monitor.published.Some? && old(run) <= more
      ensures Runs(more, state.trace, monitor.resolves, monitor.collector.current, None, scrapes)
      ensures Latest(more) == AfterRound(Latest(old(run)), ResolveOf(input, monitor.published.value),
                                         monitor.collector.current, monitor.published.value)
    {
      ghost var c := monitor.View();
      var read := input.(prepared := begun.snapshot);
      var sampled := monitor.Refresh(begun.started, read);
      more := RoundEnds(run, state.trace, c, monitor.View(), monitor.published.value, read, monitor.hostDevices,
                        monitor.hostOK, monitor.config.interval, begun, scrapes);
    }

    /** A scrape starts by copying the published observation. */
    method BeginScrape(id: nat, now: Time)
      requires Valid() && id !in scrapes
      modifies this`run, this`scrapes
      ensures Valid() && old(run) <= run
      ensures Now() == old(Now()).(scrapes := old(Now()).scrapes[id := Starts(old(Now()), now)])
      ensures scrapes == old(scrapes)[id := BegunScrape(monitor.collector.current, |state.trace| - 1, now)]
    {
      ghost var more := ScrapeBegins(run, state.trace, monitor.resolves, monitor.collector.current, round, scrapes, id,
                                     now);
      run, scrapes := more, scrapes[id := BegunScrape(monitor.collector.current, |state.trace| - 1, now)];
    }

    /**
      The rest of the scrape: what it sends is sound, whatever lifecycle operations, rounds and other scrapes went on
      since it began, and whenever since then its reads fell.
    */
    method FinishScrape(id: nat) returns (out: seq<Metric>, ghost r: Reading)
      requires Valid() && id in scrapes
      modifies this`run, this`scrapes, state, state.files, monitor.collector.reader
      ensures Valid() && old(run) <= run && scrapes == old(scrapes) - {id}
      ensures id in old(Now()).scrapes && r == old(Now()).scrapes[id].(memo := r.memo, readAt := r.readAt)
      ensures Now() == old(Now()).(hist := state.trace, scrapes := old(Now()).scrapes - {id},
                                   finished := old(Now()).finished + [r])
      ensures AllRead(r) && PointersValid(r.cached.o)
      ensures out == Output(ScrapeOf(r, monitor.config.maxAge)) && Sound(Now(), r, monitor.config.maxAge, out)
    {
      ghost var more;
      out, r, more := Send(id, scrapes[id]);
      run, scrapes := more, scrapes - {id};
    }

    method Send(id: nat, begun: BegunScrape) returns (out: seq<Metric>, ghost r: Reading, ghost more: seq<System>)
      requires Valid() && id in scrapes && scrapes[id] == begun
      modifies state, state.files, monitor.collector.reader
      ensures state.Valid() && old(run) <= more
      ensures Runs(more, state.trace, monitor.resolves, monitor.collector.current, round, scrapes - {id})
      ensures id in old(Now()).scrapes && r == old(Now()).scrapes[id].(memo := r.memo, readAt := r.readAt)
      ensures Latest(more) == old(Now()).(hist := state.trace, scrapes := old(Now()).scrapes - {id},
                                          finished := old(Now()).finished + [r])
      ensures AllRead(r) && PointersValid(r.cached.o)
      ensures out == Output(ScrapeOf(r, monitor.config.maxAge)) && Sound(Latest(more), r, monitor.config.maxAge, out)
    {
      ScrapesAreCoherent(run, id);
      var memo;
      ghost var readAt;
      out, memo, readAt := monitor.collector.CollectFrom(begun.o, begun.from, begun.now);
      more, r := ScrapeEnds(run, old(state.trace), monitor.resolves, monitor.collector.current, round, scrapes, id,
                            state.trace, memo, readAt);
      LastFinishedIsSound(more, monitor.config.maxAge);
    }
  }

  lemma ScrapesAreCoherent(run: seq<System>, id: nat)
    requires Behaviour(run) && id in Latest(run).scrapes
    ensures PointersValid(Latest(run).scrapes[id].cached.o)
  {
    RunKeeps(run, |run| - 1);
  }
}
