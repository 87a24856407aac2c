/**
  What holds over the sampling rounds of one process: how far apart they start, how long a short file is only
  pending, and how old the ownership behind an exported series can be (internal/monitor/monitor.go).
*/
module SampleRuns {
  import opened Wrappers
  import opened MonitorTypes
  import opened DomainRule
  import opened Observations
  import opened ScrapeRule

  // ---- Starts ----

  /** Each round starts at least one interval after the one before. */
  predicate Spaced(starts: seq<Time>, interval: Time) {
    forall k :: 0 <= k < |starts| - 1 ==> starts[k + 1] - starts[k] >= interval
  }

  /** From the i-th to the j-th start at least j - i intervals pass. */
  lemma {:induction false} StartsSpan(starts: seq<Time>, interval: Time, i: nat, j: nat)
    requires Spaced(starts, interval) && i <= j < |starts|
    ensures starts[j] - starts[i] >= (j - i) * interval
  {
    if i < j {
      StartsSpan(starts, interval, i, j - 1);
      assert (j - i) * interval == (j - 1 - i) * interval + interval;
    }
  }

  // ---- Short files ----

  predicate ReadShort(w: World, path: string) {
    path in ShortFilesUpTo(w, |w.domains|)
  }

  /** The rounds that observed domains, in order: each finds the short files its predecessor left. */
  predicate Chain(worlds: seq<World>, interval: Time) {
    interval > 0
    && (forall k :: 0 <= k < |worlds| ==> worlds[k].interval == interval)
    && (worlds != [] ==> worlds[0].shortFiles == map[])
    && (forall k :: 0 <= k < |worlds| - 1 ==> Follows(worlds[k], worlds[k + 1]))
  }

  predicate Follows(w: World, w': World) {
    w'.shortFiles == ShortFilesUpTo(w, |w.domains|) && w'.now - w.now >= w.interval
  }

  /** The round in which the unbroken run of short reads of this path that includes round `k` began. */
  function RunStart(worlds: seq<World>, k: nat, path: string): (f: nat)
    requires k < |worlds|
    ensures f <= k
  {
    if k > 0 && ReadShort(worlds[k - 1], path) then RunStart(worlds, k - 1, path) else k
  }

  lemma {:induction false} RunStartMeans(worlds: seq<World>, k: nat, path: string)
    requires k < |worlds|
    ensures var f := RunStart(worlds, k, path);
            (f > 0 ==> !ReadShort(worlds[f - 1], path)) && forall j :: f <= j < k ==> ReadShort(worlds[j], path)
  {
    if k > 0 && ReadShort(worlds[k - 1], path) {
      RunStartMeans(worlds, k - 1, path);
    }
  }

  /** The recorded time is always the time of the first round in the current unbroken run. */
  lemma {:induction false} RecordedIsRunStart(worlds: seq<World>, interval: Time, k: nat, path: string)
    requires Chain(worlds, interval) && k < |worlds|
    ensures FirstShort(worlds[k], path) == worlds[RunStart(worlds, k, path)].now
  {
    if k > 0 {
      assert Follows(worlds[k - 1], worlds[k]);
      ShortFilesMean(worlds[k - 1], |worlds[k - 1].domains|, path);
      if ReadShort(worlds[k - 1], path) {
        RecordedIsRunStart(worlds, interval, k - 1, path);
      }
    }
  }

  lemma {:induction false} RoundsSpan(worlds: seq<World>, interval: Time, i: nat, j: nat)
    requires Chain(worlds, interval) && i < j < |worlds|
    ensures worlds[j].now - worlds[i].now >= interval
  {
    assert Follows(worlds[j - 1], worlds[j]);
    if i < j - 1 {
      RoundsSpan(worlds, interval, i, j - 1);
    }
  }

  /**
    A domain whose file is short is pending exactly in the first round of the run and invalid in every later one;
    a round that does not read the file short, a recovery say, starts over.
  */
  lemma ShortIsPendingOnce(worlds: seq<World>, interval: Time, k: nat, i: nat)
    requires Chain(worlds, interval) && k < |worlds| && ReadsShort(worlds[k], i)
    ensures var path := DomainPath(worlds[k].root, worlds[k].domains[i]);
            RuleState(worlds[k], i)
            == if k > 0 && ReadShort(worlds[k - 1], path) then Invalid else State.Pending
  {
    var path := DomainPath(worlds[k].root, worlds[k].domains[i]);
    RecordedIsRunStart(worlds, interval, k, path);
    if k > 0 && ReadShort(worlds[k - 1], path) {
      RoundsSpan(worlds, interval, RunStart(worlds, k, path), k);
    }
  }

  // ---- Ownership ----

  /** One successful resolve of the workloads. */
  datatype Resolve = Resolve(at: Time, workloads: map<string, seq<Consumer>>)

  /** The consumers the monitor holds are those of its last successful resolve. */
  predicate LastResolve(resolves: seq<Resolve>, workloads: map<string, seq<Consumer>>, at: Option<Time>) {
    if resolves == [] then at.None? && workloads == map[]
    else at == Some(resolves[|resolves| - 1].at) && workloads == resolves[|resolves| - 1].workloads
  }

  /**
    Ownership end to end: an exported container series names the one consumer that the last successful resolve gave
    for its claim, and that resolve is at most `maxAge` old at the scrape, however fresh the sample is.
  */
  lemma ExportedIsOwned(x: Scrape, w: World, resolves: seq<Resolve>, k: nat) returns (i: nat)
    requires ObservedFrom(x.o, w) && LastResolve(resolves, w.workloads, w.workloadAt)
    requires PointersValid(x.o) && k < |x.o.samples| && Shown(x, k) && x.o.samples[k].desc >= USED
    ensures resolves != []
    ensures var r := resolves[|resolves| - 1];
            && From(w, i, x.o.samples[k])
            && x.o.domains[x.o.samples[k].domain.value] == ObsOf(w.domains[i], Ready)
            && x.now - r.at <= x.maxAge && w.now - r.at <= w.maxAge
            && w.domains[i].claimUID in r.workloads
            && OneConsumer(r.workloads[w.domains[i].claimUID])
            && Refers(r.workloads[w.domains[i].claimUID], DeviceRef(w.domains[i].pool, w.domains[i].device))
            && Token(x.memo, w.domains[i].claimUID) == w.domains[i].generation != 0
  {
    i := SampleIsOwned(x.o, w, x.o.samples[k]);
  }
}
