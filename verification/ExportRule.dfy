/**
  What a scrape exports, told of the observation it copied and the tokens it read alone (internal/monitor/collector.go).
*/
module ExportRule {
  import opened Wrappers
  import opened DomainRule
  import opened ScrapeRule

  // ---- The counts ----

  /** This scrape read a token for the claim of the domain at `p`. */
  predicate AliveAt(x: Scrape, p: nat)
    requires p < |x.o.domains|
  {
    x.o.domains[p].claimUID in x.memo && x.memo[x.o.domains[p].claimUID] != 0
  }

  /** What was observed of the domain at `p` still holds: nothing it rests on is too old, and the claim is the same. */
  predicate CurrentAt(x: Scrape, p: nat)
    requires p < |x.o.domains| && AliveAt(x, p)
  {
    && x.o.at.Some? && x.now - x.o.at.value <= x.maxAge
    && x.memo[x.o.domains[p].claimUID] == x.o.domains[p].generation
    && (x.o.domains[p].state == Unsupported || ("workload" in x.o.last && x.now - x.o.last["workload"] <= x.maxAge))
  }

  /** The positions a scrape counts under a state: those that still hold by their own, and as stale all that do not. */
  function InState(x: Scrape, state: State): set<nat> {
    set p: nat | p < |x.o.domains| && AliveAt(x, p)
                 && if state == Stale then !CurrentAt(x, p) || x.o.domains[p].state == Stale
                    else CurrentAt(x, p) && x.o.domains[p].state == state
  }

  /** One count for each of the seven states, and it is the number of those positions. */
  ghost predicate ExactCounts(x: Scrape, out: seq<Metric>) {
    (forall state, n: nat :: DomainCount(state, n) in out <==> state != Unset && n == |InState(x, state)|)
    && forall a, b :: 0 <= a < b < |out| && out[a].DomainCount? && out[b].DomainCount? ==> out[a].state != out[b].state
  }

  function InStateBelow(x: Scrape, state: State, n: nat): set<nat>
    requires n <= |x.o.domains|
  {
    set p | p in InState(x, state) && p < n
  }

  lemma CountedIsInState(x: Scrape, state: State, p: nat)
    requires p < |x.o.domains|
    ensures Counted(x, x.o.domains[p], state) <==> p in InState(x, state)
  {
  }

  lemma OneMoreBelow(x: Scrape, state: State, n: nat)
    requires n < |x.o.domains|
    ensures var before := InStateBelow(x, state, n);
            n !in before && InStateBelow(x, state, n + 1) == if n in InState(x, state) then before + {n} else before
  {
  }

  lemma {:induction false} CountIsSize(x: Scrape, state: State, n: nat)
    requires n <= |x.o.domains|
    ensures CountUpTo(x, state, n) == |InStateBelow(x, state, n)|
  {
    if n == 0 {
      assert InStateBelow(x, state, 0) == {};
    } else {
      CountIsSize(x, state, n - 1);
      CountedIsInState(x, state, n - 1);
      OneMoreBelow(x, state, n - 1);
    }
  }

  lemma CountIsNumber(x: Scrape, state: State)
    ensures CountUpTo(x, state, |x.o.domains|) == |InState(x, state)|
  {
    CountIsSize(x, state, |x.o.domains|);
    assert InStateBelow(x, state, |x.o.domains|) == InState(x, state);
  }

  lemma CountsAreExact(x: Scrape)
    requires PointersValid(x.o)
    ensures ExactCounts(x, Output(x))
  {
    forall state, n: nat
      ensures DomainCount(state, n) in Output(x) <==> state != Unset && n == |InState(x, state)|
    {
      CountExported(x, state, n);
      CountIsNumber(x, state);
      EveryStateListed(state);
    }
    forall a, b | 0 <= a < b < |Output(x)| && Output(x)[a].DomainCount? && Output(x)[b].DomainCount?
      ensures Output(x)[a].state != Output(x)[b].state
    {
      var i := CountAt(x, a);
      var j := CountAt(x, b);
      assert i < j;
      StatesListedOnce(i, j);
    }
  }

  lemma StatesListedOnce(i: nat, j: nat)
    requires i < j < |STATES|
    ensures STATES[i] != STATES[j]
  {
  }

  lemma EveryStateListed(state: State)
    ensures state in STATES <==> state != Unset
  {
    assert STATES[0] == Pending && STATES[1] == Ready && STATES[2] == Unmapped && STATES[3] == Ambiguous;
    assert STATES[4] == Invalid && STATES[5] == Stale && STATES[6] == Unsupported;
  }

  /** Where in the list of states an exported count comes from. */
  lemma CountAt(x: Scrape, a: nat) returns (i: nat)
    requires PointersValid(x.o) && a < |Output(x)| && Output(x)[a].DomainCount?
    ensures i < |STATES| && Output(x)[a].state == STATES[i]
    ensures a == |ShownUpTo(x, |x.o.samples|)| + |SourcesUpTo(x, |SOURCES|)| + i
  {
    ShownIsBusiness(x, |x.o.samples|);
    SourcesAreNoCounts(x, |SOURCES|);
    StatesAt(x, |STATES|);
    var shown, sources := ShownUpTo(x, |x.o.samples|), SourcesUpTo(x, |SOURCES|);
    assert a >= |shown + sources|;
    i := a - |shown + sources|;
    assert Output(x)[a] == StatesUpTo(x, |STATES|)[i];
  }

  // ---- The series ----

  /** This scrape shows the sample at `k`: it is young, so is its ownership, and its claim still has the same token. */
  predicate ShownAt(x: Scrape, k: nat)
    requires PointersValid(x.o) && k < |x.o.samples|
  {
    var s := x.o.samples[k];
    && s.at.Some? && x.now - s.at.value <= x.maxAge
    && (s.domain.Some? ==>
          && "workload" in x.o.last && x.now - x.o.last["workload"] <= x.maxAge
          && x.o.domains[s.domain.value].generation != 0 && AliveAt(x, s.domain.value)
          && x.memo[x.o.domains[s.domain.value].claimUID] == x.o.domains[s.domain.value].generation)
  }

  predicate SampleIs(x: Scrape, k: nat, desc: nat, value: real, labels: seq<string>)
    requires k < |x.o.samples|
  {
    x.o.samples[k].desc == desc && x.o.samples[k].value == value && x.o.samples[k].labels == labels
  }

  /** The series are those of the samples it shows. */
  ghost predicate ExactSeries(x: Scrape, out: seq<Metric>)
    requires PointersValid(x.o)
  {
    forall desc: nat, value, labels :: Business(desc, value, labels) in out <==>
      exists k :: 0 <= k < |x.o.samples| && SampleIs(x, k, desc, value, labels) && ShownAt(x, k)
  }

  lemma SeriesAreExact(x: Scrape)
    requires PointersValid(x.o)
    ensures ExactSeries(x, Output(x))
  {
    var n := |x.o.samples|;
    forall desc: nat, value, labels
      ensures Business(desc, value, labels) in Output(x) <==>
              exists k :: 0 <= k < n && SampleIs(x, k, desc, value, labels) && ShownAt(x, k)
    {
      var m := Business(desc, value, labels);
      if m in Output(x) {
        var k := ShownSample(x, m);
        assert SampleIs(x, k, desc, value, labels) && ShownAt(x, k);
      }
      if k: nat :| k < n && SampleIs(x, k, desc, value, labels) && ShownAt(x, k) {
        ShownHasSeries(x, n, k);
      }
    }
  }

  lemma ShownSample(x: Scrape, m: Metric) returns (k: nat)
    requires PointersValid(x.o) && m.Business? && m in Output(x)
    ensures k < |x.o.samples| && Shown(x, k) && m == SeriesOf(x.o.samples[k])
  {
    SourcesAreNoSeries(x, |SOURCES|);
    StatesAt(x, |STATES|);
    assert m in ShownUpTo(x, |x.o.samples|);
    var at :| 0 <= at < |ShownUpTo(x, |x.o.samples|)| && ShownUpTo(x, |x.o.samples|)[at] == m;
    k := SeriesFrom(x, |x.o.samples|, at);
  }

  // ---- The sources ----

  /** The last collection of this source worked, and its last success is young. */
  predicate Up(x: Scrape, source: string) {
    source in x.o.ok && x.o.ok[source] && source in x.o.last && x.now - x.o.last[source] <= x.maxAge
  }

  /** Each of the three sources is reported once as up or down, and with the whole seconds of its last success. */
  ghost predicate ExactSources(x: Scrape, out: seq<Metric>) {
    (forall source, value :: SourceSuccess(source, value) in out <==>
       source in ["devices", "shmem", "workload"] && value == if Up(x, source) then 1.0 else 0.0)
    && forall source, seconds :: LastSuccess(source, seconds) in out <==>
         source in ["devices", "shmem", "workload"]
         && seconds == if source in x.o.last then (x.o.last[source] / 1_000_000_000) as real else 0.0
  }

  lemma SourcesAreExact(x: Scrape)
    requires PointersValid(x.o)
    ensures ExactSources(x, Output(x))
  {
    forall source, value
      ensures SourceSuccess(source, value) in Output(x) <==>
              source in ["devices", "shmem", "workload"] && value == if Up(x, source) then 1.0 else 0.0
    {
      SourceIsSent(x, SourceSuccess(source, value));
    }
    forall source, seconds
      ensures LastSuccess(source, seconds) in Output(x) <==>
              source in ["devices", "shmem", "workload"]
              && seconds == if source in x.o.last then (x.o.last[source] / 1_000_000_000) as real else 0.0
    {
      SourceIsSent(x, LastSuccess(source, seconds));
    }
  }

  lemma SourceIsSent(x: Scrape, m: Metric)
    requires PointersValid(x.o) && (m.SourceSuccess? || m.LastSuccess?)
    ensures m in Output(x) <==> m.source in ["devices", "shmem", "workload"] && m in SourceMetrics(x, m.source)
  {
    ShownIsBusiness(x, |x.o.samples|);
    StatesAt(x, |STATES|);
    SourcesSpelledOut(x);
    assert m in Output(x) <==> m in SourcesUpTo(x, 3);
  }

  lemma SourcesSpelledOut(x: Scrape)
    ensures SourcesUpTo(x, 3) == SourceMetrics(x, "devices") + SourceMetrics(x, "shmem") + SourceMetrics(x, "workload")
  {
    assert SourcesUpTo(x, 1) == SourceMetrics(x, "devices");
    assert SourcesUpTo(x, 2) == SourcesUpTo(x, 1) + SourceMetrics(x, "shmem");
  }

  /** Everything a scrape sends. */
  ghost predicate Exact(x: Scrape, out: seq<Metric>)
    requires PointersValid(x.o)
  {
    ExactSeries(x, out) && ExactSources(x, out) && ExactCounts(x, out)
  }

  lemma OutputIsExact(x: Scrape)
    requires PointersValid(x.o)
    ensures Exact(x, Output(x))
  {
    SeriesAreExact(x);
    SourcesAreExact(x);
    CountsAreExact(x);
  }
}
