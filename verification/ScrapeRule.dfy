/**
  What one scrape shows of a cached observation, given the token it read for each claim: the declarative side of
  the collector (internal/monitor/collector.go).
*/
module ScrapeRule {
  import opened Wrappers
  import opened MonitorTypes
  import opened DomainRule
  import opened Observations

  datatype Metric =
    | Business(desc: nat, value: real, labels: seq<string>)
    | SourceSuccess(source: string, value: real)
    | LastSuccess(source: string, seconds: real)
    | DomainCount(state: State, count: nat)

  const SOURCES: seq<string> := ["devices", "shmem", "workload"]

  const STATES: seq<State> := [Pending, Ready, Unmapped, Ambiguous, Invalid, Stale, Unsupported]

  /** The tokens a scrape has read, one for each claim it asked about. */
  type Memo = map<string, nat>

  /** One scrape: the observation it copied, its clock, the age limit and its memo. */
  datatype Scrape = Scrape(o: Observation, now: Time, maxAge: Time, memo: Memo)

  function Token(memo: Memo, uid: string): nat {
    if uid in memo then memo[uid] else 0
  }

  function Last(o: Observation, source: string): Option<Time> {
    if source in o.last then Some(o.last[source]) else None
  }

  predicate Young(x: Scrape, at: Option<Time>) {
    Within(x.now, at, x.maxAge)
  }

  /** Ownership is as fresh as its last resolve, whatever else is fresh. */
  predicate WorkloadFresh(x: Scrape) {
    Young(x, Last(x.o, "workload"))
  }

  /** A sample's domain is one of the observation's own. */
  predicate PointersValid(o: Observation) {
    forall k :: 0 <= k < |o.samples| && o.samples[k].domain.Some? ==> o.samples[k].domain.value < |o.domains|
  }

  /** The claim of this domain still has the token the snapshot saw. */
  predicate SameToken(x: Scrape, d: DomainObs) {
    d.generation != 0 && Token(x.memo, d.claimUID) == d.generation
  }

  predicate Shown(x: Scrape, k: nat)
    requires PointersValid(x.o) && k < |x.o.samples|
  {
    var s := x.o.samples[k];
    Young(x, s.at) && (s.domain.Some? ==> WorkloadFresh(x) && SameToken(x, x.o.domains[s.domain.value]))
  }

  function SeriesOf(s: Sample): Metric {
    Business(s.desc, s.value, s.labels)
  }

  function ShownUpTo(x: Scrape, n: nat): seq<Metric>
    requires PointersValid(x.o) && n <= |x.o.samples|
  {
    if n == 0 then [] else ShownUpTo(x, n - 1) + if Shown(x, n - 1) then [SeriesOf(x.o.samples[n - 1])] else []
  }

  function SourceMetrics(x: Scrape, source: string): seq<Metric> {
    var at := Last(x.o, source);
    var good := source in x.o.ok && x.o.ok[source] && Young(x, at);
    [SourceSuccess(source, if good then 1.0 else 0.0),
     LastSuccess(source, if at.None? then 0.0 else (at.value / 1_000_000_000) as real)]
  }

  function SourcesUpTo(x: Scrape, n: nat): seq<Metric>
    requires n <= |SOURCES|
  {
    if n == 0 then [] else SourcesUpTo(x, n - 1) + SourceMetrics(x, SOURCES[n - 1])
  }

  /** The state a scrape counts a domain under: its own, unless something went stale since. */
  function CountedState(x: Scrape, d: DomainObs): State {
    if !Young(x, x.o.at) || Token(x.memo, d.claimUID) != d.generation || (!WorkloadFresh(x) && d.state != Unsupported)
    then Stale else d.state
  }

  /** The domain is counted under this state; a claim without token is not counted at all. */
  predicate Counted(x: Scrape, d: DomainObs, state: State) {
    Token(x.memo, d.claimUID) != 0 && CountedState(x, d) == state
  }

  function CountUpTo(x: Scrape, state: State, n: nat): nat
    requires n <= |x.o.domains|
  {
    if n == 0 then 0 else CountUpTo(x, state, n - 1) + if Counted(x, x.o.domains[n - 1], state) then 1 else 0
  }

  function StatesUpTo(x: Scrape, n: nat): (counts: seq<Metric>)
    requires n <= |STATES|
    ensures |counts| == n
  {
    if n == 0 then []
    else StatesUpTo(x, n - 1) + [DomainCount(STATES[n - 1], CountUpTo(x, STATES[n - 1], |x.o.domains|))]
  }

  /** Everything the scrape sends, in order. */
  function Output(x: Scrape): seq<Metric>
    requires PointersValid(x.o)
  {
    ShownUpTo(x, |x.o.samples|) + SourcesUpTo(x, |SOURCES|) + StatesUpTo(x, |STATES|)
  }

  // ---- One scrape is coherent ----

  /** The number of series of one business metric. */
  function Series(out: seq<Metric>, desc: nat): nat {
    if out == [] then 0
    else
      var m := out[|out| - 1];
      Series(out[..|out| - 1], desc) + if m.Business? && m.desc == desc then 1 else 0
  }

  lemma {:induction false} SeriesOfSum(a: seq<Metric>, b: seq<Metric>, desc: nat)
    ensures Series(a + b, desc) == Series(a, desc) + Series(b, desc)
  {
    if b == [] {
      assert a + b == a;
    } else {
      SeriesOfSum(a, b[..|b| - 1], desc);
      assert (a + b)[..|a + b| - 1] == a + b[..|b| - 1];
    }
  }

  lemma {:induction false} NoSeries(out: seq<Metric>, desc: nat)
    requires forall k :: 0 <= k < |out| ==> !out[k].Business?
    ensures Series(out, desc) == 0
  {
    if out != [] {
      NoSeries(out[..|out| - 1], desc);
    }
  }

  /** A ready domain that this scrape still shows. */
  predicate Visible(x: Scrape, p: nat) {
    p < |x.o.domains| && Young(x, x.o.at) && WorkloadFresh(x) && SameToken(x, x.o.domains[p])
  }

  function VisibleCount(x: Scrape, ps: seq<nat>): nat {
    if ps == [] then 0 else VisibleCount(x, ps[..|ps| - 1]) + if Visible(x, ps[|ps| - 1]) then 1 else 0
  }

  lemma VisibleOneMore(x: Scrape, ps: seq<nat>, p: nat)
    ensures VisibleCount(x, ps + [p]) == VisibleCount(x, ps) + if Visible(x, p) then 1 else 0
  {
    assert (ps + [p])[..|ps|] == ps;
  }

  lemma VisibleStep(x: Scrape, n: nat)
    requires 0 < n <= |x.o.samples| && SampleFits(x.o, x.o.samples[n - 1])
    ensures var s := x.o.samples[n - 1];
            VisibleCount(x, UsedDomains(x.o.samples[..n])) ==
            VisibleCount(x, UsedDomains(x.o.samples[..n - 1]))
              + if s.desc == USED && Visible(x, s.domain.value) then 1 else 0
  {
    var samples, s := x.o.samples, x.o.samples[n - 1];
    assert samples[..n][..n - 1] == samples[..n - 1];
    if s.desc == USED {
      VisibleOneMore(x, UsedDomains(samples[..n - 1]), s.domain.value);
    } else {
      assert UsedDomains(samples[..n]) == UsedDomains(samples[..n - 1]);
    }
  }

  lemma ShownIffVisible(x: Scrape, k: nat)
    requires PointersValid(x.o) && k < |x.o.samples| && SampleFits(x.o, x.o.samples[k])
    requires x.o.samples[k].desc == USED
    ensures Shown(x, k) <==> Visible(x, x.o.samples[k].domain.value)
  {
  }

  lemma SeriesStep(x: Scrape, n: nat, desc: nat)
    requires PointersValid(x.o) && 0 < n <= |x.o.samples|
    ensures Series(ShownUpTo(x, n), desc)
         == Series(ShownUpTo(x, n - 1), desc) + if Shown(x, n - 1) && x.o.samples[n - 1].desc == desc then 1 else 0
  {
    var front, m := ShownUpTo(x, n - 1), SeriesOf(x.o.samples[n - 1]);
    assert (front + [m])[..|front|] == front && front + [] == front;
  }

  lemma {:induction false} UsedSeries(x: Scrape, n: nat)
    requires PointersValid(x.o) && n <= |x.o.samples| && forall k :: 0 <= k < n ==> SampleFits(x.o, x.o.samples[k])
    ensures Series(ShownUpTo(x, n), USED) == VisibleCount(x, UsedDomains(x.o.samples[..n]))
  {
    if n > 0 {
      UsedSeries(x, n - 1);
      SeriesStep(x, n, USED);
      VisibleStep(x, n);
      if x.o.samples[n - 1].desc == USED {
        ShownIffVisible(x, n - 1);
      }
    }
  }

  lemma ReadyStep(x: Scrape, n: nat)
    requires 0 < n <= |x.o.domains|
    ensures VisibleCount(x, ReadyDomains(x.o.domains[..n])) ==
            VisibleCount(x, ReadyDomains(x.o.domains[..n - 1]))
              + if x.o.domains[n - 1].state == Ready && Visible(x, n - 1) then 1 else 0
  {
    assert x.o.domains[..n][..n - 1] == x.o.domains[..n - 1];
    if x.o.domains[n - 1].state == Ready {
      VisibleOneMore(x, ReadyDomains(x.o.domains[..n - 1]), n - 1);
    } else {
      assert ReadyDomains(x.o.domains[..n]) == ReadyDomains(x.o.domains[..n - 1]);
    }
  }

  lemma CountedIffVisible(x: Scrape, p: nat)
    requires p < |x.o.domains|
    ensures Counted(x, x.o.domains[p], Ready) <==> x.o.domains[p].state == Ready && Visible(x, p)
  {
  }

  lemma {:induction false} ReadyCount(x: Scrape, n: nat)
    requires n <= |x.o.domains|
    ensures CountUpTo(x, Ready, n) == VisibleCount(x, ReadyDomains(x.o.domains[..n]))
  {
    if n > 0 {
      ReadyCount(x, n - 1);
      ReadyStep(x, n);
      CountedIffVisible(x, n - 1);
    }
  }

  lemma CoherentPointers(o: Observation)
    requires Coherent(o)
    ensures PointersValid(o)
  {
    forall k | 0 <= k < |o.samples| && o.samples[k].domain.Some? ensures o.samples[k].domain.value < |o.domains| {
      assert SampleFits(o, o.samples[k]);
    }
  }

  lemma OnlyShownAreSeries(x: Scrape, desc: nat)
    requires PointersValid(x.o)
    ensures Series(Output(x), desc) == Series(ShownUpTo(x, |x.o.samples|), desc)
  {
    var shown, rest := ShownUpTo(x, |x.o.samples|), SourcesUpTo(x, |SOURCES|) + StatesUpTo(x, |STATES|);
    assert Output(x) == shown + rest;
    SourcesAreNoSeries(x, |SOURCES|);
    StatesAt(x, |STATES|);
    NoSeries(rest, desc);
    SeriesOfSum(shown, rest, desc);
  }

  lemma {:induction false} SourcesAreNoSeries(x: Scrape, n: nat)
    requires n <= |SOURCES|
    ensures forall k :: 0 <= k < |SourcesUpTo(x, n)| ==> !SourcesUpTo(x, n)[k].Business?
  {
    if n > 0 {
      SourcesAreNoSeries(x, n - 1);
    }
  }

  lemma {:induction false} StatesAt(x: Scrape, n: nat)
    requires n <= |STATES|
    ensures forall k :: 0 <= k < n ==>
              StatesUpTo(x, n)[k] == DomainCount(STATES[k], CountUpTo(x, STATES[k], |x.o.domains|))
  {
    if n > 0 {
      StatesAt(x, n - 1);
    }
  }

  /** The scrape exports one count for each of the seven states, and it is the rule's. */
  lemma CountExported(x: Scrape, state: State, n: nat)
    requires PointersValid(x.o)
    ensures DomainCount(state, n) in Output(x) <==> state in STATES && n == CountUpTo(x, state, |x.o.domains|)
  {
    var m, counts := DomainCount(state, n), StatesUpTo(x, |STATES|);
    ShownIsBusiness(x, |x.o.samples|);
    SourcesAreNoCounts(x, |SOURCES|);
    StatesAt(x, |STATES|);
    assert m in Output(x) <==> m in counts;
    if state in STATES {
      var k :| 0 <= k < |STATES| && STATES[k] == state;
      assert counts[k] == DomainCount(state, CountUpTo(x, state, |x.o.domains|));
    }
  }

  /** The exported "ready" count is the number of used-bytes series in the same scrape. */
  lemma ReadyMatchesSeries(x: Scrape)
    requires Coherent(x.o)
    ensures PointersValid(x.o)
    ensures forall n: nat :: DomainCount(Ready, n) in Output(x) <==> n == Series(Output(x), USED)
  {
    CoherentPointers(x.o);
    UsedSeries(x, |x.o.samples|);
    assert x.o.samples[..|x.o.samples|] == x.o.samples;
    ReadyCount(x, |x.o.domains|);
    assert x.o.domains[..|x.o.domains|] == x.o.domains;
    OnlyShownAreSeries(x, USED);
    assert STATES[1] == Ready;
    forall n: nat ensures DomainCount(Ready, n) in Output(x) <==> n == Series(Output(x), USED) {
      CountExported(x, Ready, n);
    }
  }

  // ---- The three sources ----

  /** A timestamp in whole seconds, rounded down. */
  predicate WholeSeconds(seconds: real, at: Time) {
    seconds == seconds.Floor as real && seconds.Floor * 1_000_000_000 <= at < (seconds.Floor + 1) * 1_000_000_000
  }

  /**
    What a scrape reports of a source: it is up exactly when its latest collection worked and its last success is
    young enough, and its timestamp is that of the last success, or zero before the first.
  */
  predicate ReportsSource(x: Scrape, source: string, success: Metric, stamp: Metric) {
    success.SourceSuccess? && success.source == source && (success.value == 1.0 || success.value == 0.0)
    && (success.value == 1.0 <==> source in x.o.ok && x.o.ok[source] && Young(x, Last(x.o, source)))
    && stamp.LastSuccess? && stamp.source == source
    && match Last(x.o, source)
       case None => stamp.seconds == 0.0
       case Some(at) => WholeSeconds(stamp.seconds, at)
  }

  lemma {:induction false} SourcesAt(x: Scrape, n: nat, k: nat)
    requires k < n <= |SOURCES|
    ensures |SourcesUpTo(x, n)| == 2 * n
    ensures SourcesUpTo(x, n)[2 * k..2 * k + 2] == SourceMetrics(x, SOURCES[k])
  {
    var front, last := SourcesUpTo(x, n - 1), SourceMetrics(x, SOURCES[n - 1]);
    if n > 1 {
      SourcesAt(x, n - 1, if k < n - 1 then k else 0);
    }
    assert |front| == 2 * (n - 1) && |last| == 2 && SourcesUpTo(x, n) == front + last;
    if k < n - 1 {
      SliceOfFront(front, last, 2 * k, 2 * k + 2);
    } else {
      SliceOfBack(front, last);
    }
  }

  /** The three sources are reported once each, in order. */
  lemma SourcesReported(x: Scrape)
    ensures |SourcesUpTo(x, |SOURCES|)| == 6
    ensures forall k :: 0 <= k < 3 ==>
              ReportsSource(x, SOURCES[k], SourcesUpTo(x, |SOURCES|)[2 * k], SourcesUpTo(x, |SOURCES|)[2 * k + 1])
  {
    SourcesAt(x, 3, 0);
    forall k | 0 <= k < 3
      ensures ReportsSource(x, SOURCES[k], SourcesUpTo(x, 3)[2 * k], SourcesUpTo(x, 3)[2 * k + 1])
    {
      SourcesAt(x, 3, k);
      var pair := SourcesUpTo(x, 3)[2 * k..2 * k + 2];
      assert pair[0] == SourcesUpTo(x, 3)[2 * k] && pair[1] == SourcesUpTo(x, 3)[2 * k + 1];
    }
  }

  // ---- The seven counts ----

  /** Domains among the first `n` whose claim read a token. */
  function AliveUpTo(x: Scrape, n: nat): nat
    requires n <= |x.o.domains|
  {
    if n == 0 then 0 else AliveUpTo(x, n - 1) + if Token(x.memo, x.o.domains[n - 1].claimUID) != 0 then 1 else 0
  }

  function SumOfCounts(out: seq<Metric>): nat {
    if out == [] then 0
    else
      var m := out[|out| - 1];
      SumOfCounts(out[..|out| - 1]) + if m.DomainCount? then m.count else 0
  }

  function Total(x: Scrape, n: nat): nat
    requires n <= |x.o.domains|
  {
    CountUpTo(x, Pending, n) + CountUpTo(x, Ready, n) + CountUpTo(x, Unmapped, n) + CountUpTo(x, Ambiguous, n)
    + CountUpTo(x, Invalid, n) + CountUpTo(x, Stale, n) + CountUpTo(x, Unsupported, n)
  }

  lemma {:induction false} TotalIsAlive(x: Scrape, n: nat)
    requires n <= |x.o.domains| && forall p :: 0 <= p < n ==> x.o.domains[p].state != Unset
    ensures Total(x, n) == AliveUpTo(x, n)
  {
    if n > 0 {
      TotalIsAlive(x, n - 1);
    }
  }

  lemma {:induction false} SumOfSum(a: seq<Metric>, b: seq<Metric>)
    ensures SumOfCounts(a + b) == SumOfCounts(a) + SumOfCounts(b)
  {
    if b == [] {
      assert a + b == a;
    } else {
      SumOfSum(a, b[..|b| - 1]);
      assert (a + b)[..|a + b| - 1] == a + b[..|b| - 1];
    }
  }

  lemma {:induction false} SumOfNone(out: seq<Metric>)
    requires forall k :: 0 <= k < |out| ==> !out[k].DomainCount?
    ensures SumOfCounts(out) == 0
  {
    if out != [] {
      SumOfNone(out[..|out| - 1]);
    }
  }

  lemma StatesSum(x: Scrape)
    ensures SumOfCounts(StatesUpTo(x, |STATES|)) == Total(x, |x.o.domains|)
  {
    StateSumStep(x, 0);
    StateSumStep(x, 1);
    StateSumStep(x, 2);
    StateSumStep(x, 3);
    StateSumStep(x, 4);
    StateSumStep(x, 5);
    StateSumStep(x, 6);
  }

  lemma StateSumStep(x: Scrape, n: nat)
    requires n < |STATES|
    ensures SumOfCounts(StatesUpTo(x, n + 1))
            == (if n == 0 then 0 else SumOfCounts(StatesUpTo(x, n))) + CountUpTo(x, STATES[n], |x.o.domains|)
  {
    var counts := StatesUpTo(x, n + 1);
    assert counts[..|counts| - 1] == StatesUpTo(x, n);
  }

  lemma {:induction false} ShownIsBusiness(x: Scrape, n: nat)
    requires PointersValid(x.o) && n <= |x.o.samples|
    ensures forall k :: 0 <= k < |ShownUpTo(x, n)| ==> ShownUpTo(x, n)[k].Business?
  {
    if n > 0 {
      ShownIsBusiness(x, n - 1);
    }
  }

  lemma {:induction false} SourcesAreNoCounts(x: Scrape, n: nat)
    requires n <= |SOURCES|
    ensures forall k :: 0 <= k < |SourcesUpTo(x, n)| ==> !SourcesUpTo(x, n)[k].DomainCount?
  {
    if n > 0 {
      SourcesAreNoCounts(x, n - 1);
    }
  }

  /** The seven exported counts add up to the observed domains whose claim read a token. */
  lemma CountsSumToAlive(x: Scrape)
    requires Coherent(x.o)
    ensures PointersValid(x.o) && SumOfCounts(Output(x)) == AliveUpTo(x, |x.o.domains|)
  {
    CoherentPointers(x.o);
    var shown, sources, counts := ShownUpTo(x, |x.o.samples|), SourcesUpTo(x, |SOURCES|), StatesUpTo(x, |STATES|);
    ShownIsBusiness(x, |x.o.samples|);
    SourcesAreNoCounts(x, |SOURCES|);
    SumOfNone(shown + sources);
    SumOfSum(shown + sources, counts);
    StatesSum(x);
    TotalIsAlive(x, |x.o.domains|);
  }

  // ---- What is shown ----

  /** Every series comes from a sample this scrape shows. */
  lemma {:induction false} SeriesFrom(x: Scrape, n: nat, k: nat) returns (i: nat)
    requires PointersValid(x.o) && n <= |x.o.samples| && k < |ShownUpTo(x, n)|
    ensures i < n && Shown(x, i) && ShownUpTo(x, n)[k] == SeriesOf(x.o.samples[i])
  {
    if k < |ShownUpTo(x, n - 1)| {
      i := SeriesFrom(x, n - 1, k);
    } else {
      i := n - 1;
    }
  }

  /** Every sample this scrape shows has its series. */
  lemma {:induction false} ShownHasSeries(x: Scrape, n: nat, i: nat)
    requires PointersValid(x.o) && i < n <= |x.o.samples| && Shown(x, i)
    ensures SeriesOf(x.o.samples[i]) in ShownUpTo(x, n)
  {
    if i < n - 1 {
      ShownHasSeries(x, n - 1, i);
    }
  }

  /** No scrape exports two container series with the same metric and labels. */
  lemma {:induction false} SeriesNeverRepeat(x: Scrape, n: nat, a: nat, b: nat)
    requires PointersValid(x.o) && n <= |x.o.samples| && SeriesDistinct(x.o.samples)
    requires a < b < |ShownUpTo(x, n)| && ShownUpTo(x, n)[a].Business? && ShownUpTo(x, n)[b].Business?
    requires ShownUpTo(x, n)[a].desc >= USED
    ensures ShownUpTo(x, n)[a].desc != ShownUpTo(x, n)[b].desc || ShownUpTo(x, n)[a].labels != ShownUpTo(x, n)[b].labels
  {
    if b < |ShownUpTo(x, n - 1)| {
      SeriesNeverRepeat(x, n - 1, a, b);
    } else {
      var i := SeriesFrom(x, n - 1, a);
      assert !SameSeries(x.o.samples[i], x.o.samples[n - 1]);
    }
  }
}
