/**
  collector.Collect: a scrape of the cached observation that reads claim tokens without the lifecycle lock, so
  that lifecycle steps may fall between any two of its reads (internal/monitor/collector.go).
*/
module Collector {
  import opened Wrappers
  import opened MonitorTypes
  import opened DomainRule
  import opened Observations
  import opened ScrapeRule
  import opened ExportRule
  import opened TokenProtocol
  import opened CorePrepare
  import opened Lifecycle

  /** The driver's token table as a reader without lock sees it: each load finds some state at or after the last one. */
  class TokenReader {
    const state: DeviceState
    // The position in the driver's history that the last load saw.
    var at: nat

    ghost predicate Valid()
      reads this, state, state.files
    {
      state.Valid() && at < |state.trace|
    }

    constructor (state: DeviceState)
      requires state.Valid()
      ensures Valid() && this.state == state
    {
      this.state, at := state, |state.trace| - 1;
    }

    /** Nothing older than this moment is seen from here on. */
    method Begin(from: nat)
      requires state.Valid() && from < |state.trace|
      modifies this
      ensures Valid() && at == from
    {
      at := from;
    }

    /**
      metricsGeneration: lifecycle operations go on, then one atomic load sees a state from before, within or after
      them.
    */
    method Load(uid: string) returns (v: nat)
      requires Valid()
      modifies this, state, state.files
      ensures Valid() && old(state.trace) <= state.trace && old(at) <= at && v == Read(state.trace[at], uid)
    {
      Interleave(state);
      var k: int := *;
      at := if at <= k < |state.trace| then k else |state.trace| - 1;
      v := Read(state.trace[at], uid);
    }
  }

  /** Any number of lifecycle operations on any claims, with any I/O outcomes. */
  method Interleave(state: DeviceState)
    requires state.Valid()
    modifies state, state.files
    ensures state.Valid() && old(state.trace) <= state.trace
  {
    var steps: int := *;
    while steps > 0
      invariant state.Valid() && old(state.trace) <= state.trace
    {
      InterleaveOne(state);
      steps := steps - 1;
    }
  }

  method InterleaveOne(state: DeviceState)
    requires state.Valid()
    modifies state, state.files
    ensures state.Valid() && old(state.trace) <= state.trace
  {
    var claim: Claim := *;
    var prepares: bool := *;
    if prepares {
      var result := state.Prepare(claim);
    } else {
      var result := state.Unprepare(claim.uid);
    }
  }

  /** Every token in the memo was read at some moment from `lo` on, for a claim the observation has. */
  ghost predicate ReadSince(hist: seq<Tokens>, lo: int, o: Observation, memo: Memo, readAt: map<string, nat>) {
    readAt.Keys == memo.Keys
    && forall uid {:trigger ReadAt(hist, lo, o, uid, memo[uid], readAt[uid])} ::
         uid in memo ==> ReadAt(hist, lo, o, uid, memo[uid], readAt[uid])
  }

  predicate ReadAt(hist: seq<Tokens>, lo: int, o: Observation, uid: string, v: nat, at: nat) {
    lo <= at < |hist| && v == Read(hist[at], uid) && Observes(o, uid)
  }

  lemma ReadSinceGrows(
      hist: seq<Tokens>, hist': seq<Tokens>, lo: int, o: Observation, memo: Memo, readAt: map<string, nat>)
    requires hist <= hist' && ReadSince(hist, lo, o, memo, readAt)
    ensures ReadSince(hist', lo, o, memo, readAt)
  {
    forall uid | uid in memo ensures ReadAt(hist', lo, o, uid, memo[uid], readAt[uid]) {
      assert ReadAt(hist, lo, o, uid, memo[uid], readAt[uid]);
    }
  }

  // ---- The memo while it fills ----

  predicate Extends(memo: Memo, memo': Memo) {
    forall uid :: uid in memo ==> uid in memo' && memo'[uid] == memo[uid]
  }

  /** Deciding about this sample needs its claim's token. */
  predicate Asks(x: Scrape, k: nat)
    requires PointersValid(x.o) && k < |x.o.samples|
  {
    var s := x.o.samples[k];
    Young(x, s.at) && s.domain.Some? && WorkloadFresh(x) && x.o.domains[s.domain.value].generation != 0
  }

  /** The memo answers for the first `n` samples. */
  predicate Answers(x: Scrape, n: nat)
    requires PointersValid(x.o) && n <= |x.o.samples|
  {
    forall k :: 0 <= k < n && Asks(x, k) ==> x.o.domains[x.o.samples[k].domain.value].claimUID in x.memo
  }

  /** A memo that answers may grow without changing what is shown. */
  lemma {:induction false} MemoGrows(x: Scrape, memo: Memo, n: nat)
    requires PointersValid(x.o) && n <= |x.o.samples| && Answers(x, n)
    requires Extends(x.memo, memo)
    ensures ShownUpTo(x.(memo := memo), n) == ShownUpTo(x, n) && Answers(x.(memo := memo), n)
  {
    if n > 0 {
      MemoGrows(x, memo, n - 1);
      assert Asks(x, n - 1) ==> Shown(x.(memo := memo), n - 1) == Shown(x, n - 1);
    }
  }

  /** The memo answers for the first `n` domains. */
  predicate Knows(x: Scrape, n: nat)
    requires n <= |x.o.domains|
  {
    forall p :: 0 <= p < n ==> x.o.domains[p].claimUID in x.memo
  }

  lemma {:induction false} CountsGrow(x: Scrape, memo: Memo, state: State, n: nat)
    requires n <= |x.o.domains| && Knows(x, n)
    requires Extends(x.memo, memo)
    ensures CountUpTo(x.(memo := memo), state, n) == CountUpTo(x, state, n)
  {
    if n > 0 {
      CountsGrow(x, memo, state, n - 1);
    }
  }

  class Collector {
    var current: Observation
    const maxAge: Time
    const reader: TokenReader

    constructor (maxAge: Time, reader: TokenReader)
      ensures this.maxAge == maxAge && this.reader == reader
      ensures current == Observation([], [], map[], map[], None)
    {
      this.maxAge, this.reader := maxAge, reader;
      current := Observation([], [], map[], map[], None);
    }

    /** What a scrape that began at `lo` has read of the observation `o` so far. */
    ghost predicate Reading(lo: nat, o: Observation, memo: Memo, readAt: map<string, nat>)
      reads reader, reader.state, reader.state.files
    {
      reader.Valid() && lo <= reader.at && ReadSince(reader.state.trace, lo, o, memo, readAt)
    }

    /** The closure with the memo: each claim's token is loaded at most once in a scrape. */
    method Generation(uid: string, versions: Memo, ghost lo: nat, ghost o: Observation, ghost readAt: map<string, nat>)
      returns (v: nat, versions': Memo, ghost readAt': map<string, nat>)
      requires Reading(lo, o, versions, readAt) && Observes(o, uid)
      modifies reader, reader.state, reader.state.files
      ensures Reading(lo, o, versions', readAt') && old(reader.state.trace) <= reader.state.trace
      ensures uid in versions' && v == versions'[uid]
      ensures Extends(versions, versions')
    {
      if uid in versions {
        return versions[uid], versions, readAt;
      }
      v := reader.Load(uid);
      ReadSinceGrows(old(reader.state.trace), reader.state.trace, lo, o, versions, readAt);
      versions', readAt' := versions[uid := v], readAt[uid := reader.at];
    }

    /**
      One scrape sends exactly what the rule says for the tokens it read, each claim's read once, during the scrape.
    */
    method Collect(now: Time) returns (out: seq<Metric>, memo: Memo, ghost readAt: map<string, nat>)
      requires reader.Valid() && PointersValid(current)
      modifies reader, reader.state, reader.state.files
      ensures reader.Valid() && old(reader.state.trace) <= reader.state.trace
      ensures ReadSince(reader.state.trace, |old(reader.state.trace)| - 1, current, memo, readAt)
      ensures forall p :: 0 <= p < |current.domains| ==> current.domains[p].claimUID in memo
      ensures out == Output(Scrape(current, now, maxAge, memo))
      ensures Exact(Scrape(current, now, maxAge, memo), out)
    {
      out, memo, readAt := CollectFrom(current, |reader.state.trace| - 1, now);
    }

    /** The rest of a scrape that copied `o` at the moment `from`. */
    method CollectFrom(o: Observation, from: nat, now: Time)
      returns (out: seq<Metric>, memo: Memo, ghost readAt: map<string, nat>)
      requires reader.state.Valid() && from < |reader.state.trace| && PointersValid(o)
      modifies reader, reader.state, reader.state.files
      ensures reader.Valid() && old(reader.state.trace) <= reader.state.trace
      ensures ReadSince(reader.state.trace, from, o, memo, readAt)
      ensures forall p :: 0 <= p < |o.domains| ==> o.domains[p].claimUID in memo
      ensures out == Output(Scrape(o, now, maxAge, memo))
      ensures Exact(Scrape(o, now, maxAge, memo), out)
    {
      reader.Begin(from);
      ghost var lo := from;
      out, memo, readAt := SendSamples(o, now, lo);
      ghost var early := memo;
      var sources := SendSources(o, now);
      var counts;
      counts, memo, readAt := CountDomains(o, now, memo, lo, readAt);
      MemoGrows(Scrape(o, now, maxAge, early), memo, |o.samples|);
      var states := SendStates(o, now, memo, counts);
      out := out + sources + states;
      OutputIsExact(Scrape(o, now, maxAge, memo));
    }

    method SendSamples(o: Observation, now: Time, ghost lo: nat)
      returns (out: seq<Metric>, memo: Memo, ghost readAt: map<string, nat>)
      requires reader.Valid() && PointersValid(o) && lo == reader.at
      modifies reader, reader.state, reader.state.files
      ensures Reading(lo, o, memo, readAt) && old(reader.state.trace) <= reader.state.trace
      ensures var x := Scrape(o, now, maxAge, memo); Answers(x, |o.samples|) && out == ShownUpTo(x, |o.samples|)
    {
      out, memo, readAt := [], map[], map[];
      var workloadAt := if "workload" in o.last then Some(o.last["workload"]) else None;
      var workloadFresh := workloadAt.Some? && now - workloadAt.value <= maxAge;
      for k := 0 to |o.samples|
        invariant Reading(lo, o, memo, readAt) && old(reader.state.trace) <= reader.state.trace
        invariant Answers(Scrape(o, now, maxAge, memo), k) && out == ShownUpTo(Scrape(o, now, maxAge, memo), k)
      {
        var s := o.samples[k];
        if s.at.None? || now - s.at.value > maxAge {
          continue;
        }
        if s.domain.Some? {
          var d := o.domains[s.domain.value];
          if !workloadFresh || d.generation == 0 {
            continue;
          }
          ghost var x := Scrape(o, now, maxAge, memo);
          var v;
          v, memo, readAt := Generation(d.claimUID, memo, lo, o, readAt);
          MemoGrows(x, memo, k);
          if v != d.generation {
            continue;
          }
        }
        out := out + [Business(s.desc, s.value, s.labels)];
      }
    }

    method SendSources(o: Observation, now: Time) returns (out: seq<Metric>)
      ensures forall memo :: out == SourcesUpTo(Scrape(o, now, maxAge, memo), |SOURCES|)
    {
      out := [];
      for k := 0 to |SOURCES|
        invariant forall memo :: out == SourcesUpTo(Scrape(o, now, maxAge, memo), k)
      {
        var source := SOURCES[k];
        var at := if source in o.last then Some(o.last[source]) else None;
        var value := 0.0;
        if source in o.ok && o.ok[source] && at.Some? && now - at.value <= maxAge {
          value := 1.0;
        }
        var stamp := 0.0;
        if at.Some? {
          stamp := (at.value / 1_000_000_000) as real;
        }
        assert forall memo :: SourceMetrics(Scrape(o, now, maxAge, memo), source)
                              == [SourceSuccess(source, value), LastSuccess(source, stamp)];
        out := out + [SourceSuccess(source, value)] + [LastSuccess(source, stamp)];
      }
    }

    method CountDomains(o: Observation, now: Time, early: Memo, ghost lo: nat, ghost since: map<string, nat>)
      returns (counts: map<State, nat>, memo: Memo, ghost readAt: map<string, nat>)
      requires Reading(lo, o, early, since)
      modifies reader, reader.state, reader.state.files
      ensures Reading(lo, o, memo, readAt) && old(reader.state.trace) <= reader.state.trace
      ensures Extends(early, memo)
      ensures var x := Scrape(o, now, maxAge, memo); Knows(x, |o.domains|) && CountsOf(x, |o.domains|, counts)
      ensures forall state :: (if state in counts then counts[state] else 0)
                              == |InState(Scrape(o, now, maxAge, memo), state)|
    {
      counts, memo, readAt := map[], early, since;
      for p := 0 to |o.domains|
        invariant Reading(lo, o, memo, readAt) && old(reader.state.trace) <= reader.state.trace
        invariant Extends(early, memo)
        invariant Knows(Scrape(o, now, maxAge, memo), p) && CountsOf(Scrape(o, now, maxAge, memo), p, counts)
      {
        counts, memo, readAt := CountDomain(o, now, p, counts, memo, lo, readAt);
      }
      forall state ensures CountUpTo(Scrape(o, now, maxAge, memo), state, |o.domains|)
                           == |InState(Scrape(o, now, maxAge, memo), state)|
      {
        CountIsNumber(Scrape(o, now, maxAge, memo), state);
      }
    }

    /** One round of the count loop. */
    method CountDomain(
        o: Observation, now: Time, p: nat, counts: map<State, nat>, memo: Memo, ghost lo: nat,
        ghost readAt: map<string, nat>)
      returns (counts': map<State, nat>, memo': Memo, ghost readAt': map<string, nat>)
      requires Reading(lo, o, memo, readAt) && p < |o.domains|
      requires Knows(Scrape(o, now, maxAge, memo), p) && CountsOf(Scrape(o, now, maxAge, memo), p, counts)
      modifies reader, reader.state, reader.state.files
      ensures Reading(lo, o, memo', readAt') && old(reader.state.trace) <= reader.state.trace
      ensures Extends(memo, memo')
      ensures Knows(Scrape(o, now, maxAge, memo'), p + 1) && CountsOf(Scrape(o, now, maxAge, memo'), p + 1, counts')
    {
      var d := o.domains[p];
      var v;
      v, memo', readAt' := Generation(d.claimUID, memo, lo, o, readAt);
      ghost var x := Scrape(o, now, maxAge, memo');
      CountsOfGrow(Scrape(o, now, maxAge, memo), memo', p, counts);
      if v == 0 {
        return counts, memo', readAt';
      }
      var state := d.state;
      var workloadAt := if "workload" in o.last then Some(o.last["workload"]) else None;
      var workloadFresh := workloadAt.Some? && now - workloadAt.value <= maxAge;
      if o.at.None? || now - o.at.value > maxAge || v != d.generation || (!workloadFresh && state != Unsupported) {
        state := Stale;
      }
      counts' := counts[state := (if state in counts then counts[state] else 0) + 1];
    }

    method SendStates(o: Observation, now: Time, memo: Memo, counts: map<State, nat>) returns (out: seq<Metric>)
      requires CountsOf(Scrape(o, now, maxAge, memo), |o.domains|, counts)
      ensures out == StatesUpTo(Scrape(o, now, maxAge, memo), |STATES|)
    {
      out := [];
      for k := 0 to |STATES|
        invariant out == StatesUpTo(Scrape(o, now, maxAge, memo), k)
      {
        out := out + [DomainCount(STATES[k], if STATES[k] in counts then counts[STATES[k]] else 0)];
      }
    }
  }

  /** The count map holds what the rule counts over the first `n` domains. */
  ghost predicate CountsOf(x: Scrape, n: nat, counts: map<State, nat>)
    requires n <= |x.o.domains|
  {
    forall state :: CountUpTo(x, state, n) == if state in counts then counts[state] else 0
  }

  lemma CountsOfGrow(x: Scrape, memo: Memo, n: nat, counts: map<State, nat>)
    requires n <= |x.o.domains| && Knows(x, n) && CountsOf(x, n, counts)
    requires Extends(x.memo, memo)
    ensures Knows(x.(memo := memo), n) && CountsOf(x.(memo := memo), n, counts)
  {
    forall state ensures CountUpTo(x.(memo := memo), state, n) == CountUpTo(x, state, n) {
      CountsGrow(x, memo, state, n);
    }
  }

  // ---- deviceType ----

  function DeviceType(name: string): string {
    if "Ascend-" <= name || "NVIDIA-" <= name then name else "Ascend-" + name
  }

  /** The exported device type always has a vendor prefix, and one that has it is exported as it is. */
  lemma DeviceTypeNormalises(name: string)
    ensures "Ascend-" <= DeviceType(name) || "NVIDIA-" <= DeviceType(name)
    ensures DeviceType(DeviceType(name)) == DeviceType(name)
    ensures DeviceType(name) == name <==> "Ascend-" <= name || "NVIDIA-" <= name
    ensures DeviceType(name) != name ==> DeviceType(name)[..7] == "Ascend-" && DeviceType(name)[7..] == name
  {
    assert |"Ascend-" + name| == 7 + |name|;
  }
}
