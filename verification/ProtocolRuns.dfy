/**
  Runs of the metrics protocol built from what the code does: a lifecycle operation is a stretch of token steps, a
  sampling round is a snapshot, a resolve and a publication, and a scrape is a
  start, single reads and a finish, with token steps, rounds and other scrapes in between.
*/
module ProtocolRuns {
  import opened Wrappers
  import opened MonitorTypes
  import opened DomainRule
  import opened Observations
  import opened SampleRuns
  import opened TokenProtocol
  import opened Collector
  import opened ScrapeProtocol

  function Latest(run: seq<System>): System
    requires run != []
  {
    run[|run| - 1]
  }

  /** One more step. */
  lemma Do(run: seq<System>, e: Event) returns (more: seq<System>)
    requires Behaviour(run) && Latest(run).hist != [] && Enabled(Latest(run), e)
    ensures Behaviour(more) && run <= more && Latest(more) == After(Latest(run), e)
  {
    more := run + [After(Latest(run), e)];
    assert Takes(Latest(run), e, Latest(more));
    forall k | 0 <= k < |more| - 1 ensures Step(more[k], more[k + 1]) {
      assert k < |run| - 1 ==> more[k + 1] == run[k + 1];
    }
  }

  lemma HistoryIsRun(run: seq<System>)
    requires Behaviour(run)
    ensures Run(Latest(run).hist) && Latest(run).hist != []
  {
    RunKeeps(run, |run| - 1);
  }

  // ---- Lifecycle ----

  /** The token table moves on to a longer history. */
  lemma {:induction false} AdvanceTo(run: seq<System>, hist: seq<Tokens>) returns (more: seq<System>)
    requires Behaviour(run) && Run(hist) && Latest(run).hist <= hist
    ensures Behaviour(more) && run <= more && Latest(more) == Latest(run).(hist := hist)
    decreases |hist|
  {
    var n := |hist| - 1;
    HistoryIsRun(run);
    if |Latest(run).hist| == |hist| {
      assert Latest(run).hist == hist;
      more := run;
    } else {
      var front := AdvanceTo(run, hist[..n]);
      assert Next(hist[n - 1], hist[n]) && hist[..n] + [hist[n]] == hist;
      more := Do(front, Lifecycle(hist[n]));
    }
  }

  // ---- Rounds ----

  function WithResolve(resolves: seq<Resolve>, resolve: Option<Resolve>): seq<Resolve> {
    if resolve.Some? then resolves + [resolve.value] else resolves
  }

  lemma DoResolve(run: seq<System>, resolve: Option<Resolve>) returns (more: seq<System>)
    requires Behaviour(run)
    ensures Behaviour(more) && run <= more
    ensures Latest(more) == Latest(run).(resolves := WithResolve(Latest(run).resolves, resolve))
  {
    HistoryIsRun(run);
    more := run;
    if resolve.Some? {
      more := Do(run, Resolves(resolve.value));
    }
  }

  /** A round begins: Snapshot, if that succeeds. */
  lemma BeginRound(run: seq<System>, snapshot: Option<seq<Domain>>) returns (more: seq<System>)
    requires Behaviour(run) && Latest(run).hist != [] && Latest(run).sampling.None?
    requires snapshot.Some? ==> Snapped(Now(Latest(run).hist), snapshot.value)
    ensures Behaviour(more) && run <= more
    ensures Latest(more) == Latest(run).(sampling := SnapshotAt(Latest(run).hist, snapshot))
  {
    more := run;
    if snapshot.Some? {
      more := Do(run, Snapshot(snapshot.value));
    }
  }

  function SnapshotAt(hist: seq<Tokens>, snapshot: Option<seq<Domain>>): Option<Sampling>
    requires hist != []
  {
    if snapshot.Some? then Some(Sampling(|hist| - 1, snapshot.value)) else None
  }

  /** The state after a publication: backed by the snapshot's moment, or empty and of now. */
  function AfterRound(s: System, resolve: Option<Resolve>, o: Observation, w: World): System
    requires s.hist != []
  {
    var resolves := WithResolve(s.resolves, resolve);
    s.(resolves := resolves, sampling := None,
       cached := Cached(o, if s.sampling.Some? then s.sampling.value.snap else |s.hist| - 1,
                        Some(Origin(w, resolves))))
  }

  /** A round ends: Resolves?, then Publish or PublishWithoutSnapshot. */
  lemma FinishRound(run: seq<System>, resolve: Option<Resolve>, o: Observation, w: World) returns (more: seq<System>)
    requires Behaviour(run) && Latest(run).hist != [] && ObservedFrom(o, w)
    requires w.domains == if Latest(run).sampling.Some? then Latest(run).sampling.value.domains else []
    requires LastResolve(WithResolve(Latest(run).resolves, resolve), w.workloads, w.workloadAt)
    ensures Behaviour(more) && run <= more && Latest(more) == AfterRound(Latest(run), resolve, o, w)
  {
    more := DoResolve(run, resolve);
    more := Do(more, if Latest(run).sampling.Some? then Publish(o, w) else PublishWithoutSnapshot(o, w));
  }

  // ---- Scrapes ----

  /** The scrape before it had read these claims. */
  function Without(r: Reading, uids: set<string>): Reading {
    r.(memo := r.memo - uids, readAt := r.readAt - uids)
  }

  /** What a scrape has read was there at moments since it began. */
  ghost predicate Happened(hist: seq<Tokens>, r: Reading) {
    ReadSince(hist, r.from, r.cached.o, r.memo, r.readAt)
  }

  lemma OneReadLess(hist: seq<Tokens>, r: Reading, uids: set<string>, u: string)
    requires Happened(hist, r) && uids <= r.memo.Keys && u in uids
    ensures CanRead(Without(r, uids), hist, u, r.readAt[u])
    ensures ReadOne(Without(r, uids), hist, u, r.readAt[u]) == Without(r, uids - {u})
  {
    assert ReadAt(hist, r.from, r.cached.o, u, r.memo[u], r.readAt[u]);
  }

  /** The reads of a scrape, one after the other. */
  lemma {:induction false} ReadAll(run: seq<System>, id: nat, uids: set<string>, r: Reading)
    returns (more: seq<System>)
    requires Behaviour(run) && Latest(run).hist != [] && Happened(Latest(run).hist, r) && uids <= r.memo.Keys
    requires id in Latest(run).scrapes && Latest(run).scrapes[id] == Without(r, uids)
    ensures Behaviour(more) && run <= more && Latest(more) == Latest(run).(scrapes := Latest(run).scrapes[id := r])
    decreases uids
  {
    var s := Latest(run);
    if uids == {} {
      assert Without(r, uids) == r && s.scrapes[id := r] == s.scrapes;
      more := run;
    } else {
      var u :| u in uids;
      OneReadLess(s.hist, r, uids, u);
      var one := Do(run, ScrapeRead(id, u, r.readAt[u]));
      more := ReadAll(one, id, uids - {u}, r);
      assert s.scrapes[id := Without(r, uids - {u})][id := r] == s.scrapes[id := r];
    }
  }

  /** The rest of a scrape that has begun: Lifecycle*, ScrapeRead*, ScrapeFinish. */
  lemma FinishScrape(run: seq<System>, id: nat, r: Reading, hist: seq<Tokens>) returns (more: seq<System>)
    requires Behaviour(run) && Run(hist) && Latest(run).hist <= hist && id in Latest(run).scrapes
    requires Latest(run).scrapes[id] == r.(memo := map[], readAt := map[])
    requires Happened(hist, r) && AllRead(r)
    ensures Behaviour(more) && run <= more
    ensures Latest(more) == Latest(run).(hist := hist, scrapes := Latest(run).scrapes - {id},
                                         finished := Latest(run).finished + [r])
  {
    var s := Latest(run);
    HistoryIsRun(run);
    more := AdvanceTo(run, hist);
    assert Without(r, r.memo.Keys) == r.(memo := map[], readAt := map[]);
    more := ReadAll(more, id, r.memo.Keys, r);
    more := Do(more, ScrapeFinish(id));
    assert s.scrapes[id := r] - {id} == s.scrapes - {id};
  }
}
