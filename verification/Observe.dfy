/** The two-pass loop of observeDomains and uniqueConsumers, proved against DomainRule (internal/monitor/monitor.go). */
module Observe {
  import opened Wrappers
  import opened Decimal
  import opened MonitorTypes
  import opened DomainRule
  import opened Observations
  import Shmem

  // ---- uniqueConsumers ----

  ghost predicate UniqueOf(input: seq<Consumer>, output: seq<Consumer>) {
    (forall a, b :: 0 <= a < b < |output| ==> !SameConsumer(output[a], output[b]))
    && (forall k {:trigger Covers(output, input[k])} :: 0 <= k < |input| ==> Covers(output, input[k]))
    && (forall a {:trigger Gathered(input, output[a])} :: 0 <= a < |output| ==> Gathered(input, output[a]))
    && (input != [] ==> output != [] && SameConsumer(output[0], input[0]))
  }

  predicate Covers(output: seq<Consumer>, d: Consumer) {
    exists a :: 0 <= a < |output| && Gathers(output[a], d)
  }

  /** `c` stands for the container of `d` and has all its devices. */
  predicate Gathers(c: Consumer, d: Consumer) {
    SameConsumer(c, d) && d.devices <= c.devices
  }

  /** `c` has no device that no reference of its container has. */
  ghost predicate Gathered(input: seq<Consumer>, c: Consumer) {
    (exists k :: 0 <= k < |input| && SameConsumer(c, input[k]))
    && forall r :: r in c.devices ==> exists k :: 0 <= k < |input| && SameConsumer(c, input[k]) && r in input[k].devices
  }

  method UniqueConsumers(input: seq<Consumer>) returns (output: seq<Consumer>)
    ensures UniqueOf(input, output)
  {
    output := [];
    for k := 0 to |input|
      invariant UniqueOf(input[..k], output)
    {
      var at := FindConsumer(output, input[k]);
      if at.None? {
        AddConsumer(input, k, output);
        output := output + [input[k]];
      } else {
        ExtendConsumer(input, k, output, at.value);
        output := output[at.value := output[at.value].(devices := output[at.value].devices + input[k].devices)];
      }
    }
    assert input[..|input|] == input;
  }

  /** The index map of the source: where the container already is in the output. */
  method FindConsumer(output: seq<Consumer>, c: Consumer) returns (at: Option<nat>)
    ensures at.None? ==> forall a :: 0 <= a < |output| ==> !SameConsumer(output[a], c)
    ensures at.Some? ==> at.value < |output| && SameConsumer(output[at.value], c)
  {
    for a := 0 to |output|
      invariant forall b :: 0 <= b < a ==> !SameConsumer(output[b], c)
    {
      if SameConsumer(output[a], c) {
        return Some(a);
      }
    }
    return None;
  }

  lemma AddConsumer(input: seq<Consumer>, k: nat, output: seq<Consumer>)
    requires k < |input| && UniqueOf(input[..k], output)
    requires forall a :: 0 <= a < |output| ==> !SameConsumer(output[a], input[k])
    ensures UniqueOf(input[..k + 1], output + [input[k]])
  {
    var out, after := output + [input[k]], input[..k + 1];
    forall j | 0 <= j < |after| ensures Covers(out, after[j]) {
      if j < k {
        assert after[j] == input[..k][j];
        assert Covers(output, input[..k][j]);
        var a :| 0 <= a < |output| && Gathers(output[a], after[j]);
        assert Gathers(out[a], after[j]);
      } else {
        assert Gathers(out[|output|], after[j]);
      }
    }
    forall a | 0 <= a < |out| ensures Gathered(after, out[a]) {
      if a < |output| {
        assert Gathered(input[..k], output[a]);
      } else {
        assert SameConsumer(out[a], after[k]);
      }
    }
  }

  lemma ExtendConsumer(input: seq<Consumer>, k: nat, output: seq<Consumer>, at: nat)
    requires k < |input| && UniqueOf(input[..k], output) && at < |output| && SameConsumer(output[at], input[k])
    ensures UniqueOf(input[..k + 1], output[at := output[at].(devices := output[at].devices + input[k].devices)])
  {
    var out := output[at := output[at].(devices := output[at].devices + input[k].devices)];
    var after := input[..k + 1];
    forall j | 0 <= j < |after| ensures Covers(out, after[j]) {
      if j < k {
        assert after[j] == input[..k][j];
        assert Covers(output, input[..k][j]);
        var a :| 0 <= a < |output| && Gathers(output[a], after[j]);
        assert Gathers(out[a], after[j]);
      } else {
        assert Gathers(out[at], after[j]);
      }
    }
    forall a | 0 <= a < |out| ensures Gathered(after, out[a]) {
      assert Gathered(input[..k], output[a]);
      if a == at {
      }
    }
  }

  /** The length of the merged list tells the three cases apart, and its first entry tells what is referred to. */
  lemma UniqueTells(input: seq<Consumer>, output: seq<Consumer>)
    requires UniqueOf(input, output)
    ensures |output| == 0 <==> input == []
    ensures |output| == 1 <==> OneConsumer(input)
    ensures |output| == 1 ==> SameConsumer(output[0], input[0])
                              && forall r :: r in output[0].devices <==> Refers(input, r)
  {
    assert output != [] ==> Gathered(input, output[0]);
    assert |output| > 1 ==> Gathered(input, output[1]);
    forall k | 0 <= k < |input| ensures |output| == 1 ==> Gathers(output[0], input[k]) {
      assert Covers(output, input[k]);
    }
  }

  // ---- First pass ----

  /** A domain that passed the switch: its position in the observation, itself, its consumer and its card. */
  datatype RowRef = RowRef(position: nat, d: Domain, c: Consumer, h: HostDevice)

  predicate RowFor(w: World, i: nat, r: RowRef) {
    Row(w, i) && r.position == Position(w, i) && r.d == w.domains[i]
    && SameConsumer(r.c, Consumers(w, r.d)[0]) && r.h == w.hosts[r.d.physicalID]
  }

  /** The domain indices of the rows among the first `n` domains. */
  function RowsUpTo(w: World, n: nat): seq<nat>
    requires n <= |w.domains|
  {
    if n == 0 then [] else RowsUpTo(w, n - 1) + if Row(w, n - 1) then [n - 1] else []
  }

  predicate RowsFor(w: World, indices: seq<nat>, rows: seq<RowRef>) {
    |rows| == |indices|
    && forall k {:trigger RowFor(w, indices[k], rows[k])} :: 0 <= k < |rows| ==> RowFor(w, indices[k], rows[k])
  }

  /** What the first pass leaves in the observation: states for all but the rows. */
  function PreUpTo(w: World, n: nat): (pre: seq<DomainObs>)
    requires n <= |w.domains|
    ensures |pre| == Position(w, n)
  {
    if n == 0 then []
    else PreUpTo(w, n - 1) + if Kept(w, n - 1) then [ObsOf(w.domains[n - 1], Precheck(w, w.domains[n - 1]))] else []
  }

  predicate HasLabels(w: World, i: nat, key: seq<string>) {
    Row(w, i) && Labels(w, w.domains[i]) == key
  }

  function CountLabels(w: World, n: nat, key: seq<string>): nat
    requires n <= |w.domains|
  {
    if n == 0 then 0 else CountLabels(w, n - 1, key) + if HasLabels(w, n - 1, key) then 1 else 0
  }

  lemma {:induction false} CountOne(w: World, n: nat, key: seq<string>, i: nat)
    requires i < n <= |w.domains| && HasLabels(w, i, key)
    ensures CountLabels(w, n, key) >= 1
    ensures CountLabels(w, n, key) > 1 <==> exists j :: 0 <= j < n && j != i && HasLabels(w, j, key)
  {
    if i == n - 1 {
      CountNone(w, n - 1, key);
    } else {
      CountOne(w, n - 1, key, i);
    }
  }

  lemma {:induction false} CountNone(w: World, n: nat, key: seq<string>)
    requires n <= |w.domains|
    ensures CountLabels(w, n, key) > 0 <==> exists j :: 0 <= j < n && HasLabels(w, j, key)
  {
    if n > 0 {
      CountNone(w, n - 1, key);
    }
  }

  lemma CountTellsCollision(w: World, i: nat)
    requires Row(w, i)
    ensures CountLabels(w, |w.domains|, Labels(w, w.domains[i])) > 1 <==> Collides(w, i)
  {
    var key := Labels(w, w.domains[i]);
    CountOne(w, |w.domains|, key, i);
    if Collides(w, i) {
      var j :| 0 <= j < |w.domains| && j != i && Row(w, j) && SameLabels(w, i, j);
      assert HasLabels(w, j, key);
    }
    if j :| 0 <= j < |w.domains| && j != i && HasLabels(w, j, key) {
      assert SameLabels(w, i, j);
    }
  }

  predicate CountsLabels(w: World, n: nat, keys: map<seq<string>, nat>)
    requires n <= |w.domains|
  {
    (forall key :: key in keys ==> keys[key] == CountLabels(w, n, key))
    && forall i {:trigger Row(w, i)} :: 0 <= i < n && Row(w, i) ==> Labels(w, w.domains[i]) in keys
  }

  predicate SeenIdentities(w: World, n: nat, seen: set<(string, string)>)
    requires n <= |w.domains|
  {
    (forall j :: 0 <= j < n ==> (w.domains[j].claimUID, Itoa(w.domains[j].physicalID)) in seen)
    && forall x :: x in seen ==> exists j :: 0 <= j < n && x == (w.domains[j].claimUID, Itoa(w.domains[j].physicalID))
  }

  lemma SeenTellsKept(w: World, n: nat, seen: set<(string, string)>)
    requires n < |w.domains| && SeenIdentities(w, n, seen)
    ensures (w.domains[n].claimUID, Itoa(w.domains[n].physicalID)) in seen <==> !Kept(w, n)
  {
    var d := w.domains[n];
    if (d.claimUID, Itoa(d.physicalID)) in seen {
      var j :| 0 <= j < n && (d.claimUID, Itoa(d.physicalID)) == (w.domains[j].claimUID, Itoa(w.domains[j].physicalID));
      ItoaInjective(d.physicalID, w.domains[j].physicalID);
      assert Repeats(w, j, n);
    }
  }

  lemma SeenStep(w: World, n: nat, seen: set<(string, string)>)
    requires n < |w.domains| && SeenIdentities(w, n, seen)
    ensures SeenIdentities(w, n + 1, seen + {(w.domains[n].claimUID, Itoa(w.domains[n].physicalID))})
  {
    var x := (w.domains[n].claimUID, Itoa(w.domains[n].physicalID));
    forall y | y in seen + {x}
      ensures exists j :: 0 <= j < n + 1 && y == (w.domains[j].claimUID, Itoa(w.domains[j].physicalID))
    {
      if y in seen {
        var j :| 0 <= j < n && y == (w.domains[j].claimUID, Itoa(w.domains[j].physicalID));
      }
    }
  }

  /** The switch, on the merged consumers. */
  method Classify(w: World, d: Domain) returns (state: State, row: Option<(Consumer, HostDevice)>)
    ensures state == Precheck(w, d)
    ensures row.Some? <==> state == Unset
    ensures row.Some? ==> Consumers(w, d) != [] && SameConsumer(row.value.0, Consumers(w, d)[0])
                          && d.physicalID in w.hosts && row.value.1 == w.hosts[d.physicalID]
  {
    var input := Consumers(w, d);
    var consumers := UniqueConsumers(input);
    UniqueTells(input, consumers);
    if !d.supported {
      return Unsupported, None;
    } else if w.workloadAt.None? || w.now - w.workloadAt.value > w.maxAge {
      return Stale, None;
    } else if |consumers| == 0 {
      return Unmapped, None;
    } else if |consumers| > 1 {
      return Ambiguous, None;
    } else if DeviceRef(d.pool, d.device) !in consumers[0].devices {
      return Unmapped, None;
    } else if d.physicalID !in w.hosts || w.hosts[d.physicalID].uuid != d.uuid || d.uuid == "" {
      return Stale, None;
    }
    return Unset, Some((consumers[0], w.hosts[d.physicalID]));
  }

  /** What the first pass has built after `n` domains. */
  predicate PassedOne(w: World, n: nat, observed: seq<DomainObs>, rows: seq<RowRef>, keys: map<seq<string>, nat>)
    requires n <= |w.domains|
  {
    observed == PreUpTo(w, n) && RowsFor(w, RowsUpTo(w, n), rows) && CountsLabels(w, n, keys)
  }

  method FirstPass(w: World) returns (observed: seq<DomainObs>, rows: seq<RowRef>, keys: map<seq<string>, nat>)
    ensures PassedOne(w, |w.domains|, observed, rows, keys)
  {
    observed, rows, keys := [], [], map[];
    var seen: set<(string, string)> := {};
    for i := 0 to |w.domains|
      invariant SeenIdentities(w, i, seen) && PassedOne(w, i, observed, rows, keys)
    {
      var identity := (w.domains[i].claimUID, Itoa(w.domains[i].physicalID));
      SeenTellsKept(w, i, seen);
      SeenStep(w, i, seen);
      if identity in seen {
        SkipStep(w, i, observed, rows, keys);
      } else {
        observed, rows, keys := ObserveOne(w, i, observed, rows, keys);
      }
      seen := seen + {identity};
    }
  }

  lemma SkipStep(w: World, i: nat, observed: seq<DomainObs>, rows: seq<RowRef>, keys: map<seq<string>, nat>)
    requires i < |w.domains| && !Kept(w, i) && PassedOne(w, i, observed, rows, keys)
    ensures PassedOne(w, i + 1, observed, rows, keys)
  {
    CountStep(w, i, keys, keys);
  }

  method ObserveOne(w: World, i: nat, observed: seq<DomainObs>, rows: seq<RowRef>, keys: map<seq<string>, nat>)
    returns (observed': seq<DomainObs>, rows': seq<RowRef>, keys': map<seq<string>, nat>)
    requires i < |w.domains| && Kept(w, i) && PassedOne(w, i, observed, rows, keys)
    ensures PassedOne(w, i + 1, observed', rows', keys')
  {
    var d := w.domains[i];
    var state, row := Classify(w, d);
    observed' := observed + [ObsOf(d, state)];
    if row.None? {
      CountStep(w, i, keys, keys);
      return observed', rows, keys;
    }
    var (c, h) := row.value;
    var key := [c.namespace, c.pod, c.container, Itoa(d.physicalID), d.uuid];
    assert key == Labels(w, d);
    keys' := keys[key := (if key in keys then keys[key] else 0) + 1];
    rows' := rows + [RowRef(|observed|, d, c, h)];
    CountStep(w, i, keys, keys');
    assert RowFor(w, i, rows'[|rows|]);
  }

  lemma CountStep(w: World, n: nat, keys: map<seq<string>, nat>, keys': map<seq<string>, nat>)
    requires n < |w.domains| && CountsLabels(w, n, keys)
    requires if Row(w, n) then
               var key := Labels(w, w.domains[n]); keys' == keys[key := (if key in keys then keys[key] else 0) + 1]
             else keys' == keys
    ensures CountsLabels(w, n + 1, keys')
  {
    if Row(w, n) {
      var key := Labels(w, w.domains[n]);
      CountNone(w, n, key);
      forall k | k in keys' ensures keys'[k] == CountLabels(w, n + 1, k) {
        assert HasLabels(w, n, k) <==> k == key;
      }
    } else {
      assert forall k :: !HasLabels(w, n, k);
    }
  }

  // ---- Second pass ----

  /** What the second pass builds: the domains with their states, the samples, the verdict and the short files. */
  datatype Settled = Settled(observed: seq<DomainObs>, samples: seq<Sample>, ok: bool, shortFiles: map<string, Time>)

  lemma {:induction false} PreIsPrefix(w: World, n: nat, m: nat)
    requires n <= m <= |w.domains|
    ensures PreUpTo(w, n) <= PreUpTo(w, m) && Position(w, n) <= Position(w, m)
  {
    if n < m {
      PreIsPrefix(w, n, m - 1);
    }
  }

  /** The first `n` domains have their final states, the others those of the first pass. */
  function ObservedAt(w: World, n: nat): seq<DomainObs>
    requires n <= |w.domains|
  {
    PreIsPrefix(w, n, |w.domains|);
    SeenUpTo(w, n) + PreUpTo(w, |w.domains|)[Position(w, n)..]
  }

  /** Everything the rule says once the rows among the first `n` domains are done. */
  function SettledAt(w: World, n: nat): Settled
    requires n <= |w.domains|
  {
    Settled(ObservedAt(w, n), SamplesUpTo(w, n), NoInvalid(w, n), ShortFilesUpTo(w, n))
  }

  /** Settling a domain replaces its entry, which so far is that of the first pass. */
  lemma SettleOne(w: World, n: nat)
    requires n < |w.domains| && Kept(w, n)
    ensures Position(w, n) < |ObservedAt(w, n)|
    ensures ObservedAt(w, n)[Position(w, n)] == ObsOf(w.domains[n], Precheck(w, w.domains[n]))
    ensures ObservedAt(w, n + 1) == ObservedAt(w, n)[Position(w, n) := ObsOf(w.domains[n], RuleState(w, n))]
  {
    PreIsPrefix(w, n + 1, |w.domains|);
    var p, pre, o := Position(w, n), PreUpTo(w, |w.domains|), ObsOf(w.domains[n], RuleState(w, n));
    assert pre[p] == ObsOf(w.domains[n], Precheck(w, w.domains[n]));
    assert pre[p..] == [pre[p]] + pre[p + 1..];
    assert SeenUpTo(w, n + 1) == SeenUpTo(w, n) + [o];
  }

  /** A domain that is no row needs nothing from the second pass. */
  lemma SkipOne(w: World, n: nat)
    requires n < |w.domains| && !Row(w, n)
    ensures SettledAt(w, n + 1) == SettledAt(w, n)
  {
    if Kept(w, n) {
      SettleOne(w, n);
      assert ObservedAt(w, n + 1) == ObservedAt(w, n);
      assert RuleState(w, n) != Invalid && SamplesOf(w, n) == [];
    } else {
      assert SeenUpTo(w, n + 1) == SeenUpTo(w, n);
    }
  }

  lemma {:induction false} SkipGap(w: World, n: nat, m: nat)
    requires n <= m <= |w.domains| && forall i :: n <= i < m ==> !Row(w, i)
    ensures SettledAt(w, m) == SettledAt(w, n)
  {
    if n < m {
      SkipGap(w, n, m - 1);
      SkipOne(w, m - 1);
    }
  }

  lemma {:induction false} RowsUpToMeans(w: World, n: nat)
    requires n <= |w.domains|
    ensures forall i: nat :: i in RowsUpTo(w, n) <==> i < n && Row(w, i)
    ensures forall a, b :: 0 <= a < b < |RowsUpTo(w, n)| ==> RowsUpTo(w, n)[a] < RowsUpTo(w, n)[b]
  {
    if n > 0 {
      RowsUpToMeans(w, n - 1);
      var front := RowsUpTo(w, n - 1);
      assert forall a :: 0 <= a < |front| ==> front[a] in front;
    }
  }

  /** No row lies between two neighbours of the row list, before its first or after its last. */
  lemma NoRowBetween(w: World, k: nat, i: nat)
    requires k <= |RowsUpTo(w, |w.domains|)| && i < |w.domains|
    requires var rows := RowsUpTo(w, |w.domains|);
             (k > 0 ==> rows[k - 1] < i) && (k < |rows| ==> i < rows[k])
    ensures !Row(w, i)
  {
    var rows := RowsUpTo(w, |w.domains|);
    RowsUpToMeans(w, |w.domains|);
    forall a | 0 <= a < |rows| ensures rows[a] != i {
      if a < k {
        assert a == k - 1 || rows[a] < rows[k - 1];
      } else {
        assert a == k || rows[k] < rows[a];
      }
    }
  }

  /** Reading one row that does not collide: its state, its samples and the start of its short run, if any. */
  method ReadRow(w: World, ghost i: nat, row: RowRef)
    returns (state: State, samples: seq<Sample>, short: Option<(string, Time)>)
    requires RowFor(w, i, row) && !Collides(w, i)
    ensures state == RuleState(w, i) && samples == SamplesOf(w, i)
    ensures short == if ReadsShort(w, i) then
                       Some((DomainPath(w.root, row.d), FirstShort(w, DomainPath(w.root, row.d)))) else None
  {
    var d := row.d;
    var path := DomainPath(w.root, d);
    var read: MemoryRead := Err(Shmem.BadIdentity);
    if ValidIdentity(d) {
      read := if path in w.files then w.files[path] else Err(Shmem.Pending);
    }
    samples, short := [], None;
    if read == Err(Shmem.Short) {
      var first := if path in w.shortFiles then w.shortFiles[path] else w.now;
      short := Some((path, first));
      if w.now - first < w.interval {
        read := Err(Shmem.Pending);
      }
    }
    if read.Err? {
      return if read.error.Pending? then State.Pending else Invalid, samples, short;
    }
    var labels := [row.c.namespace, row.c.pod, row.c.container, Itoa(d.physicalID), d.uuid];
    samples := MakeSamples(w, row, read.value, labels);
    return Ready, samples, short;
  }

  /** The loop over the six container metrics; an invalid utilization reading is left out. */
  method MakeSamples(w: World, row: RowRef, memory: Shmem.MemoryStats, labels: seq<string>)
    returns (samples: seq<Sample>)
    requires row.d.physicalID in w.hosts && row.h == w.hosts[row.d.physicalID] && Consumers(w, row.d) != []
    requires labels == Labels(w, row.d)
    ensures samples == ReadySamples(w, row.d, memory, row.position)
  {
    var values := [memory.used as real, memory.limit as real, row.h.utilization, 0.0, 0.0, 0.0];
    ghost var all := ReadySamples(w, row.d, memory, row.position);
    ghost var skipped := if row.h.utilValid then 0 else 1;
    samples := [];
    for k := 0 to 6
      invariant samples == all[..if k <= 2 then k else k - skipped]
    {
      if k == 2 && !row.h.utilValid {
        continue;
      }
      var at := if k == 2 then w.hostAt else Some(w.now);
      samples := samples + [Sample(k + 2, values[k], labels, at, Some(row.position))];
    }
  }

  /** One round of the second loop. */
  method RowStep(w: World, ghost i: nat, row: RowRef, keys: map<seq<string>, nat>, s: Settled) returns (s': Settled)
    requires RowFor(w, i, row) && CountsLabels(w, |w.domains|, keys) && s == SettledAt(w, i)
    ensures s' == SettledAt(w, i + 1)
  {
    var key := [row.c.namespace, row.c.pod, row.c.container, Itoa(row.d.physicalID), row.d.uuid];
    assert key == Labels(w, row.d);
    CountTellsCollision(w, i);
    SettleOne(w, i);
    if keys[key] > 1 {
      return s.(observed := s.observed[row.position := s.observed[row.position].(state := Ambiguous)]);
    }
    var state, samples, short := ReadRow(w, i, row);
    return Settled(
        s.observed[row.position := s.observed[row.position].(state := state)],
        s.samples + samples,
        s.ok && state != Invalid,
        if short.Some? then s.shortFiles[short.value.0 := short.value.1] else s.shortFiles);
  }

  /** The domain after the first `k` rows. */
  function Bound(w: World, k: nat): (n: nat)
    requires k <= |RowsUpTo(w, |w.domains|)|
    ensures n <= |w.domains|
  {
    var rows := RowsUpTo(w, |w.domains|);
    RowsUpToMeans(w, |w.domains|);
    assert k > 0 ==> rows[k - 1] in rows;
    if k == 0 then 0 else rows[k - 1] + 1
  }

  /** The domain of the next row, or the end. */
  function NextRow(w: World, k: nat): (n: nat)
    requires k <= |RowsUpTo(w, |w.domains|)|
  {
    if k < |RowsUpTo(w, |w.domains|)| then RowsUpTo(w, |w.domains|)[k] else |w.domains|
  }

  lemma BoundsInRange(w: World, k: nat)
    requires k <= |RowsUpTo(w, |w.domains|)|
    ensures Bound(w, k) <= NextRow(w, k) <= |w.domains|
    ensures k < |RowsUpTo(w, |w.domains|)| ==> NextRow(w, k) < |w.domains|
  {
    var rows := RowsUpTo(w, |w.domains|);
    RowsUpToMeans(w, |w.domains|);
    assert k > 0 ==> rows[k - 1] in rows;
    assert k < |rows| ==> rows[k] in rows;
  }

  /** From one row to the next nothing is left to settle. */
  lemma ToNextRow(w: World, k: nat)
    requires k <= |RowsUpTo(w, |w.domains|)|
    ensures Bound(w, k) <= NextRow(w, k) <= |w.domains|
    ensures SettledAt(w, NextRow(w, k)) == SettledAt(w, Bound(w, k))
  {
    BoundsInRange(w, k);
    forall j: nat | Bound(w, k) <= j < NextRow(w, k) ensures !Row(w, j) {
      NoRowBetween(w, k, j);
    }
    SkipGap(w, Bound(w, k), NextRow(w, k));
  }

  method NextRowStep(w: World, k: nat, rows: seq<RowRef>, keys: map<seq<string>, nat>, s: Settled) returns (s': Settled)
    requires RowsFor(w, RowsUpTo(w, |w.domains|), rows) && CountsLabels(w, |w.domains|, keys)
    requires k < |rows| && s == SettledAt(w, Bound(w, k))
    ensures s' == SettledAt(w, Bound(w, k + 1))
  {
    ToNextRow(w, k);
    ghost var n := NextRow(w, k);
    assert RowFor(w, n, rows[k]) && Bound(w, k + 1) == n + 1;
    s' := RowStep(w, n, rows[k], keys, s);
  }

  method SecondPass(w: World, pre: seq<DomainObs>, rows: seq<RowRef>, keys: map<seq<string>, nat>) returns (s: Settled)
    requires PassedOne(w, |w.domains|, pre, rows, keys)
    ensures s == SettledAt(w, |w.domains|)
  {
    s := Settled(pre, [], true, map[]);
    assert s.observed == ObservedAt(w, 0);
    for k := 0 to |rows|
      invariant s == SettledAt(w, Bound(w, k))
    {
      s := NextRowStep(w, k, rows, keys, s);
    }
    ToNextRow(w, |rows|);
  }

  /** observeDomains: the two passes give every observed domain its state and its samples by the rule. */
  method ObserveDomains(w: World)
    returns (observed: seq<DomainObs>, samples: seq<Sample>, ok: bool, shortFiles: map<string, Time>)
    ensures observed == DomainsSeen(w) && samples == SamplesUpTo(w, |w.domains|)
    ensures ok <==> NoInvalid(w, |w.domains|)
    ensures shortFiles == ShortFilesUpTo(w, |w.domains|)
    ensures ObservesAll(w, observed) && PublishesAll(w, samples)
  {
    AllAreObserved(w);
    AllArePublished(w);
    var pre, rows, keys := FirstPass(w);
    var s := SecondPass(w, pre, rows, keys);
    assert s.observed == DomainsSeen(w);
    return s.observed, s.samples, s.ok, s.shortFiles;
  }
}
