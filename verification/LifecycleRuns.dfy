/** What every run of Prepare, Unprepare and process restarts keeps, whatever I/O fails on the way. */
module LifecycleRuns {
  import opened Wrappers
  import opened ConfigResolution
  import opened CoreEnv
  import opened CorePrepare
  import opened RetryRule
  import opened TokenProtocol
  import opened Lifecycle

  datatype Op =
    | DoPrepare(claim: Claim, result: PrepareResult)
    | DoUnprepare(uid: string, unresult: UnprepareResult)
    | Restart

  /**
    The node with two facts about the past: `orphaned` are the claims whose compensating spec delete failed after
    a failed checkpoint write, `stripped` those whose Unprepare failed at the checkpoint after deleting the spec.
  */
  datatype Ledger = Ledger(node: Node, orphaned: set<string>, stripped: set<string>)

  /** NewDeviceState: memory is rebuilt from the checkpoint, with fresh tokens. */
  ghost predicate RestartPost(pre: Node, post: Node) {
    post.durable == pre.durable && post.specs == pre.specs && post.dirs == pre.dirs
    && Published(START, pre.durable, Tokens(post.prepared, post.table, post.next, None))
  }

  function OrphanedAfter(orphaned: set<string>, uid: string, r: PrepareResult): set<string> {
    match r
    case CheckpointFailed(_, specRemoved) => if specRemoved then orphaned - {uid} else orphaned + {uid}
    case Prepared(_) => orphaned - {uid}
    case _ => orphaned
  }

  function StrippedAfter(stripped: set<string>, uid: string, r: UnprepareResult): set<string> {
    match r
    case CheckpointNotWritten => stripped + {uid}
    case Unprepared => stripped - {uid}
    case DirNotRemoved => stripped - {uid}
    case _ => stripped
  }

  ghost predicate Step(alloc: Allocatable, root: string, l: Ledger, op: Op, l': Ledger) {
    match op
    case DoPrepare(claim, r) =>
      PreparePost(alloc, root, l.node, claim, l'.node, r)
      && l'.orphaned == OrphanedAfter(l.orphaned, claim.uid, r) && l'.stripped == l.stripped
    case DoUnprepare(uid, r) =>
      UnpreparePost(l.node, uid, l'.node, r)
      && l'.orphaned == l.orphaned && l'.stripped == StrippedAfter(l.stripped, uid, r)
    case Restart => RestartPost(l.node, l'.node) && l'.orphaned == l.orphaned && l'.stripped == l.stripped
  }

  const EMPTY := Ledger(Node(map[], map[], {}, map[], map[], 0), {}, {})

  ghost predicate Run(alloc: Allocatable, root: string, ls: seq<Ledger>, ops: seq<Op>) {
    |ls| == |ops| + 1 && ls[0] == EMPTY
    && forall k :: 0 <= k < |ops| ==> Step(alloc, root, ls[k], ops[k], ls[k + 1])
  }

  // ---- The invariant ----

  ghost predicate InMemory(n: Node) {
    n.prepared == n.durable && Inv(Tokens(n.prepared, n.table, n.next, None))
  }

  /** Every spec belongs to a checkpointed claim, or its compensating delete failed. */
  ghost predicate SpecsOwned(l: Ledger) {
    forall uid :: uid in l.node.specs ==> uid in l.node.durable || uid in l.orphaned
  }

  /** A prepared claim has its spec, with exactly the edits checkpointed, unless a failed Unprepare deleted it. */
  ghost predicate SpecsExact(l: Ledger) {
    forall uid :: Has(l.node.durable, uid) ==>
      if uid in l.node.specs then l.node.specs[uid] == SpecOf(l.node.durable[uid].devices) else uid in l.stripped
  }

  ghost predicate DirsKept(l: Ledger) {
    forall uid :: Has(l.node.durable, uid) ==> uid in l.node.dirs && ValidUID(uid)
  }

  ghost predicate Consistent(l: Ledger) {
    InMemory(l.node) && SpecsOwned(l) && SpecsExact(l) && DirsKept(l)
  }

  lemma InsertKeepsTokens(s: Tokens, uid: string, e: Entry)
    requires Inv(s) && s.swap.None? && !Has(s.prepared, uid)
    ensures Inv(Tokens(s.prepared[uid := e], if e.Nil? then s.table else s.table[uid := s.next + 1],
                       if e.Nil? then s.next else s.next + 1, None))
  {
  }

  lemma RemoveKeepsTokens(s: Tokens, uid: string)
    requires Inv(s) && s.swap.None?
    ensures Inv(Tokens(s.prepared - {uid}, s.table - {uid}, s.next, None))
  {
  }

  function TokensOf(n: Node): Tokens {
    Tokens(n.prepared, n.table, n.next, None)
  }

  lemma PrepareKeeps(alloc: Allocatable, root: string, l: Ledger, claim: Claim, r: PrepareResult, l': Ledger)
    requires Consistent(l) && Step(alloc, root, l, DoPrepare(claim, r), l')
    ensures Consistent(l')
  {
    var n, uid := l.node, claim.uid;
    if !r.Prepared? {
      FailedPrepareKeeps(alloc, root, l, claim, r, l');
    } else if Has(n.durable, uid) {
      assert l'.node == n.(dirs := n.dirs + {uid});
    } else {
      assert l'.node == AfterPrepare(n, uid, r.devices);
      NewClaimKeeps(l, uid, r.devices, l');
    }
  }

  lemma NewClaimKeeps(l: Ledger, uid: string, devices: seq<PreparedDevice>, l': Ledger)
    requires Consistent(l) && !Has(l.node.durable, uid) && ValidUID(uid)
    requires l' == Ledger(AfterPrepare(l.node, uid, devices), l.orphaned - {uid}, l.stripped)
    ensures Consistent(l')
  {
    var s, e := TokensOf(l.node), EntryOf(devices);
    InsertKeepsTokens(s, uid, e);
    assert TokensOf(l'.node) == Tokens(s.prepared[uid := e], if e.Nil? then s.table else s.table[uid := s.next + 1],
                                       if e.Nil? then s.next else s.next + 1, None);
  }

  lemma FailedPrepareKeeps(alloc: Allocatable, root: string, l: Ledger, claim: Claim, r: PrepareResult, l': Ledger)
    requires Consistent(l) && Step(alloc, root, l, DoPrepare(claim, r), l') && !r.Prepared?
    ensures Consistent(l')
  {
    var n, n', uid := l.node, l'.node, claim.uid;
    assert n'.durable == n.durable && n'.prepared == n.prepared && n'.table == n.table && n'.next == n.next;
    assert forall u :: u != uid ==> (u in n'.specs <==> u in n.specs) && (u in n.specs ==> n'.specs[u] == n.specs[u]);
    assert forall u :: u != uid && u in n.dirs ==> u in n'.dirs;
  }

  lemma UnprepareKeeps(alloc: Allocatable, root: string, l: Ledger, uid: string, r: UnprepareResult, l': Ledger)
    requires Consistent(l) && Step(alloc, root, l, DoUnprepare(uid, r), l')
    ensures Consistent(l')
  {
    if r == Unprepared || r == DirNotRemoved {
      RemovedKeeps(l, uid, l');
    }
  }

  lemma RemovedKeeps(l: Ledger, uid: string, l': Ledger)
    requires Consistent(l) && l'.node == WithoutClaim(l.node, uid).(dirs := l'.node.dirs)
    requires l'.orphaned == l.orphaned && l'.stripped == l.stripped - {uid}
    requires l.node.dirs - {uid} <= l'.node.dirs
    ensures Consistent(l')
  {
    RemoveKeepsTokens(TokensOf(l.node), uid);
  }

  lemma RestartKeeps(alloc: Allocatable, root: string, l: Ledger, l': Ledger)
    requires Consistent(l) && Step(alloc, root, l, Restart, l')
    ensures Consistent(l')
  {
  }

  lemma StepKeeps(alloc: Allocatable, root: string, l: Ledger, op: Op, l': Ledger)
    requires Consistent(l) && Step(alloc, root, l, op, l')
    ensures Consistent(l')
  {
    match op
    case DoPrepare(claim, r) => PrepareKeeps(alloc, root, l, claim, r, l');
    case DoUnprepare(uid, r) => UnprepareKeeps(alloc, root, l, uid, r, l');
    case Restart => RestartKeeps(alloc, root, l, l');
  }

  /** Lifecycle consistency between any two operations of any run. */
  lemma {:induction false} RunKeeps(alloc: Allocatable, root: string, ls: seq<Ledger>, ops: seq<Op>, k: nat)
    requires Run(alloc, root, ls, ops) && k < |ls|
    ensures Consistent(ls[k])
  {
    if k > 0 {
      RunKeeps(alloc, root, ls, ops, k - 1);
      StepKeeps(alloc, root, ls[k - 1], ops[k - 1], ls[k]);
    } else {
      assert Inv(TokensOf(EMPTY.node));
    }
  }

  /**
    A claim whose Unprepare succeeded is in no file and has no token any more; only a spec whose compensating delete
    had failed can be left, of a claim that was not in the checkpoint.
  */
  lemma UnpreparedLeavesNothing(
      alloc: Allocatable, root: string, ls: seq<Ledger>, ops: seq<Op>, k: nat, uid: string)
    requires Run(alloc, root, ls, ops) && k < |ops| && ops[k] == DoUnprepare(uid, Unprepared)
    ensures var n, n' := ls[k].node, ls[k + 1].node;
            && !Has(n'.durable, uid) && !Has(n'.prepared, uid) && uid !in n'.dirs && Read(TokensOf(n'), uid) == 0
            && (uid in n'.specs ==> !Has(n.durable, uid) && (uid in n.durable || uid in ls[k].orphaned))
            && forall u :: u != uid ==>
                 (u in n'.durable <==> u in n.durable) && (u in n'.specs <==> u in n.specs)
                 && (u in n'.dirs <==> u in n.dirs)
  {
    RunKeeps(alloc, root, ls, ops, k);
    RunKeeps(alloc, root, ls, ops, k + 1);
    assert Step(alloc, root, ls[k], ops[k], ls[k + 1]);
  }

  // ---- Tokens change with durable membership only ----

  /** Every other claim keeps its token, and the claim itself does unless its durable membership changes. */
  ghost predicate TouchesOne(n: Node, n': Node, uid: string) {
    (forall u :: u != uid ==> Read(TokensOf(n'), u) == Read(TokensOf(n), u))
    && ((Has(n'.durable, uid) <==> Has(n.durable, uid)) ==> n'.table == n.table)
    && (Has(n'.durable, uid) && !Has(n.durable, uid) ==> Read(TokensOf(n'), uid) == n.next + 1)
    && (!Has(n'.durable, uid) ==> Read(TokensOf(n'), uid) == 0)
  }

  lemma PrepareTouchesOneToken(alloc: Allocatable, root: string, n: Node, claim: Claim, r: PrepareResult, n': Node)
    requires InMemory(n) && PreparePost(alloc, root, n, claim, n', r)
    ensures TouchesOne(n, n', claim.uid)
  {
    if r.Prepared? && !Has(n.durable, claim.uid) {
      assert n' == AfterPrepare(n, claim.uid, r.devices);
    } else {
      assert n'.table == n.table && n'.durable == n.durable;
    }
  }

  lemma UnprepareTouchesOneToken(n: Node, uid: string, r: UnprepareResult, n': Node)
    requires InMemory(n) && UnpreparePost(n, uid, n', r)
    ensures TouchesOne(n, n', uid)
  {
    assert !Has(n.durable, uid) ==> uid !in n.table;
  }

  // ---- Idempotence ----

  /** A first Prepare gave these devices, and then a second one ran whose checkpoint read and directory calls worked. */
  ghost predicate Retried(
      alloc: Allocatable, root: string, n: Node, claim: Claim, devices: seq<PreparedDevice>, mid: Node,
      second: PrepareResult, end: Node)
  {
    && PreparePost(alloc, root, n, claim, mid, Prepared(devices))
    && PreparePost(alloc, root, mid, claim, end, second) && !second.ReadFailed? && !second.DirFailed?
  }

  /**
    Prepare a new claim, then prepare it again. A retry whose checkpoint read and directory calls work returns the
    same devices and changes nothing exactly when, in the order in which Prepare applied its groups, some group kept
    its shared edits and all that did wrote the same ones; otherwise it reports the claim as incompatible.
  */
  lemma RetryReturnsTheSame(
      alloc: Allocatable, root: string, n: Node, claim: Claim, devices: seq<PreparedDevice>, mid: Node,
      second: PrepareResult, end: Node)
    returns (walk: Walk)
    requires !Has(n.durable, claim.uid) && Retried(alloc, root, n, claim, devices, mid, second, end)
    requires claim.allocation.value.results != []
    ensures Plan(alloc, claim.allocation.value, ClaimDir(root, claim.uid), walk, devices)
    ensures second == Prepared(devices) && end == mid <==> SurvivorsAgree(alloc, walk, ClaimDir(root, claim.uid))
    ensures !SurvivorsAgree(alloc, walk, ClaimDir(root, claim.uid)) ==> second == Incompatible && end == mid
  {
    var a, dir := claim.allocation.value, ClaimDir(root, claim.uid);
    walk :| Plan(alloc, a, dir, walk, devices);
    RetryIsAccepted(alloc, a, dir, walk, devices);
    PlanIsNotEmpty(alloc, a, dir, walk, devices);
    assert Has(mid.durable, claim.uid);
    assert mid.dirs + {claim.uid} == mid.dirs;
  }

  /** However a first Prepare of the claim went, a retry whose I/O works returns its devices and changes nothing. */
  ghost predicate Idempotent(alloc: Allocatable, root: string, n: Node, claim: Claim) {
    forall devices, mid, second, end :: Retried(alloc, root, n, claim, devices, mid, second, end) ==>
      second == Prepared(devices) && end == mid
  }

  /** Prepare is idempotent for a claim exactly when the claim's own groups meet the condition. */
  lemma PrepareIsIdempotent(alloc: Allocatable, root: string, n: Node, claim: Claim)
    requires !Has(n.durable, claim.uid) && ValidUID(claim.uid) && DistinctCards(alloc)
    requires CanPrepare(alloc, claim, ClaimDir(root, claim.uid)) && claim.allocation.value.results != []
    ensures Idempotent(alloc, root, n, claim) <==> Retriable(claim.allocation.value)
  {
    var a, dir := claim.allocation.value, ClaimDir(root, claim.uid);
    RetriableInEveryOrder(alloc, claim, dir);
    if Retriable(a) {
      forall devices, mid, second, end | Retried(alloc, root, n, claim, devices, mid, second, end)
        ensures second == Prepared(devices) && end == mid
      {
        assert Planned(alloc, claim, dir, devices);
        var walk := RetryReturnsTheSame(alloc, root, n, claim, devices, mid, second, end);
        RetryIsAccepted(alloc, a, dir, walk, devices);
      }
    } else {
      var devices := RefusedInSomeOrder(alloc, claim, dir);
      var mid := PreparedThenRetried(alloc, root, n, claim, devices);
      assert Retried(alloc, root, n, claim, devices, mid, Incompatible, mid);
    }
  }

  /** What a retry of these devices gives when its I/O works. */
  function RetryOf(devices: seq<PreparedDevice>): PrepareResult {
    if CoreQuota(devices).Some? then Prepared(devices) else Incompatible
  }

  lemma PreparedThenRetried(alloc: Allocatable, root: string, n: Node, claim: Claim, devices: seq<PreparedDevice>)
    returns (mid: Node)
    requires !Has(n.durable, claim.uid) && ValidUID(claim.uid) && claim.allocation.Some?
    requires Planned(alloc, claim, ClaimDir(root, claim.uid), devices) && claim.allocation.value.results != []
    ensures PreparePost(alloc, root, n, claim, mid, Prepared(devices))
    ensures PreparePost(alloc, root, mid, claim, mid, RetryOf(devices))
  {
    PlannedIsNotEmpty(alloc, claim, ClaimDir(root, claim.uid), devices);
    mid := AfterPrepare(n, claim.uid, devices);
    assert mid.dirs + {claim.uid} == mid.dirs;
  }

  lemma PlanIsNotEmpty(alloc: Allocatable, a: Allocation, dir: string, walk: Walk, devices: seq<PreparedDevice>)
    requires Plan(alloc, a, dir, walk, devices)
    ensures |devices| == |a.results|
  {
    var list := InOrder(ConfigList(a), a.results, walk.listed);
    PreparedIsPermutation(ConfigList(a), a.results, walk.groups, walk.listed);
    assert |list| == |multiset(list)| == |multiset(a.results)| == |a.results|;
  }

  lemma PlannedIsNotEmpty(alloc: Allocatable, claim: Claim, dir: string, devices: seq<PreparedDevice>)
    requires Planned(alloc, claim, dir, devices)
    ensures |devices| == |claim.allocation.value.results|
  {
    var walk :| Plan(alloc, claim.allocation.value, dir, walk, devices);
    PlanIsNotEmpty(alloc, claim.allocation.value, dir, walk, devices);
  }

  /** A claim without results is stored as a nil list: preparing it again is a new Prepare, and leaves the same node. */
  lemma EmptyClaimIsPreparedAgain(
      alloc: Allocatable, root: string, n: Node, claim: Claim, first: seq<PreparedDevice>, mid: Node,
      second: seq<PreparedDevice>, end: Node)
    requires !Has(n.durable, claim.uid) && claim.allocation.Some? && claim.allocation.value.results == []
    requires PreparePost(alloc, root, n, claim, mid, Prepared(first))
    requires PreparePost(alloc, root, mid, claim, end, Prepared(second))
    ensures !Has(mid.durable, claim.uid) && first == second == [] && end == mid
  {
    var dir := ClaimDir(root, claim.uid);
    PlannedIsNotEmpty(alloc, claim, dir, first);
    assert mid == AfterPrepare(n, claim.uid, []);
    PlannedIsNotEmpty(alloc, claim, dir, second);
    assert end == AfterPrepare(mid, claim.uid, []);
    assert mid.dirs + {claim.uid} == mid.dirs;
  }

  // ---- A claim that cannot be retried ----

  lemma TwoClaimConfigs(c: AllocConfig, d: AllocConfig, driver: string, o: Object)
    requires c.source.FromClaim? && c.parameters == Some(Parameters(driver, Some(o)))
    requires d.source.FromClaim? && d.parameters == c.parameters
    ensures Resolvable([c, d], driver) && Part([c, d], FromClass) == [] && Part([c, d], FromClaim) == [c, d]
    ensures AllDecode([c, d], driver)
    ensures Decoded([c, d], driver) == [DeviceConfig(c.requests, o), DeviceConfig(d.requests, o)]
  {
    var none: seq<AllocConfig> := [];
    assert none + [c] == [c] && [c] + [d] == [c, d];
    OneMoreConfig(none, c, driver, o);
    OneMoreConfig([c], d, driver, o);
  }

  lemma OneMoreConfig(front: seq<AllocConfig>, c: AllocConfig, driver: string, o: Object)
    requires AllDecode(front, driver) && c.source.FromClaim? && c.parameters == Some(Parameters(driver, Some(o)))
    ensures AllDecode(front + [c], driver)
    ensures Part(front + [c], FromClass) == Part(front, FromClass)
    ensures Part(front + [c], FromClaim) == Part(front, FromClaim) + [c]
    ensures Decoded(front + [c], driver) == Decoded(front, driver) + [DeviceConfig(c.requests, o)]
  {
    var all := front + [c];
    assert all[..|all| - 1] == front;
  }

  lemma TwoConfigList(a: Allocation, c: AllocConfig, d: AllocConfig, o: Object)
    requires a.configs == [c, d]
    requires c.source.FromClaim? && c.parameters == Some(Parameters(DRIVER, Some(o)))
    requires d.source.FromClaim? && d.parameters == c.parameters
    ensures Resolvable(a.configs, DRIVER)
    ensures ConfigList(a) == [DEFAULT_CONFIG, DeviceConfig(c.requests, o), DeviceConfig(d.requests, o)]
  {
    TwoClaimConfigs(c, d, DRIVER, o);
    assert [] + [c, d] == [c, d];
  }

  /** Two results, each matched by a configuration of its own, make two groups. */
  lemma TwoGroups(list: seq<DeviceConfig>, r: AllocResult, t: AllocResult, i: nat)
    requires |list| == 3 && Matches(list[1].requests, r.request) && Matches(list[2].requests, t.request)
    requires !Matches(list[2].requests, r.request)
    ensures LastIndex(list, r.request) == 1 && LastIndex(list, t.request) == 2
    ensures Group(list, [r, t], i) == if i == 1 then [r] else if i == 2 then [t] else []
  {
    assert list[..2][1] == list[1];
    assert LastIndex(list, r.request) == LastIndex(list[..2], r.request) == 1;
    var one, both := [r], [r, t];
    assert one[..|one| - 1] == [] && both[..|both| - 1] == one;
    assert Under(list, one[..0], {i}) == [];
    assert Under(list, one, {i}) == if i == 1 then [r] else [];
  }

  /** Distinct devices under two configurations are prepared and then, with every I/O call working, refused. */
  lemma TwoConfigsAreRefused(
      alloc: Allocatable, root: string, uid: string, c: AllocConfig, d: AllocConfig, o: Object, r: AllocResult,
      t: AllocResult)
    returns (claim: Claim, devices: seq<PreparedDevice>, mid: Ledger)
    requires ValidUID(uid) && DistinctCards(alloc) && Acceptable(o)
    requires c.source.FromClaim? && c.parameters == Some(Parameters(DRIVER, Some(o)))
    requires d.source.FromClaim? && d.parameters == c.parameters
    requires c.requests == [r.request] && d.requests == [t.request] && r.request != t.request && r.device != t.device
    requires r.device in alloc && Applicable(alloc, [r], ClaimDir(root, uid))
    requires t.device in alloc && Applicable(alloc, [t], ClaimDir(root, uid))
    ensures claim == Claim(uid, Some(Allocation([c, d], [r, t]))) && DistinctDevices([r, t])
    ensures Run(alloc, root, [EMPTY, mid, mid], [DoPrepare(claim, Prepared(devices)), DoPrepare(claim, Incompatible)])
  {
    var a, dir := Allocation([c, d], [r, t]), ClaimDir(root, uid);
    claim := Claim(uid, Some(a));
    TwoConfigList(a, c, d, o);
    var list := ConfigList(a);
    TwoGroups(list, r, t, 0);
    forall i ensures GroupOk(alloc, list, a.results, dir, i) {
      TwoGroups(list, r, t, i);
    }
    var order := SomeOrder(ClaimGroups(a).Keys);
    var walk;
    walk, devices := PlanExists(alloc, claim, dir, order);
    assert LastIndex(list, a.results[0].request) != LastIndex(list, a.results[1].request);
    DistinctSurvives(alloc, a, dir, walk, devices);
    AcceptedWhenOneSurvives(alloc, a, dir, walk, devices);
    mid := PrepareTwice(alloc, root, claim, devices);
  }

  lemma PrepareTwice(alloc: Allocatable, root: string, claim: Claim, devices: seq<PreparedDevice>)
    returns (mid: Ledger)
    requires ValidUID(claim.uid) && Planned(alloc, claim, ClaimDir(root, claim.uid), devices)
    requires claim.allocation.value.results != []
    ensures Run(alloc, root, [EMPTY, mid, mid],
                [DoPrepare(claim, Prepared(devices)), DoPrepare(claim, RetryOf(devices))])
  {
    var node := PreparedThenRetried(alloc, root, EMPTY.node, claim, devices);
    mid := Ledger(node, {}, {});
    TwoSteps(alloc, root, mid, DoPrepare(claim, Prepared(devices)), DoPrepare(claim, RetryOf(devices)));
  }

  lemma TwoSteps(alloc: Allocatable, root: string, mid: Ledger, first: Op, second: Op)
    requires Step(alloc, root, EMPTY, first, mid) && Step(alloc, root, mid, second, mid)
    ensures Run(alloc, root, [EMPTY, mid, mid], [first, second])
  {
  }

  /** One MiB and 50 cores. */
  const SMALL := map["memory" := Whole(1048576), "cores" := Whole(50)]

  lemma SmallClaimApplies(alloc: Allocatable, group: seq<AllocResult>, dir: string)
    requires dir != "" && group != []
    requires forall k :: 0 <= k < |group| ==>
             group[k].consumed == SMALL && VisibleID(alloc, group[k].device).Some?
    ensures Applicable(alloc, group, dir)
  {
    assert MEMORY_NAMES[0] == "memory" && CORES_NAMES[0] == "cores";
    assert CapacityValue(alloc, group[0], MEMORY_NAMES) == Some(1048576);
    assert CapacityValue(alloc, group[0], CORES_NAMES) == Some(50) && Writable(1048576, 50, dir);
  }

  /** Such a claim: requests "a" and "b" with a configuration each, one card each, one MiB and 50 cores. */
  lemma SomeRetryIsRefused()
    returns (alloc: Allocatable, claim: Claim, devices: seq<PreparedDevice>, mid: Ledger)
    ensures DistinctCards(alloc) && claim.allocation.Some? && DistinctDevices(claim.allocation.value.results)
    ensures Run(alloc, "", [EMPTY, mid, mid], [DoPrepare(claim, Prepared(devices)), DoPrepare(claim, Incompatible)])
  {
    alloc := map["x" := DeviceInfo(Some(0), Some("u0"), map[]), "y" := DeviceInfo(Some(1), Some("u1"), map[])];
    var r, t := AllocResult("a", "p", "x", SMALL), AllocResult("b", "p", "y", SMALL);
    SmallClaimApplies(alloc, [r], ClaimDir("", "c"));
    SmallClaimApplies(alloc, [t], ClaimDir("", "c"));
    var o := NpuConfig(None);
    var c := AllocConfig(FromClaim, ["a"], Some(Parameters(DRIVER, Some(o))));
    claim, devices, mid := TwoConfigsAreRefused(alloc, "", "c", c, c.(requests := ["b"]), o, r, t);
  }

  // ---- A claim whose retry depends on the order ----

  /** The second group names the device of the first one's first result, and not the other way round. */
  lemma OrderDecides(groups: map<nat, seq<AllocResult>>, r: AllocResult, t: AllocResult, u: AllocResult)
    requires groups == map[1 := [r], 2 := [t, u]] && r.device == u.device != t.device
    ensures OneSurvives(groups, [1, 2]) && !OneSurvives(groups, [2, 1])
  {
    assert [t, u][1..] == [u] && [r][1..] == [];
    assert Names([t, u], r.device) by {
      assert [t, u][1].device == r.device;
    }
    assert NamesAt(groups, [1, 2], 1, r.device);
    LastSurvives(groups, [1, 2]);
    assert SoleSurvivor(groups, [1, 2], 1);
    BothLastSurvive(groups, [], 1, 2);
    assert [] + [2, 1] == [2, 1];
  }

  lemma TwoOrders(groups: map<nat, seq<AllocResult>>)
    requires groups.Keys == {1, 2}
    ensures Orders([1, 2], groups.Keys) && Orders([2, 1], groups.Keys)
  {
  }

  /** Under one order of the groups the devices are accepted again, under the other they are refused. */
  lemma BothOrders(
      alloc: Allocatable, root: string, claim: Claim, r: AllocResult, t: AllocResult, u: AllocResult)
    returns (kept: seq<PreparedDevice>, lost: seq<PreparedDevice>, mid: Ledger, mid': Ledger)
    requires ValidUID(claim.uid) && CanPrepare(alloc, claim, ClaimDir(root, claim.uid)) && DistinctCards(alloc)
    requires claim.allocation.value.results != [] && r.device == u.device != t.device
    requires ClaimGroups(claim.allocation.value) == map[1 := [r], 2 := [t, u]]
    ensures Run(alloc, root, [EMPTY, mid, mid], [DoPrepare(claim, Prepared(kept)), DoPrepare(claim, Prepared(kept))])
    ensures Run(alloc, root, [EMPTY, mid', mid'], [DoPrepare(claim, Prepared(lost)), DoPrepare(claim, Incompatible)])
  {
    var groups := ClaimGroups(claim.allocation.value);
    OrderDecides(groups, r, t, u);
    TwoOrders(groups);
    kept := DevicesInOrder(alloc, claim, ClaimDir(root, claim.uid), [1, 2]);
    mid := PrepareTwice(alloc, root, claim, kept);
    lost := DevicesInOrder(alloc, claim, ClaimDir(root, claim.uid), [2, 1]);
    mid' := PrepareTwice(alloc, root, claim, lost);
  }

  lemma DevicesInOrder(alloc: Allocatable, claim: Claim, dir: string, applied: seq<nat>)
    returns (devices: seq<PreparedDevice>)
    requires CanPrepare(alloc, claim, dir) && DistinctCards(alloc)
    requires Orders(applied, ClaimGroups(claim.allocation.value).Keys)
    ensures Planned(alloc, claim, dir, devices)
    ensures CoreQuota(devices).Some? <==> OneSurvives(ClaimGroups(claim.allocation.value), applied)
  {
    var walk;
    walk, devices := PlanExists(alloc, claim, dir, applied);
    ClaimGroupsAreAll(claim.allocation.value, walk.groups);
    AcceptedWhenOneSurvives(alloc, claim.allocation.value, dir, walk, devices);
  }

  /**
    Requests "a" and "b" with a configuration each, where "b" got two cards and the second is the one of "a". The
    claim is prepared; whether a retry returns its devices or refuses them depends on the order of a map walk.
  */
  lemma RetryDependsOnOrder()
    returns (alloc: Allocatable, claim: Claim, kept: seq<PreparedDevice>, lost: seq<PreparedDevice>, mid: Ledger,
             mid': Ledger)
    ensures DistinctCards(alloc)
    ensures Run(alloc, "", [EMPTY, mid, mid], [DoPrepare(claim, Prepared(kept)), DoPrepare(claim, Prepared(kept))])
    ensures Run(alloc, "", [EMPTY, mid', mid'], [DoPrepare(claim, Prepared(lost)), DoPrepare(claim, Incompatible)])
  {
    alloc := map["x" := DeviceInfo(Some(0), Some("u0"), map[]), "y" := DeviceInfo(Some(1), Some("u1"), map[])];
    var r, t := AllocResult("a", "p", "x", SMALL), AllocResult("b", "p", "y", SMALL);
    var u := AllocResult("b", "p", "x", SMALL);
    var o := NpuConfig(None);
    var c := AllocConfig(FromClaim, ["a"], Some(Parameters(DRIVER, Some(o))));
    var a := Allocation([c, c.(requests := ["b"])], [r, t, u]);
    claim := Claim("c", Some(a));
    SmallClaimApplies(alloc, [r], ClaimDir("", "c"));
    SmallClaimApplies(alloc, [t, u], ClaimDir("", "c"));
    ThreeResults(alloc, a, c, o, r, t, u, ClaimDir("", "c"));
    kept, lost, mid, mid' := BothOrders(alloc, "", claim, r, t, u);
  }

  /** Three results under two configurations: one result in the first group, two in the second. */
  lemma ThreeResults(
      alloc: Allocatable, a: Allocation, c: AllocConfig, o: Object, r: AllocResult, t: AllocResult, u: AllocResult,
      dir: string)
    requires a == Allocation([c, c.(requests := [t.request])], [r, t, u]) && Acceptable(o)
    requires c.source.FromClaim? && c.parameters == Some(Parameters(DRIVER, Some(o))) && c.requests == [r.request]
    requires r.request != t.request == u.request && r.device in alloc && t.device in alloc && u.device in alloc
    requires Applicable(alloc, [r], dir) && Applicable(alloc, [t, u], dir)
    ensures ClaimGroups(a) == map[1 := [r], 2 := [t, u]]
    ensures Resolvable(a.configs, DRIVER) && Preparable(alloc, ConfigList(a), a.results, dir)
  {
    TwoConfigList(a, c, c.(requests := [t.request]), o);
    var list := ConfigList(a);
    forall i: nat ensures Group(list, a.results, i) == if i == 1 then [r] else if i == 2 then [t, u] else [] {
      ThreeGroups(list, r, t, u, i);
    }
    assert ClaimGroups(a).Keys == {1, 2};
    forall i ensures GroupOk(alloc, list, a.results, dir, i) {
    }
  }

  lemma ThreeGroups(list: seq<DeviceConfig>, r: AllocResult, t: AllocResult, u: AllocResult, i: nat)
    requires |list| == 3 && Matches(list[1].requests, r.request) && Matches(list[2].requests, t.request)
    requires !Matches(list[2].requests, r.request) && u.request == t.request
    ensures Group(list, [r, t, u], i) == if i == 1 then [r] else if i == 2 then [t, u] else []
  {
    var all := [r, t, u];
    TwoGroups(list, r, t, i);
    assert all[..|all| - 1] == [r, t] && [t] + [u] == [t, u];
  }
}
