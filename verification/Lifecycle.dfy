/**
  The claim lifecycle in core mode: Prepare, Unprepare and the metrics snapshot over a checkpoint, CDI specs and
  claim directories whose I/O may fail at every call (cmd/ascend-dra-kubeletplugin/state.go and metrics.go).
*/
module Lifecycle {
  import opened Wrappers
  import opened CoreEnv
  import opened CorePrepare
  import opened TokenProtocol
  import opened MonitorTypes

  // ---- The node's files ----

  predicate ValidUID(uid: string) {
    uid != "" && uid != "." && uid != ".." && '/' !in uid && '\\' !in uid
  }

  function AllMounts(devices: seq<PreparedDevice>): seq<Mount> {
    if devices == [] then [] else AllMounts(devices[..|devices| - 1]) + MountsOf(devices[|devices| - 1])
  }

  function AllDeviceNodes(devices: seq<PreparedDevice>): seq<DeviceNode> {
    if devices == [] then [] else AllDeviceNodes(devices[..|devices| - 1]) + DeviceNodesOf(devices[|devices| - 1])
  }

  function AllHooks(devices: seq<PreparedDevice>): seq<Hook> {
    if devices == [] then [] else AllHooks(devices[..|devices| - 1]) + HooksOf(devices[|devices| - 1])
  }

  /** The container edits of a claim's CDI spec: those of its devices, one after the other. */
  function SpecOf(devices: seq<PreparedDevice>): Edits {
    Edits(AllEnv(devices), AllDeviceNodes(devices), AllHooks(devices), AllMounts(devices))
  }

  /** Checkpoint file, CDI specs and claim directories. Every call either takes effect or fails without one. */
  class NodeFiles {
    var checkpoint: Claims
    var specs: map<string, Edits>
    var dirs: set<string>

    constructor (checkpoint: Claims, specs: map<string, Edits>, dirs: set<string>)
      ensures this.checkpoint == checkpoint && this.specs == specs && this.dirs == dirs
    {
      this.checkpoint, this.specs, this.dirs := checkpoint, specs, dirs;
    }

    method GetCheckpoint() returns (ok: bool, claims: Claims)
      ensures ok ==> claims == checkpoint
    {
      ok, claims := *, checkpoint;
    }

    method CreateCheckpoint(claims: Claims) returns (ok: bool)
      modifies this`checkpoint
      ensures checkpoint == if ok then claims else old(checkpoint)
    {
      ok := *;
      if ok {
        checkpoint := claims;
      }
    }

    method WriteSpec(uid: string, edits: Edits) returns (ok: bool)
      modifies this`specs
      ensures specs == if ok then old(specs)[uid := edits] else old(specs)
    {
      ok := *;
      if ok {
        specs := specs[uid := edits];
      }
    }

    method RemoveSpec(uid: string) returns (ok: bool)
      modifies this`specs
      ensures specs == if ok then old(specs) - {uid} else old(specs)
    {
      ok := *;
      if ok {
        specs := specs - {uid};
      }
    }

    method EnsureDir(uid: string) returns (ok: bool)
      modifies this`dirs
      ensures dirs == if ok then old(dirs) + {uid} else old(dirs)
      ensures ok ==> ValidUID(uid)
    {
      ok := *;
      ok := ok && ValidUID(uid);
      if ok {
        dirs := dirs + {uid};
      }
    }

    method RemoveDir(uid: string) returns (ok: bool)
      modifies this`dirs
      ensures dirs == if ok then old(dirs) - {uid} else old(dirs)
      ensures ok ==> ValidUID(uid)
    {
      ok := *;
      ok := ok && ValidUID(uid);
      if ok {
        dirs := dirs - {uid};
      }
    }
  }

  predicate AllHaveEdits(devices: seq<PreparedDevice>) {
    forall k :: 0 <= k < |devices| ==> devices[k].edits.Some?
  }

  function EnvLists(devices: seq<PreparedDevice>): seq<seq<string>>
    requires AllHaveEdits(devices)
  {
    seq(|devices|, k requires 0 <= k < |devices| => devices[k].edits.value.env)
  }

  function DeviceNodeLists(devices: seq<PreparedDevice>): seq<seq<DeviceNode>>
    requires AllHaveEdits(devices)
  {
    seq(|devices|, k requires 0 <= k < |devices| => devices[k].edits.value.deviceNodes)
  }

  function HookLists(devices: seq<PreparedDevice>): seq<seq<Hook>>
    requires AllHaveEdits(devices)
  {
    seq(|devices|, k requires 0 <= k < |devices| => devices[k].edits.value.hooks)
  }

  function MountLists(devices: seq<PreparedDevice>): seq<seq<Mount>>
    requires AllHaveEdits(devices)
  {
    seq(|devices|, k requires 0 <= k < |devices| => devices[k].edits.value.mounts)
  }

  /** In each kind of edit the merged list is what the devices carry, one device after the other. */
  ghost predicate Merges(merged: Edits, devices: seq<PreparedDevice>)
    requires AllHaveEdits(devices)
  {
    Concatenates(merged.env, EnvLists(devices)) && Concatenates(merged.deviceNodes, DeviceNodeLists(devices))
    && Concatenates(merged.hooks, HookLists(devices)) && Concatenates(merged.mounts, MountLists(devices))
  }

  lemma EnvListsStep(devices: seq<PreparedDevice>)
    requires AllHaveEdits(devices) && devices != []
    ensures var front := devices[..|devices| - 1];
            EnvLists(devices) == EnvLists(front) + [devices[|devices| - 1].edits.value.env]
  {
  }

  lemma {:induction false} EnvsConcatenate(devices: seq<PreparedDevice>)
    requires AllHaveEdits(devices)
    ensures Concatenates(AllEnv(devices), EnvLists(devices))
  {
    if devices != [] {
      var front, last := devices[..|devices| - 1], devices[|devices| - 1].edits.value.env;
      EnvsConcatenate(front);
      EnvListsStep(devices);
      ConcatenatesMore(AllEnv(front), EnvLists(front), last);
    }
  }

  lemma DeviceNodeListsStep(devices: seq<PreparedDevice>)
    requires AllHaveEdits(devices) && devices != []
    ensures var front := devices[..|devices| - 1];
            DeviceNodeLists(devices) == DeviceNodeLists(front) + [devices[|devices| - 1].edits.value.deviceNodes]
  {
  }

  lemma {:induction false} DeviceNodesConcatenate(devices: seq<PreparedDevice>)
    requires AllHaveEdits(devices)
    ensures Concatenates(AllDeviceNodes(devices), DeviceNodeLists(devices))
  {
    if devices != [] {
      var front, last := devices[..|devices| - 1], devices[|devices| - 1].edits.value.deviceNodes;
      DeviceNodesConcatenate(front);
      DeviceNodeListsStep(devices);
      ConcatenatesMore(AllDeviceNodes(front), DeviceNodeLists(front), last);
    }
  }

  lemma HookListsStep(devices: seq<PreparedDevice>)
    requires AllHaveEdits(devices) && devices != []
    ensures var front := devices[..|devices| - 1];
            HookLists(devices) == HookLists(front) + [devices[|devices| - 1].edits.value.hooks]
  {
  }

  lemma {:induction false} HooksConcatenate(devices: seq<PreparedDevice>)
    requires AllHaveEdits(devices)
    ensures Concatenates(AllHooks(devices), HookLists(devices))
  {
    if devices != [] {
      var front, last := devices[..|devices| - 1], devices[|devices| - 1].edits.value.hooks;
      HooksConcatenate(front);
      HookListsStep(devices);
      ConcatenatesMore(AllHooks(front), HookLists(front), last);
    }
  }

  lemma MountListsStep(devices: seq<PreparedDevice>)
    requires AllHaveEdits(devices) && devices != []
    ensures var front := devices[..|devices| - 1];
            MountLists(devices) == MountLists(front) + [devices[|devices| - 1].edits.value.mounts]
  {
  }

  lemma {:induction false} MountsConcatenate(devices: seq<PreparedDevice>)
    requires AllHaveEdits(devices)
    ensures Concatenates(AllMounts(devices), MountLists(devices))
  {
    if devices != [] {
      var front, last := devices[..|devices| - 1], devices[|devices| - 1].edits.value.mounts;
      MountsConcatenate(front);
      MountListsStep(devices);
      ConcatenatesMore(AllMounts(front), MountLists(front), last);
    }
  }

  lemma SpecMerges(devices: seq<PreparedDevice>)
    requires AllHaveEdits(devices)
    ensures Merges(SpecOf(devices), devices)
  {
    EnvsConcatenate(devices);
    DeviceNodesConcatenate(devices);
    HooksConcatenate(devices);
    MountsConcatenate(devices);
  }

  /** The merge loop of CreateClaimSpecFile. */
  method MergeDevices(devices: seq<PreparedDevice>) returns (merged: Edits)
    requires AllHaveEdits(devices)
    ensures merged == SpecOf(devices) && Merges(merged, devices)
  {
    SpecMerges(devices);
    merged := EMPTY_EDITS;
    for k := 0 to |devices|
      invariant merged == SpecOf(devices[..k])
    {
      assert devices[..k + 1][..k] == devices[..k];
      var more := devices[k].edits.value;
      merged := Edits(merged.env + more.env, merged.deviceNodes + more.deviceNodes, merged.hooks + more.hooks,
                      merged.mounts + more.mounts);
    }
    assert devices[..|devices|] == devices;
  }

  // ---- What an operation may do ----

  /** The node as an operation finds it and leaves it: durable files and in-memory state. */
  datatype Node = Node(
    durable: Claims,
    specs: map<string, Edits>,
    dirs: set<string>,
    prepared: Claims,
    table: map<string, nat>,
    next: nat)

  /** `planned` are the devices Prepare had worked out before its I/O failed. */
  datatype PrepareResult =
    | Prepared(devices: seq<PreparedDevice>)
    | ReadFailed
    | Incompatible
    | DirFailed
    | Rejected(error: PrepareError)
    | SpecFailed(planned: seq<PreparedDevice>)
    | CheckpointFailed(planned: seq<PreparedDevice>, specRemoved: bool)

  datatype UnprepareResult =
    | Unprepared
    | NotRead
    | SpecNotRemoved
    | CheckpointNotWritten
    | DirNotRemoved

  function EntryOf(devices: seq<PreparedDevice>): Entry {
    if devices == [] then Nil else Devices(devices)
  }

  function ClaimDir(root: string, uid: string): string {
    root + "/containers/" + uid
  }

  /** Every outcome of Prepare with its exact effect; `alloc` and `root` are the driver's configuration. */
  ghost predicate PreparePost(alloc: Allocatable, root: string, pre: Node, claim: Claim, post: Node, r: PrepareResult) {
    var uid := claim.uid;
    match r
    case ReadFailed => post == pre
    case Incompatible => post == pre && Has(pre.durable, uid) && CoreQuota(pre.durable[uid].devices).None?
    case DirFailed => post == pre && (Has(pre.durable, uid) ==> CoreQuota(pre.durable[uid].devices).Some?)
    case Rejected(_) =>
      !Has(pre.durable, uid) && !CanPrepare(alloc, claim, ClaimDir(root, uid)) && SameButDir(pre, post, uid)
    case SpecFailed(planned) =>
      !Has(pre.durable, uid) && Planned(alloc, claim, ClaimDir(root, uid), planned) && SameButDir(pre, post, uid)
    case CheckpointFailed(planned, specRemoved) =>
      !Has(pre.durable, uid) && Planned(alloc, claim, ClaimDir(root, uid), planned)
      && SameButDir(AfterCheckpointFailed(pre, uid, planned, specRemoved), post, uid)
    case Prepared(devices) =>
      ValidUID(uid)
      && if Has(pre.durable, uid) then
           // A retry: the same devices, and nothing changes but the directory coming back.
           devices == pre.durable[uid].devices && CoreQuota(devices).Some? && post == pre.(dirs := pre.dirs + {uid})
         else
           Planned(alloc, claim, ClaimDir(root, uid), devices) && post == AfterPrepare(pre, uid, devices)
  }

  /** The outcomes of Prepare for a new claim, before the deferred directory removal. */
  ghost predicate NewOutcome(alloc: Allocatable, root: string, pre: Node, claim: Claim, post: Node, r: PrepareResult) {
    if r.Rejected? then post == pre && !CanPrepare(alloc, claim, ClaimDir(root, claim.uid))
    else
      HasPlan(r) && Planned(alloc, claim, ClaimDir(root, claim.uid), PlannedBy(r))
      && StoreOutcome(pre, claim.uid, post, r)
  }

  predicate HasPlan(r: PrepareResult) {
    r.Prepared? || r.SpecFailed? || r.CheckpointFailed?
  }

  function PlannedBy(r: PrepareResult): seq<PreparedDevice>
    requires HasPlan(r)
  {
    if r.Prepared? then r.devices else r.planned
  }

  /** Writing the spec, then the checkpoint, with the compensating delete. */
  predicate StoreOutcome(pre: Node, uid: string, post: Node, r: PrepareResult)
    requires HasPlan(r)
  {
    match r
    case SpecFailed(_) => post == pre
    case CheckpointFailed(planned, specRemoved) => post == AfterCheckpointFailed(pre, uid, planned, specRemoved)
    case Prepared(devices) => post == AfterPrepare(pre, uid, devices)
  }

  /** The spec of a claim that did not get into the checkpoint is deleted, or left behind when that fails too. */
  function AfterCheckpointFailed(pre: Node, uid: string, planned: seq<PreparedDevice>, specRemoved: bool): Node {
    pre.(specs := if specRemoved then pre.specs - {uid} else pre.specs[uid := SpecOf(planned)])
  }

  function AfterPrepare(pre: Node, uid: string, devices: seq<PreparedDevice>): Node {
    var durable := pre.durable[uid := EntryOf(devices)];
    Node(durable, pre.specs[uid := SpecOf(devices)], pre.dirs + {uid}, durable,
         if devices == [] then pre.table else pre.table[uid := pre.next + 1],
         if devices == [] then pre.next else pre.next + 1)
  }

  /** The claim's directory is removed again, unless removing it failed; everything else is as in `pre`. */
  predicate SameButDir(pre: Node, post: Node, uid: string) {
    post == pre.(dirs := post.dirs) && (post.dirs == pre.dirs - {uid} || post.dirs == pre.dirs + {uid})
  }

  predicate UnpreparePost(pre: Node, uid: string, post: Node, r: UnprepareResult) {
    match r
    case NotRead => post == pre
    case SpecNotRemoved => post == pre && Has(pre.durable, uid)
    case CheckpointNotWritten => Has(pre.durable, uid) && post == pre.(specs := pre.specs - {uid})
    case DirNotRemoved => post == WithoutClaim(pre, uid)
    case Unprepared => ValidUID(uid) && post == WithoutClaim(pre, uid).(dirs := pre.dirs - {uid})
  }

  function WithoutClaim(pre: Node, uid: string): Node {
    if !Has(pre.durable, uid) then pre
    else
      pre.(durable := pre.durable - {uid}, prepared := pre.durable - {uid}, specs := pre.specs - {uid},
           table := pre.table - {uid})
  }

  lemma NewPost(alloc: Allocatable, root: string, pre: Node, claim: Claim, done: Node, post: Node, r: PrepareResult)
    requires !Has(pre.durable, claim.uid) && ValidUID(claim.uid)
    requires NewOutcome(alloc, root, pre.(dirs := pre.dirs + {claim.uid}), claim, done, r)
    requires if r.Prepared? then post == done else SameButDir(done, post, claim.uid)
    ensures PreparePost(alloc, root, pre, claim, post, r)
  {
    if r.Rejected? {
      SameWithDir(pre, done, post, claim.uid);
    } else {
      StorePost(pre, claim.uid, done, post, r);
    }
  }

  /** Making the directory first and removing it again leaves at most the directory behind. */
  lemma SameWithDir(left: Node, done: Node, post: Node, uid: string)
    requires done == left.(dirs := left.dirs + {uid}) && SameButDir(done, post, uid)
    ensures SameButDir(left, post, uid)
  {
    assert left.dirs + {uid} - {uid} == left.dirs - {uid} && left.dirs + {uid} + {uid} == left.dirs + {uid};
  }

  lemma StorePost(pre: Node, uid: string, done: Node, post: Node, r: PrepareResult)
    requires HasPlan(r) && StoreOutcome(pre.(dirs := pre.dirs + {uid}), uid, done, r)
    requires if r.Prepared? then post == done else SameButDir(done, post, uid)
    ensures match r
            case SpecFailed(_) => SameButDir(pre, post, uid)
            case CheckpointFailed(planned, specRemoved) =>
              SameButDir(AfterCheckpointFailed(pre, uid, planned, specRemoved), post, uid)
            case Prepared(devices) => post == AfterPrepare(pre, uid, devices)
  {
    match r
    case SpecFailed(_) => SameWithDir(pre, done, post, uid);
    case CheckpointFailed(planned, specRemoved) =>
      SameWithDir(AfterCheckpointFailed(pre, uid, planned, specRemoved), done, post, uid);
    case Prepared(_) => assert pre.dirs + {uid} + {uid} == pre.dirs + {uid};
  }

  /** What the two loops of setPreparedClaims and the final store add up to. */
  lemma SwapPublishes(before: Tokens, claims: Claims, kept: map<string, nat>, after: Tokens)
    requires TableExact(before) && before.swap.None?
    requires kept == map u | u in before.table && Has(claims, u) :: before.table[u]
    requires after.prepared == claims && after.swap.None? && Inv(after)
    requires after.next == before.next + |Newly(before.prepared, claims)|
    requires forall u :: u in kept ==> u in after.table && after.table[u] == kept[u]
    requires forall u :: u in after.table && u !in kept ==> before.next < after.table[u] <= after.next
    ensures Published(before, claims, after)
  {
    forall u | Has(claims, u) && Has(before.prepared, u) ensures after.table[u] == Read(before, u) {
      assert u in kept;
    }
    forall u | Has(claims, u) && !Has(before.prepared, u) ensures before.next < after.table[u] <= after.next {
      assert u !in kept;
    }
  }

  // ---- The driver state ----

  class DeviceState {
    const files: NodeFiles
    const allocatable: Allocatable
    const root: string
    var nextClaimGeneration: nat
    var monitorGenerations: map<string, nat>
    var prepared: Claims
    // History: every token state a lock-free reader could have seen since the process started.
    var trace: seq<Tokens>

    function Current(): Tokens
      reads this
    {
      Tokens(prepared, monitorGenerations, nextClaimGeneration, None)
    }

    ghost predicate Traced()
      reads this
    {
      Run(trace) && Now(trace) == Current()
    }

    /** At every lock release the prepared claims in memory are the durable ones. */
    ghost predicate Valid()
      reads this, files
    {
      Traced() && prepared == files.checkpoint
    }

    ghost function View(): Node
      reads this, files
    {
      Node(files.checkpoint, files.specs, files.dirs, prepared, monitorGenerations, nextClaimGeneration)
    }

    /** NewDeviceState: tokens are rebuilt from the checkpoint. */
    constructor (files: NodeFiles, allocatable: Allocatable, root: string)
      ensures Valid() && this.files == files && this.allocatable == allocatable && this.root == root
      ensures files.checkpoint == old(files.checkpoint) && files.specs == old(files.specs)
                && files.dirs == old(files.dirs)
      ensures Published(START, files.checkpoint, Current())
    {
      this.files, this.allocatable, this.root := files, allocatable, root;
      nextClaimGeneration, monitorGenerations, prepared := 0, map[], map[];
      trace := [START];
      new;
      SetPreparedClaims(files.checkpoint);
    }

    method SetPreparedClaims(claims: Claims)
      requires Traced()
      modifies this
      ensures Traced() && old(trace) <= trace
      ensures Published(old(Current()), claims, Current())
    {
      var before := Current();
      RunInv(trace, |trace| - 1);
      trace := Record(trace, before.(swap := Some(claims)));
      DropTokens(claims);
      ghost var kept := monitorGenerations;
      MintTokens(claims);
      prepared := claims;
      trace := Record(trace, Current());
      RunInv(trace, |trace| - 1);
      SwapPublishes(before, claims, kept, Current());
    }

    /** The loop that deletes the tokens of claims no longer prepared. */
    method DropTokens(claims: Claims)
      requires Run(trace) && Now(trace) == Current().(swap := Some(claims)) && TableExact(Current())
      modifies this`monitorGenerations, this`trace
      ensures Run(trace) && old(trace) <= trace && Now(trace) == Current().(swap := Some(claims))
      ensures monitorGenerations == map u | u in old(monitorGenerations) && Has(claims, u) :: old(monitorGenerations)[u]
    {
      ghost var start, table := trace, monitorGenerations;
      var todo := prepared.Keys;
      assert forall u :: u in table ==> u in todo;
      while todo != {}
        invariant todo <= prepared.Keys && start <= trace
        invariant Run(trace) && Now(trace) == Current().(swap := Some(claims))
        invariant monitorGenerations == map u | u in table && (u in todo || Has(claims, u)) :: table[u]
      {
        var uid :| uid in todo;
        if !Has(claims, uid) {
          ghost var s := Now(trace);
          var held := uid in monitorGenerations;
          monitorGenerations := monitorGenerations - {uid};
          if held {
            assert Drop(s, Current().(swap := Some(claims)), uid);
            trace := Record(trace, Current().(swap := Some(claims)));
          }
        }
        todo := todo - {uid};
      }
    }

    method MintToken(uid: string, claims: Claims)
      requires Run(trace) && Now(trace) == Current().(swap := Some(claims))
      requires Has(claims, uid) && !Has(prepared, uid) && uid !in monitorGenerations
      requires forall u :: u in monitorGenerations ==> Has(claims, u)
      modifies this`monitorGenerations, this`nextClaimGeneration, this`trace
      ensures Run(trace) && old(trace) <= trace && Now(trace) == Current().(swap := Some(claims))
      ensures nextClaimGeneration == old(nextClaimGeneration) + 1
      ensures monitorGenerations == old(monitorGenerations)[uid := nextClaimGeneration]
    {
      ghost var s := Now(trace);
      nextClaimGeneration := nextClaimGeneration + 1;
      monitorGenerations := monitorGenerations[uid := nextClaimGeneration];
      assert Mint(s, Current().(swap := Some(claims)), uid);
      trace := Record(trace, Current().(swap := Some(claims)));
    }

    /** The loop that stores a token for every newly prepared claim. */
    method MintTokens(claims: Claims)
      requires Run(trace) && Now(trace) == Current().(swap := Some(claims))
      requires forall u :: u in monitorGenerations <==> Has(prepared, u) && Has(claims, u)
      modifies this`monitorGenerations, this`nextClaimGeneration, this`trace
      ensures Run(trace) && old(trace) <= trace && Now(trace) == Current().(swap := Some(claims))
      ensures nextClaimGeneration == old(nextClaimGeneration) + |Newly(prepared, claims)|
      ensures forall u :: u in monitorGenerations <==> Has(claims, u)
      ensures forall u :: u in old(monitorGenerations) ==> monitorGenerations[u] == old(monitorGenerations)[u]
      ensures forall u :: u in monitorGenerations && u !in old(monitorGenerations) ==>
                old(nextClaimGeneration) < monitorGenerations[u] <= nextClaimGeneration
    {
      ghost var start, table, first := trace, monitorGenerations, nextClaimGeneration;
      var todo := claims.Keys;
      ghost var minted: set<string> := {};
      while todo != {}
        invariant todo <= claims.Keys && start <= trace
        invariant forall u :: u in minted <==> Has(claims, u) && !Has(prepared, u) && u !in todo
        invariant nextClaimGeneration == first + |minted|
        invariant Run(trace) && Now(trace) == Current().(swap := Some(claims))
        invariant forall u :: u in monitorGenerations <==> Has(claims, u) && (Has(prepared, u) || u !in todo)
        invariant forall u :: u in table ==> monitorGenerations[u] == table[u]
        invariant forall u :: u in monitorGenerations && u !in table ==>
                  first < monitorGenerations[u] <= nextClaimGeneration
      {
        var uid :| uid in todo;
        if Has(claims, uid) && !Has(prepared, uid) {
          MintToken(uid, claims);
          minted := minted + {uid};
        }
        todo := todo - {uid};
      }
      assert minted == Newly(prepared, claims);
    }

    method Prepare(claim: Claim) returns (r: PrepareResult)
      requires Valid()
      modifies this, files
      ensures Valid() && old(trace) <= trace
      ensures PreparePost(allocatable, root, old(View()), claim, View(), r)
    {
      var got, claims := files.GetCheckpoint();
      if !got {
        return ReadFailed;
      }
      if Has(claims, claim.uid) {
        r := Retry(claim.uid, claims);
        return;
      }
      var made := files.EnsureDir(claim.uid);
      if !made {
        return DirFailed;
      }
      ghost var pre, mid := old(View()), View();
      r := PrepareNew(claim, claims);
      ghost var done := View();
      if !r.Prepared? {
        var removed := files.RemoveDir(claim.uid);
      }
      NewPost(allocatable, root, pre, claim, done, View(), r);
    }

    /** Prepare for a claim the checkpoint already holds. */
    method Retry(uid: string, claims: Claims) returns (r: PrepareResult)
      requires Valid() && claims == files.checkpoint && Has(claims, uid)
      modifies this, files`dirs
      ensures Valid() && old(trace) <= trace
      ensures r.Incompatible? || r.DirFailed? || r.Prepared?
      ensures r.Incompatible? <==> CoreQuota(claims[uid].devices).None?
      ensures !r.Prepared? ==> View() == old(View())
      ensures r.Prepared? ==> ValidUID(uid) && r.devices == claims[uid].devices
                              && View() == old(View()).(dirs := old(View()).dirs + {uid})
    {
      PublishSame(claims);
      var quota, ok := PreparedCoreQuota(claims[uid].devices);
      if !ok {
        return Incompatible;
      }
      var made := files.EnsureDir(uid);
      if !made {
        return DirFailed;
      }
      return Prepared(claims[uid].devices);
    }

    /** Prepare for a new claim, between making its directory and the deferred removal. */
    method PrepareNew(claim: Claim, claims: Claims) returns (r: PrepareResult)
      requires Valid() && claims == files.checkpoint && !Has(claims, claim.uid)
      requires ValidUID(claim.uid) && claim.uid in files.dirs
      modifies this, files`specs, files`checkpoint
      ensures Valid() && old(trace) <= trace
      ensures NewOutcome(allocatable, root, old(View()), claim, View(), r)
    {
      var dir := ClaimDir(root, claim.uid);
      var result, walk := PrepareDevices(allocatable, claim, dir);
      if result.Err? {
        return Rejected(result.error);
      }
      PlannedHaveEdits(allocatable, claim.allocation.value, dir, walk, result.value);
      assert Planned(allocatable, claim, dir, result.value);
      r := Store(claim.uid, claims, result.value);
    }

    /** Merge what the devices carry and write it as the claim's spec. */
    method CreateClaimSpecFile(uid: string, devices: seq<PreparedDevice>) returns (ok: bool)
      requires AllHaveEdits(devices)
      modifies files`specs
      ensures files.specs == if ok then old(files.specs)[uid := SpecOf(devices)] else old(files.specs)
    {
      var spec := MergeDevices(devices);
      ok := files.WriteSpec(uid, spec);
    }

    /** Write the spec and the checkpoint, then publish. */
    method Store(uid: string, claims: Claims, devices: seq<PreparedDevice>) returns (r: PrepareResult)
      requires Valid() && claims == files.checkpoint && !Has(claims, uid) && uid in files.dirs
      requires AllHaveEdits(devices)
      modifies this, files`specs, files`checkpoint
      ensures Valid() && old(trace) <= trace
      ensures HasPlan(r) && PlannedBy(r) == devices && StoreOutcome(old(View()), uid, View(), r)
    {
      var written := CreateClaimSpecFile(uid, devices);
      if !written {
        return SpecFailed(devices);
      }
      var more := claims[uid := EntryOf(devices)];
      var stored := files.CreateCheckpoint(more);
      if !stored {
        var removed := files.RemoveSpec(uid);
        assert removed ==> files.specs == old(files.specs) - {uid};
        return CheckpointFailed(devices, removed);
      }
      PublishNew(uid, devices, more);
      assert files.dirs + {uid} == files.dirs;
      return Prepared(devices);
    }

    /** Publish claims that add one entry to those held. */
    method PublishNew(uid: string, devices: seq<PreparedDevice>, claims: Claims)
      requires Traced() && claims == prepared[uid := EntryOf(devices)] && !Has(prepared, uid)
      modifies this
      ensures Traced() && old(trace) <= trace && prepared == claims
      ensures monitorGenerations == if devices == [] then old(monitorGenerations)
                                    else old(monitorGenerations)[uid := old(nextClaimGeneration) + 1]
      ensures nextClaimGeneration == if devices == [] then old(nextClaimGeneration) else old(nextClaimGeneration) + 1
    {
      ghost var before := Current();
      RunInv(trace, |trace| - 1);
      SetPreparedClaims(claims);
      OneMemberChanges(before, claims, Current(), uid);
      assert devices == [] ==> before.table - {uid} == before.table;
    }

    method Unprepare(uid: string) returns (r: UnprepareResult)
      requires Valid()
      modifies this, files
      ensures Valid() && old(trace) <= trace
      ensures UnpreparePost(old(View()), uid, View(), r)
    {
      var got, claims := files.GetCheckpoint();
      if !got {
        return NotRead;
      }
      if !Has(claims, uid) {
        PublishSame(claims);
        var removed := files.RemoveDir(uid);
        return if removed then Unprepared else DirNotRemoved;
      }
      var deleted := files.RemoveSpec(uid);
      if !deleted {
        return SpecNotRemoved;
      }
      var stored := files.CreateCheckpoint(claims - {uid});
      if !stored {
        return CheckpointNotWritten;
      }
      PublishWithout(uid, claims - {uid});
      var removed := files.RemoveDir(uid);
      return if removed then Unprepared else DirNotRemoved;
    }

    /** Publish the claims already held: nothing changes. */
    method PublishSame(claims: Claims)
      requires Traced() && claims == prepared
      modifies this
      ensures Traced() && old(trace) <= trace && Current() == old(Current())
    {
      ghost var before := Current();
      RunInv(trace, |trace| - 1);
      SetPreparedClaims(claims);
      SameMembersKeepTable(before, claims, Current());
    }

    /** Publish the claims held without one of them. */
    method PublishWithout(uid: string, claims: Claims)
      requires Traced() && claims == prepared - {uid}
      modifies this
      ensures Traced() && old(trace) <= trace && prepared == claims
      ensures monitorGenerations == old(monitorGenerations) - {uid} && nextClaimGeneration == old(nextClaimGeneration)
    {
      ghost var before := Current();
      RunInv(trace, |trace| - 1);
      SetPreparedClaims(claims);
      OneMemberChanges(before, claims, Current(), uid);
    }

    // ---- The metrics snapshot ----

    predicate Identified(device: string)
    {
      device in allocatable ==>
        allocatable[device].physicalID.Some? && allocatable[device].physicalID.value >= 0
          && allocatable[device].uuid.Some?
    }

    ghost predicate Shown(uid: string, k: int)
      reads this
    {
      Has(prepared, uid) && 0 <= k < |prepared[uid].devices| && prepared[uid].devices[k].device in allocatable
    }

    /** The entry for the device at `k` of the claim: the claim's token and quota, the device's card and UUID. */
    ghost predicate IsDomain(d: Domain, uid: string, k: int)
      requires Shown(uid, k)
      reads this
    {
      var device, devices := prepared[uid].devices[k], prepared[uid].devices;
      && d.claimUID == uid && d.pool == device.pool && d.device == device.device
      && allocatable[device.device].physicalID == Some(d.physicalID) && allocatable[device.device].uuid == Some(d.uuid)
      && d.generation == (if uid in monitorGenerations then monitorGenerations[uid] else 0)
      && d.memoryLimit == QuotaResult(devices) && d.supported == CoreQuota(devices).Some?
    }

    ghost predicate FromClaim(d: Domain, uid: string)
      reads this
    {
      exists k :: Shown(uid, k) && IsDomain(d, uid, k)
    }

    /** The snapshot: every allocatable prepared device of every claim, with the claim's token. */
    method MetricsSnapshot() returns (domains: Option<seq<Domain>>)
      requires Valid()
      ensures domains.Some? <==> forall uid, k :: Shown(uid, k) ==> Identified(prepared[uid].devices[k].device)
      ensures domains.Some? ==> forall d :: d in domains.value <==>
                exists uid :: FromClaim(d, uid)
      ensures domains.Some? ==> Snapped(Current(), domains.value)
    {
      var result: seq<Domain> := [];
      var todo := prepared.Keys;
      while todo != {}
        invariant todo <= prepared.Keys
        invariant forall uid, k :: Shown(uid, k) && uid !in todo ==> Identified(prepared[uid].devices[k].device)
        invariant forall d :: d in result <==>
                    exists uid :: uid !in todo && FromClaim(d, uid)
      {
        var uid :| uid in todo;
        if Has(prepared, uid) {
          var ok, more := ClaimDomains(uid);
          if !ok {
            return None;
          }
          result := result + more;
        }
        todo := todo - {uid};
      }
      RunInv(trace, |trace| - 1);
      return Some(result);
    }

    method ClaimDomains(uid: string) returns (ok: bool, domains: seq<Domain>)
      requires Has(prepared, uid)
      ensures ok <==> forall k :: Shown(uid, k) ==> Identified(prepared[uid].devices[k].device)
      ensures ok ==> forall d :: d in domains <==> FromClaim(d, uid)
    {
      var devices := prepared[uid].devices;
      var quota, supported := PreparedCoreQuota(devices);
      domains := [];
      for k := 0 to |devices|
        invariant forall j :: Shown(uid, j) && j < k ==> Identified(devices[j].device)
        invariant forall d :: d in domains <==> exists j :: Shown(uid, j) && j < k && IsDomain(d, uid, j)
      {
        var name := devices[k].device;
        if name !in allocatable {
          continue;
        }
        assert Shown(uid, k);
        var info := allocatable[name];
        if info.physicalID.None? || info.uuid.None? || info.physicalID.value < 0 {
          return false, domains;
        }
        var d := Domain(uid, devices[k].pool, name, info.uuid.value,
                        if uid in monitorGenerations then monitorGenerations[uid] else 0,
                        info.physicalID.value, quota, supported);
        assert forall e :: IsDomain(e, uid, k) <==> e == d;
        domains := domains + [d];
      }
      ok := true;
    }
  }

  lemma PlannedHaveEdits(alloc: Allocatable, a: Allocation, dir: string, walk: Walk, devices: seq<PreparedDevice>)
    requires Plan(alloc, a, dir, walk, devices)
    ensures AllHaveEdits(devices)
  {
    forall k | 0 <= k < |devices| ensures devices[k].edits.Some? {
      var j := DeciderOf(alloc, a, dir, walk, devices, k);
    }
  }

  function Record(trace: seq<Tokens>, s: Tokens): (more: seq<Tokens>)
    requires Run(trace) && Next(Now(trace), s)
    ensures Run(more) && trace <= more && Now(more) == s
  {
    Extend(trace, s);
    trace + [s]
  }
}
