/**
  Turning an allocated claim into prepared devices in core mode: prepareDevices and applyLibvNPUConfig
  (cmd/ascend-dra-kubeletplugin/state.go).
*/
module CorePrepare {
  import opened Wrappers
  import opened Decimal
  import opened Text
  import opened CoreEnv
  import opened ConfigResolution

  type int64 = x: int | -0x8000_0000_0000_0000 <= x <= 0x7FFF_FFFF_FFFF_FFFF

  /** A resource quantity: an amount that AsInt64 returns, or one that it does not. */
  datatype Quantity = Whole(n: int64) | Inexact(exact: real) {
    function Amount(): real {
      if Whole? then n as real else exact
    }
  }

  datatype AllocResult = AllocResult(request: string, pool: string, device: string, consumed: map<string, Quantity>)

  datatype DeviceInfo = DeviceInfo(physicalID: Option<int>, uuid: Option<string>, capacity: map<string, Quantity>)

  type Allocatable = map<string, DeviceInfo>

  datatype Allocation = Allocation(configs: seq<AllocConfig>, results: seq<AllocResult>)

  datatype Claim = Claim(uid: string, allocation: Option<Allocation>)

  datatype PrepareError =
    | NotAllocated
    | BadConfig(error: ConfigError)
    | NotAllocatable(device: string)
    | Unrecognized
    | InvalidSharing
    | Inapplicable

  const DRIVER := "ascend.project-hami.io"
  const MEMORY_NAMES: seq<string> := ["memory", DRIVER + "/memory"]
  const CORES_NAMES: seq<string> := ["cores", DRIVER + "/aicore", "aicore", DRIVER + "/cores"]

  // ---- One group of results under one configuration ----

  function FirstNamed(capacity: map<string, Quantity>, names: seq<string>): Option<Quantity> {
    if names == [] then None
    else if names[0] in capacity then Some(capacity[names[0]])
    else FirstNamed(capacity, names[1..])
  }

  /** libvNPUCapacityValue: the consumed capacity under the first name it has, else the device's own. */
  function CapacityValue(alloc: Allocatable, result: AllocResult, names: seq<string>): Option<int> {
    var consumed := FirstNamed(result.consumed, names);
    var quantity :=
      if consumed.Some? then consumed
      else if result.device in alloc then FirstNamed(alloc[result.device].capacity, names)
      else None;
    if quantity.Some? && quantity.value.Whole? then Some(quantity.value.n) else None
  }

  /** The first of the names that this capacity map has. */
  ghost predicate FirstPresent(capacity: map<string, Quantity>, names: seq<string>, k: nat) {
    k < |names| && names[k] in capacity && forall j :: 0 <= j < k ==> names[j] !in capacity
  }

  predicate NonePresent(capacity: map<string, Quantity>, names: seq<string>) {
    forall j :: 0 <= j < |names| ==> names[j] !in capacity
  }

  /** AsInt64. */
  function AsInt(q: Quantity): Option<int> {
    if q.Whole? then Some(q.n) else None
  }

  lemma {:induction false} FirstNamedMeans(capacity: map<string, Quantity>, names: seq<string>)
    ensures forall k: nat :: FirstPresent(capacity, names, k) ==>
              FirstNamed(capacity, names) == Some(capacity[names[k]])
    ensures FirstNamed(capacity, names).None? <==> NonePresent(capacity, names)
  {
    if names != [] && names[0] !in capacity {
      FirstNamedMeans(capacity, names[1..]);
      assert forall j :: 0 < j < |names| ==> names[j] == names[1..][j - 1];
      forall k: nat | FirstPresent(capacity, names, k) ensures FirstNamed(capacity, names) == Some(capacity[names[k]]) {
        assert FirstPresent(capacity, names[1..], k - 1);
      }
    }
  }

  /**
    Which capacity a result counts with: the first of the names that it consumes; only when it consumes none of
    them, the first that its device offers; and nothing when that one is no int64 or neither has any of the names.
  */
  lemma CapacityValueMeans(alloc: Allocatable, result: AllocResult, names: seq<string>)
    ensures forall k: nat :: FirstPresent(result.consumed, names, k) ==>
              CapacityValue(alloc, result, names) == AsInt(result.consumed[names[k]])
    ensures NonePresent(result.consumed, names) && result.device in alloc ==>
              forall k: nat :: FirstPresent(alloc[result.device].capacity, names, k) ==>
                CapacityValue(alloc, result, names) == AsInt(alloc[result.device].capacity[names[k]])
    ensures NonePresent(result.consumed, names)
            && (result.device in alloc ==> NonePresent(alloc[result.device].capacity, names))
            ==> CapacityValue(alloc, result, names) == None
  {
    FirstNamedMeans(result.consumed, names);
    if result.device in alloc {
      FirstNamedMeans(alloc[result.device].capacity, names);
    }
  }

  function VisibleID(alloc: Allocatable, device: string): Option<string> {
    if device in alloc && alloc[device].physicalID.Some? && alloc[device].physicalID.value >= 0
    then Some(Digits(alloc[device].physicalID.value)) else None
  }

  /** Quantity.Equal compares amounts. */
  predicate SameAmounts(a: map<string, Quantity>, b: map<string, Quantity>) {
    forall name :: name in a && name in b ==> a[name].Amount() == b[name].Amount()
  }

  predicate SameConsumption(a: AllocResult, b: AllocResult) {
    SameAmounts(a.consumed, b.consumed)
  }

  predicate SharedConsumption(group: seq<AllocResult>) {
    forall i, j :: 0 <= i < j < |group| ==> SameConsumption(group[i], group[j])
  }

  predicate AllVisible(alloc: Allocatable, group: seq<AllocResult>) {
    forall i :: 0 <= i < |group| ==> VisibleID(alloc, group[i].device).Some?
  }

  function VisibleIDs(alloc: Allocatable, group: seq<AllocResult>): seq<string>
    requires AllVisible(alloc, group)
  {
    seq(|group|, i requires 0 <= i < |group| => VisibleID(alloc, group[i].device).value)
  }

  predicate Applicable(alloc: Allocatable, group: seq<AllocResult>, dir: string) {
    group != [] && SharedConsumption(group) && AllVisible(alloc, group)
    && CapacityValue(alloc, group[0], MEMORY_NAMES).Some? && CapacityValue(alloc, group[0], CORES_NAMES).Some?
    && Writable(CapacityValue(alloc, group[0], MEMORY_NAMES).value,
                CapacityValue(alloc, group[0], CORES_NAMES).value, dir)
  }

  /** The byte quota a group asks for. */
  function GroupBytes(alloc: Allocatable, group: seq<AllocResult>, dir: string): int
    requires Applicable(alloc, group, dir)
  {
    CapacityValue(alloc, group[0], MEMORY_NAMES).value
  }

  function GroupShared(alloc: Allocatable, group: seq<AllocResult>, dir: string): Edits
    requires Applicable(alloc, group, dir)
  {
    SharedEdits(Join(VisibleIDs(alloc, group), ','), GroupBytes(alloc, group, dir),
                CapacityValue(alloc, group[0], CORES_NAMES).value, dir)
  }

  const EMPTY_EDITS := Edits([], [], [], [])

  predicate Names(group: seq<AllocResult>, device: string) {
    exists i :: 0 <= i < |group| && group[i].device == device
  }

  /** The group's edits for one device: shared for the first result, empty for every later one. */
  function GroupEdits(alloc: Allocatable, group: seq<AllocResult>, dir: string, device: string): Edits
    requires Applicable(alloc, group, dir)
  {
    if Names(group[1..], device) then EMPTY_EDITS else GroupShared(alloc, group, dir)
  }

  method ValidateAllocationResult(group: seq<AllocResult>) returns (ok: bool)
    ensures ok <==> SharedConsumption(group)
  {
    var seen: map<string, Quantity> := map[];
    for i := 0 to |group|
      invariant SharedUpTo(group, i) && SeenUpTo(group, i, seen)
    {
      var fits, more := AddConsumed(seen, group[i].consumed);
      SeenTells(group, i, seen);
      if !fits {
        return false;
      }
      SeenOneMore(group, i, seen, more);
      seen := more;
    }
    return true;
  }

  /** The inner loop: one result's amounts against those seen so far. */
  method AddConsumed(seen: map<string, Quantity>, consumed: map<string, Quantity>)
    returns (ok: bool, more: map<string, Quantity>)
    ensures ok <==> SameAmounts(seen, consumed)
    ensures ok ==> Adds(seen, consumed, more)
  {
    more := seen;
    var todo := consumed.Keys;
    while todo != {}
      invariant todo <= consumed.Keys && more.Keys == seen.Keys + (consumed.Keys - todo)
      invariant forall name :: name in seen ==> more[name] == seen[name]
      invariant forall name :: name in consumed && name !in todo ==> more[name].Amount() == consumed[name].Amount()
    {
      var name :| name in todo;
      if name in more {
        if more[name].Amount() != consumed[name].Amount() {
          return false, more;
        }
      } else {
        more := more[name := consumed[name]];
      }
      todo := todo - {name};
    }
    return true, more;
  }

  /** `more` has every amount of both, and nothing else. */
  predicate Adds(seen: map<string, Quantity>, consumed: map<string, Quantity>, more: map<string, Quantity>) {
    more.Keys == seen.Keys + consumed.Keys && Includes(more, seen) && Includes(more, consumed)
  }

  predicate Includes(all: map<string, Quantity>, some: map<string, Quantity>) {
    forall name :: name in some ==> name in all && all[name].Amount() == some[name].Amount()
  }

  predicate SharedUpTo(group: seq<AllocResult>, n: nat)
    requires n <= |group|
  {
    forall i, j :: 0 <= i < j < n ==> SameConsumption(group[i], group[j])
  }

  /** `seen` holds the amount under every name that one of the first `n` results consumes. */
  ghost predicate SeenUpTo(group: seq<AllocResult>, n: nat, seen: map<string, Quantity>)
    requires n <= |group|
  {
    (forall k :: 0 <= k < n ==> Includes(seen, group[k].consumed))
    && forall name :: name in seen ==> exists k :: 0 <= k < n && name in group[k].consumed
  }

  lemma SeenTells(group: seq<AllocResult>, i: nat, seen: map<string, Quantity>)
    requires i < |group| && SharedUpTo(group, i) && SeenUpTo(group, i, seen)
    ensures SharedUpTo(group, i + 1) <==> SameAmounts(seen, group[i].consumed)
  {
    if SharedUpTo(group, i + 1) {
      forall name | name in seen && name in group[i].consumed
        ensures seen[name].Amount() == group[i].consumed[name].Amount()
      {
        var k :| 0 <= k < i && name in group[k].consumed;
        assert SameConsumption(group[k], group[i]) && Includes(seen, group[k].consumed);
      }
    }
    if SameAmounts(seen, group[i].consumed) {
      SharedWithAll(group, i, seen);
    }
  }

  lemma SharedWithAll(group: seq<AllocResult>, i: nat, seen: map<string, Quantity>)
    requires i < |group| && SharedUpTo(group, i) && SameAmounts(seen, group[i].consumed)
    requires forall k :: 0 <= k < i ==> Includes(seen, group[k].consumed)
    ensures SharedUpTo(group, i + 1)
  {
    forall k | 0 <= k < i ensures SameConsumption(group[k], group[i]) {
      SameThrough(group[k].consumed, seen, group[i].consumed);
    }
  }

  lemma SameThrough(few: map<string, Quantity>, seen: map<string, Quantity>, r: map<string, Quantity>)
    requires Includes(seen, few) && SameAmounts(seen, r)
    ensures SameAmounts(few, r)
  {
  }

  lemma SeenOneMore(group: seq<AllocResult>, i: nat, seen: map<string, Quantity>, more: map<string, Quantity>)
    requires i < |group| && SeenUpTo(group, i, seen) && Adds(seen, group[i].consumed, more)
    ensures SeenUpTo(group, i + 1, more)
  {
    forall k | 0 <= k < i + 1 ensures Includes(more, group[k].consumed) {
      if k < i {
        IncludesMore(more, seen, group[k].consumed);
      }
    }
    forall name | name in more ensures exists k :: 0 <= k < i + 1 && name in group[k].consumed {
      var k := ConsumerOf(group, i, seen, more, name);
    }
  }

  lemma ConsumerOf(
      group: seq<AllocResult>, i: nat, seen: map<string, Quantity>, more: map<string, Quantity>, name: string)
    returns (k: nat)
    requires i < |group| && SeenUpTo(group, i, seen) && more.Keys == seen.Keys + group[i].consumed.Keys && name in more
    ensures k <= i && name in group[k].consumed
  {
    if name in seen {
      k :| k < i && name in group[k].consumed;
    } else {
      k := i;
      assert name in more.Keys;
    }
  }

  lemma IncludesMore(all: map<string, Quantity>, some: map<string, Quantity>, few: map<string, Quantity>)
    requires Includes(all, some) && Includes(some, few)
    ensures Includes(all, few)
  {
  }

  method QuantityValue(capacity: map<string, Quantity>, names: seq<string>) returns (found: Option<Quantity>)
    ensures found == FirstNamed(capacity, names)
  {
    var i := 0;
    while i < |names|
      invariant 0 <= i <= |names|
      invariant FirstNamed(capacity, names) == FirstNamed(capacity, names[i..])
    {
      if names[i] in capacity {
        return Some(capacity[names[i]]);
      }
      i := i + 1;
    }
    return None;
  }

  method LibvNPUCapacityValue(alloc: Allocatable, result: AllocResult, names: seq<string>) returns (value: Option<int>)
    ensures value == CapacityValue(alloc, result, names)
  {
    var found := QuantityValue(result.consumed, names);
    if found.None? && result.device in alloc {
      found := QuantityValue(alloc[result.device].capacity, names);
    }
    return if found.Some? && found.value.Whole? then Some(found.value.n) else None;
  }

  method ApplyLibvNPUConfig(alloc: Allocatable, group: seq<AllocResult>, dir: string)
    returns (ok: bool, edits: map<string, Edits>)
    requires group != []
    ensures ok <==> Applicable(alloc, group, dir)
    ensures ok ==> (forall d :: d in edits <==> Names(group, d))
    ensures ok ==> forall d :: d in edits ==> edits[d] == GroupEdits(alloc, group, dir, d)
  {
    edits := map[];
    ok := ValidateAllocationResult(group);
    if !ok {
      return;
    }
    var ids: seq<string> := [];
    for i := 0 to |group|
      invariant AllVisible(alloc, group[..i]) && ids == VisibleIDs(alloc, group[..i])
    {
      var id := VisibleID(alloc, group[i].device);
      if id.None? {
        return false, map[];
      }
      ids := ids + [id.value];
    }
    assert group[..|group|] == group;
    var memory := LibvNPUCapacityValue(alloc, group[0], MEMORY_NAMES);
    if memory.None? {
      return false, map[];
    }
    var priority := LibvNPUCapacityValue(alloc, group[0], CORES_NAMES);
    if priority.None? || !Writable(memory.value, priority.value, dir) {
      return false, map[];
    }
    edits := SpreadEdits(group, SharedEdits(Join(ids, ','), memory.value, priority.value, dir));
  }

  /** The shared edits go to the first result's device; every later result overwrites its own with empty ones. */
  method SpreadEdits(group: seq<AllocResult>, shared: Edits) returns (edits: map<string, Edits>)
    requires group != []
    ensures forall d :: d in edits <==> Names(group, d)
    ensures forall d :: d in edits ==> edits[d] == if Names(group[1..], d) then EMPTY_EDITS else shared
  {
    edits := map[group[0].device := shared];
    for i := 1 to |group|
      invariant forall d :: d in edits <==> exists k :: 0 <= k < i && group[k].device == d
      invariant forall d :: d in edits ==>
                edits[d] == if exists k :: 1 <= k < i && group[k].device == d then EMPTY_EDITS else shared
    {
      edits := edits[group[i].device := EMPTY_EDITS];
    }
    forall d ensures Names(group[1..], d) <==> exists k :: 1 <= k < |group| && group[k].device == d {
      if k :| 1 <= k < |group| && group[k].device == d {
        assert group[1..][k - 1].device == d;
      }
    }
  }

  // ---- Grouping results by the configuration that applies ----

  /** Normalize, then Validate. */
  predicate Acceptable(config: Object) {
    config.NpuConfig?
    && var sharing := config.sharing.GetOr(Sharing("TimeSlicing", None, None));
    if sharing.strategy == "TimeSlicing" then
      sharing.timeSlicing.GetOr("Default") in ["Default", "Short", "Medium", "Long"]
    else
      sharing.strategy == "SpacePartitioning" && sharing.spacePartitioning.GetOr(1) >= 0
  }

  /** The position of the configuration applied to a request; 0, the default, when no later one matches. */
  function LastIndex(configs: seq<DeviceConfig>, request: string): nat {
    if configs == [] then 0
    else
      var last := |configs| - 1;
      if last == 0 || Matches(configs[last].requests, request) then last else LastIndex(configs[..last], request)
  }

  lemma {:induction false} ChosenIsLastIndex(configs: seq<DeviceConfig>, request: string, i: nat)
    requires configs != [] && configs[0] == DEFAULT_CONFIG && ChosenAt(configs, request, i)
    ensures i == LastIndex(configs, request)
  {
    var n := |configs| - 1;
    if i < n {
      assert !Matches(configs[n].requests, request);
      ChosenIsLastIndex(configs[..n], request, i);
    }
  }

  /** The results, in order, whose configuration is one of `picked`. */
  function Under(configs: seq<DeviceConfig>, results: seq<AllocResult>, picked: set<nat>): seq<AllocResult> {
    if results == [] then []
    else
      var n := |results| - 1;
      Under(configs, results[..n], picked)
      + if LastIndex(configs, results[n].request) in picked then [results[n]] else []
  }

  function Group(configs: seq<DeviceConfig>, results: seq<AllocResult>, i: nat): seq<AllocResult> {
    Under(configs, results, {i})
  }

  predicate AllAllocatable(alloc: Allocatable, results: seq<AllocResult>) {
    forall k :: 0 <= k < |results| ==> results[k].device in alloc
  }

  ghost predicate GroupOk(
      alloc: Allocatable, configs: seq<DeviceConfig>, results: seq<AllocResult>, dir: string, i: nat)
  {
    Group(configs, results, i) != [] ==>
      i < |configs| && Acceptable(configs[i].config) && Applicable(alloc, Group(configs, results, i), dir)
  }

  ghost predicate Preparable(alloc: Allocatable, configs: seq<DeviceConfig>, results: seq<AllocResult>, dir: string) {
    AllAllocatable(alloc, results) && forall i :: GroupOk(alloc, configs, results, dir, i)
  }

  lemma {:induction false} GroupMembers(configs: seq<DeviceConfig>, results: seq<AllocResult>, picked: set<nat>)
    ensures forall r :: r in Under(configs, results, picked) <==>
              r in results && LastIndex(configs, r.request) in picked
  {
    if results != [] {
      var n := |results| - 1;
      GroupMembers(configs, results[..n], picked);
      assert results == results[..n] + [results[n]];
    }
  }

  lemma {:induction false} UnderSplits(configs: seq<DeviceConfig>, results: seq<AllocResult>, picked: set<nat>, i: nat)
    requires i !in picked
    ensures multiset(Under(configs, results, picked + {i}))
         == multiset(Under(configs, results, picked)) + multiset(Group(configs, results, i))
  {
    if results != [] {
      UnderSplits(configs, results[..|results| - 1], picked, i);
    }
  }

  lemma AllButLast(configs: seq<DeviceConfig>, results: seq<AllocResult>, picked: set<nat>)
    requires results != [] && forall r :: r in results ==> LastIndex(configs, r.request) in picked
    ensures LastIndex(configs, results[|results| - 1].request) in picked
    ensures forall r :: r in results[..|results| - 1] ==> LastIndex(configs, r.request) in picked
  {
    assert results[|results| - 1] in results;
    forall r | r in results[..|results| - 1] ensures LastIndex(configs, r.request) in picked {
      assert r in results;
    }
  }

  lemma {:induction false} UnderAll(configs: seq<DeviceConfig>, results: seq<AllocResult>, picked: set<nat>)
    requires forall r :: r in results ==> LastIndex(configs, r.request) in picked
    ensures Under(configs, results, picked) == results
  {
    if results != [] {
      AllButLast(configs, results, picked);
      UnderAll(configs, results[..|results| - 1], picked);
    }
  }

  method GroupResults(alloc: Allocatable, configs: seq<DeviceConfig>, results: seq<AllocResult>)
    returns (bad: Option<string>, groups: map<nat, seq<AllocResult>>)
    requires configs != [] && configs[0] == DEFAULT_CONFIG
    ensures bad.None? <==> AllAllocatable(alloc, results)
    ensures bad.None? ==> Grouped(configs, results, groups)
  {
    groups := map[];
    for k := 0 to |results|
      invariant forall j :: 0 <= j < k ==> results[j].device in alloc
      invariant Grouped(configs, results[..k], groups)
    {
      var r := results[k];
      if r.device !in alloc {
        return Some(r.device), groups;
      }
      var at := Choose(configs, r.request);
      assert Matches(configs[0].requests, r.request);
      ChosenIsLastIndex(configs, r.request, at.value);
      GroupOneMore(configs, results, k, groups);
      groups := groups[at.value := (if at.value in groups then groups[at.value] else []) + [r]];
    }
    assert results[..|results|] == results;
    bad := None;
  }

  lemma GroupOneMore(
      configs: seq<DeviceConfig>, results: seq<AllocResult>, k: nat, groups: map<nat, seq<AllocResult>>)
    requires k < |results| && Grouped(configs, results[..k], groups)
    ensures var i := LastIndex(configs, results[k].request);
            Grouped(configs, results[..k + 1], groups[i := (if i in groups then groups[i] else []) + [results[k]]])
  {
    var i := LastIndex(configs, results[k].request);
    forall j: nat
      ensures Group(configs, results[..k + 1], j)
              == Group(configs, results[..k], j) + if j == i then [results[k]] else []
    {
      assert results[..k + 1][..k] == results[..k];
    }
    forall j: nat | j != i ensures Group(configs, results[..k + 1], j) == Group(configs, results[..k], j) {
    }
  }

  /** The map holds exactly the non-empty groups. */
  ghost predicate Grouped(configs: seq<DeviceConfig>, results: seq<AllocResult>, groups: map<nat, seq<AllocResult>>) {
    forall i: nat :: if i in groups then groups[i] != [] && groups[i] == Group(configs, results, i)
                     else Group(configs, results, i) == []
  }

  /** The group applied at step `k` names this device. */
  predicate NamesAt(groups: map<nat, seq<AllocResult>>, applied: seq<nat>, k: nat, device: string)
    requires k < |applied|
  {
    applied[k] in groups && Names(groups[applied[k]], device)
  }

  /** The group applied at step `k` is the last one to name this device. */
  ghost predicate LastNaming(groups: map<nat, seq<AllocResult>>, applied: seq<nat>, device: string, k: nat) {
    k < |applied| && NamesAt(groups, applied, k, device)
    && forall j {:trigger NamesAt(groups, applied, j, device)} :: k < j < |applied| ==>
      !NamesAt(groups, applied, j, device)
  }

  predicate AppliesAt(
      alloc: Allocatable, groups: map<nat, seq<AllocResult>>, dir: string, applied: seq<nat>, k: nat)
    requires k < |applied|
  {
    applied[k] in groups && groups[applied[k]] != [] && Applicable(alloc, groups[applied[k]], dir)
  }

  ghost predicate AppliesAll(alloc: Allocatable, groups: map<nat, seq<AllocResult>>, dir: string, applied: seq<nat>) {
    forall k {:trigger AppliesAt(alloc, groups, dir, applied, k)} :: 0 <= k < |applied| ==>
      AppliesAt(alloc, groups, dir, applied, k)
  }

  predicate Carries(
      alloc: Allocatable, group: seq<AllocResult>, dir: string, edits: map<string, Edits>, device: string)
  {
    Applicable(alloc, group, dir) && device in edits && edits[device] == GroupEdits(alloc, group, dir, device)
  }

  /** Applying the groups in this order leaves every named device the edits of the last group that names it. */
  ghost predicate Merged(
      alloc: Allocatable, groups: map<nat, seq<AllocResult>>, dir: string, applied: seq<nat>, edits: map<string, Edits>)
  {
    AppliesAll(alloc, groups, dir, applied)
    && (forall d :: d in edits <==> exists k :: 0 <= k < |applied| && NamesAt(groups, applied, k, d))
    && (forall d, k: nat :: LastNaming(groups, applied, d, k) ==> Carries(alloc, groups[applied[k]], dir, edits, d))
  }

  method ApplyGroups(alloc: Allocatable, configs: seq<DeviceConfig>, groups: map<nat, seq<AllocResult>>, dir: string)
    returns (failure: Option<PrepareError>, edits: map<string, Edits>, ghost applied: seq<nat>)
    requires forall i :: i in groups ==> i < |configs| && groups[i] != []
    ensures failure.None? <==>
              forall i :: i in groups ==> Acceptable(configs[i].config) && Applicable(alloc, groups[i], dir)
    ensures failure.None? ==> Orders(applied, groups.Keys) && Merged(alloc, groups, dir, applied, edits)
  {
    edits, applied := map[], [];
    var todo := groups.Keys;
    while todo != {}
      invariant todo <= groups.Keys && Orders(applied, groups.Keys - todo)
      invariant forall i :: i in groups && i !in todo ==>
                Acceptable(configs[i].config) && Applicable(alloc, groups[i], dir)
      invariant Merged(alloc, groups, dir, applied, edits)
    {
      var i :| i in todo;
      if configs[i].config.OtherObject? {
        return Some(Unrecognized), edits, applied;
      }
      if !Acceptable(configs[i].config) {
        return Some(InvalidSharing), edits, applied;
      }
      var ok, more := ApplyLibvNPUConfig(alloc, groups[i], dir);
      if !ok {
        return Some(Inapplicable), edits, applied;
      }
      MergeOne(alloc, groups, dir, applied, edits, i, more);
      edits, applied := edits + more, applied + [i];
      todo := todo - {i};
    }
    failure := None;
  }

  lemma MergeOne(
      alloc: Allocatable, groups: map<nat, seq<AllocResult>>, dir: string, applied: seq<nat>, edits: map<string, Edits>,
      i: nat, more: map<string, Edits>)
    requires Merged(alloc, groups, dir, applied, edits) && i in groups && groups[i] != []
             && Applicable(alloc, groups[i], dir)
    requires forall d :: d in more <==> Names(groups[i], d)
    requires forall d :: d in more ==> more[d] == GroupEdits(alloc, groups[i], dir, d)
    ensures Merged(alloc, groups, dir, applied + [i], edits + more)
  {
    AppliesOneMore(alloc, groups, dir, applied, i);
    forall d
      ensures d in edits + more <==> exists k :: 0 <= k < |applied + [i]| && NamesAt(groups, applied + [i], k, d)
    {
      NamedAfterOne(groups, applied, i, d);
    }
    forall d, k: nat | LastNaming(groups, applied + [i], d, k)
      ensures Carries(alloc, groups[(applied + [i])[k]], dir, edits + more, d)
    {
      LastCarries(alloc, groups, dir, applied, edits, i, more, d, k);
    }
  }

  lemma AppliesOneMore(
      alloc: Allocatable, groups: map<nat, seq<AllocResult>>, dir: string, applied: seq<nat>, i: nat)
    ensures AppliesAll(alloc, groups, dir, applied + [i])
            <==> AppliesAll(alloc, groups, dir, applied)
                 && i in groups && groups[i] != [] && Applicable(alloc, groups[i], dir)
  {
    var all := applied + [i];
    assert AppliesAt(alloc, groups, dir, all, |applied|)
           <==> i in groups && groups[i] != [] && Applicable(alloc, groups[i], dir);
    forall k | 0 <= k < |applied|
      ensures AppliesAt(alloc, groups, dir, all, k) <==> AppliesAt(alloc, groups, dir, applied, k)
    {
    }
  }

  lemma LastCarries(
      alloc: Allocatable, groups: map<nat, seq<AllocResult>>, dir: string, applied: seq<nat>, edits: map<string, Edits>,
      i: nat, more: map<string, Edits>, d: string, k: nat)
    requires Merged(alloc, groups, dir, applied, edits) && i in groups && Applicable(alloc, groups[i], dir)
    requires forall d :: d in more <==> Names(groups[i], d)
    requires forall d :: d in more ==> more[d] == GroupEdits(alloc, groups[i], dir, d)
    requires LastNaming(groups, applied + [i], d, k)
    ensures Carries(alloc, groups[(applied + [i])[k]], dir, edits + more, d)
  {
    assert NamesAt(groups, applied + [i], k, d);
    if k < |applied| {
      assert !NamesAt(groups, applied + [i], |applied|, d);
      LastNamingBefore(groups, applied, i, d, k);
      assert Carries(alloc, groups[applied[k]], dir, edits, d);
    }
  }

  lemma NamedAfterOne(groups: map<nat, seq<AllocResult>>, applied: seq<nat>, i: nat, d: string)
    requires i in groups
    ensures (exists k :: 0 <= k < |applied + [i]| && NamesAt(groups, applied + [i], k, d))
            <==> Names(groups[i], d) || exists k :: 0 <= k < |applied| && NamesAt(groups, applied, k, d)
  {
    var all := applied + [i];
    assert NamesAt(groups, all, |applied|, d) <==> Names(groups[i], d);
    forall k | 0 <= k < |applied| ensures NamesAt(groups, all, k, d) <==> NamesAt(groups, applied, k, d) {
    }
    if k :| 0 <= k < |applied| && NamesAt(groups, applied, k, d) {
      assert NamesAt(groups, all, k, d);
    }
  }

  lemma LastNamingBefore(groups: map<nat, seq<AllocResult>>, applied: seq<nat>, i: nat, d: string, k: nat)
    requires k < |applied| && LastNaming(groups, applied + [i], d, k)
    ensures LastNaming(groups, applied, d, k)
  {
    forall j | k < j < |applied| ensures !NamesAt(groups, applied, j, d) {
      assert !NamesAt(groups, applied + [i], j, d);
    }
  }

  function Make(edits: map<string, Edits>, r: AllocResult): PreparedDevice {
    PreparedDevice(r.request, r.pool, r.device, if r.device in edits then Some(edits[r.device]) else None)
  }

  ghost predicate MadeFrom(devices: seq<PreparedDevice>, edits: map<string, Edits>, list: seq<AllocResult>) {
    |devices| == |list| && forall k :: 0 <= k < |list| ==> devices[k] == Make(edits, list[k])
  }

  /** The groups one after the other, in some order. */
  function InOrder(configs: seq<DeviceConfig>, results: seq<AllocResult>, order: seq<nat>): seq<AllocResult> {
    if order == [] then []
    else InOrder(configs, results, order[..|order| - 1]) + Group(configs, results, order[|order| - 1])
  }

  ghost predicate Distinct(order: seq<nat>) {
    forall i, j :: 0 <= i < j < |order| ==> order[i] != order[j]
  }

  /** `order` lists the members of `s`, each once. */
  ghost predicate Orders(order: seq<nat>, s: set<nat>) {
    Distinct(order) && forall i: nat :: i in order <==> i in s
  }

  /** In whatever order the groups are walked, every result comes exactly once. */
  lemma {:induction false} InOrderIsPermutation(
      configs: seq<DeviceConfig>, results: seq<AllocResult>, order: seq<nat>, s: set<nat>)
    requires Orders(order, s)
    ensures multiset(InOrder(configs, results, order)) == multiset(Under(configs, results, s))
    decreases |order|
  {
    if order == [] {
      assert forall i: nat :: i !in order;
      assert s == {};
      NoneUnder(configs, results);
    } else {
      var n := |order| - 1;
      var t := s - {order[n]};
      InOrderIsPermutation(configs, results, order[..n], t);
      assert t + {order[n]} == s;
      UnderSplits(configs, results, t, order[n]);
    }
  }

  /** The second walk over the groups, in an order of its own. */
  method ListGroups(
      ghost configs: seq<DeviceConfig>, ghost results: seq<AllocResult>, groups: map<nat, seq<AllocResult>>,
      edits: map<string, Edits>)
    returns (devices: seq<PreparedDevice>, ghost order: seq<nat>)
    requires Grouped(configs, results, groups)
    ensures Orders(order, groups.Keys)
    ensures MadeFrom(devices, edits, InOrder(configs, results, order))
  {
    devices, order := [], [];
    ghost var list: seq<AllocResult> := [];
    var todo := groups.Keys;
    while todo != {}
      invariant todo <= groups.Keys && Orders(order, groups.Keys - todo)
      invariant list == InOrder(configs, results, order) && MadeFrom(devices, edits, list)
    {
      var i :| i in todo;
      var made := MakeAll(groups[i], edits);
      devices, list := devices + made, list + groups[i];
      assert (order + [i])[..|order|] == order;
      order := order + [i];
      todo := todo - {i};
    }
  }

  /** So the prepared devices are a permutation of the allocation results. */
  lemma PreparedIsPermutation(
      configs: seq<DeviceConfig>, results: seq<AllocResult>, groups: map<nat, seq<AllocResult>>, order: seq<nat>)
    requires Grouped(configs, results, groups) && Orders(order, groups.Keys)
    ensures multiset(InOrder(configs, results, order)) == multiset(results)
  {
    InOrderIsPermutation(configs, results, order, groups.Keys);
    GroupsCover(configs, results, groups);
    UnderAll(configs, results, groups.Keys);
  }

  /** With one group the prepared devices keep the order of the results. */
  lemma OneGroupKeepsOrder(
      configs: seq<DeviceConfig>, results: seq<AllocResult>, groups: map<nat, seq<AllocResult>>, order: seq<nat>)
    requires Grouped(configs, results, groups) && Orders(order, groups.Keys) && |order| == 1
    ensures groups.Keys == {order[0]} && groups[order[0]] == results
    ensures InOrder(configs, results, order) == results
  {
    var rest := groups.Keys - {order[0]};
    assert forall i: nat :: i !in order[..0];
    assert rest == {};
    GroupsCover(configs, results, groups);
    UnderAll(configs, results, {order[0]});
    assert InOrder(configs, results, order[..0]) == [];
  }

  lemma {:induction false} NoneUnder(configs: seq<DeviceConfig>, results: seq<AllocResult>)
    ensures Under(configs, results, {}) == []
  {
    if results != [] {
      NoneUnder(configs, results[..|results| - 1]);
    }
  }

  lemma GroupsCover(configs: seq<DeviceConfig>, results: seq<AllocResult>, groups: map<nat, seq<AllocResult>>)
    requires Grouped(configs, results, groups)
    ensures forall r :: r in results ==> LastIndex(configs, r.request) in groups.Keys
  {
    forall r | r in results ensures LastIndex(configs, r.request) in groups.Keys {
      var i := LastIndex(configs, r.request);
      GroupMembers(configs, results, {i});
      assert r in Group(configs, results, i);
    }
  }

  method MakeAll(group: seq<AllocResult>, edits: map<string, Edits>) returns (made: seq<PreparedDevice>)
    ensures MadeFrom(made, edits, group)
  {
    made := [];
    for k := 0 to |group|
      invariant |made| == k && forall j :: 0 <= j < k ==> made[j] == Make(edits, group[j])
    {
      made := made + [Make(edits, group[k])];
    }
  }

  // ---- prepareDevices ----

  /** The configurations in order of precedence, lowest first, with the default in front. */
  function ConfigList(a: Allocation): seq<DeviceConfig> {
    var candidates := Part(a.configs, FromClass) + Part(a.configs, FromClaim);
    if AllDecode(candidates, DRIVER) then [DEFAULT_CONFIG] + Decoded(candidates, DRIVER) else [DEFAULT_CONFIG]
  }

  /**
    How the two walks over the groups went: the groups, the order they were applied in, and the order they were listed
    in.
  */
  datatype Walk = Walk(
    groups: map<nat, seq<AllocResult>>,
    applied: seq<nat>,
    edits: map<string, Edits>,
    listed: seq<nat>)

  /** The devices a walk gives; the two orders are independent of each other. */
  ghost predicate Plan(alloc: Allocatable, a: Allocation, dir: string, w: Walk, devices: seq<PreparedDevice>) {
    var configs := ConfigList(a);
    Grouped(configs, a.results, w.groups) && Orders(w.applied, w.groups.Keys)
    && Merged(alloc, w.groups, dir, w.applied, w.edits)
    && Orders(w.listed, w.groups.Keys) && MadeFrom(devices, w.edits, InOrder(configs, a.results, w.listed))
  }

  ghost predicate CanPrepare(alloc: Allocatable, claim: Claim, dir: string) {
    claim.allocation.Some? && Resolvable(claim.allocation.value.configs, DRIVER)
    && Preparable(alloc, ConfigList(claim.allocation.value), claim.allocation.value.results, dir)
  }

  /** The devices that some walk over the groups of a preparable claim gives. */
  ghost predicate Planned(alloc: Allocatable, claim: Claim, dir: string, devices: seq<PreparedDevice>) {
    CanPrepare(alloc, claim, dir)
    && exists walk :: Plan(alloc, claim.allocation.value, dir, walk, devices)
  }

  method PrepareDevices(alloc: Allocatable, claim: Claim, dir: string)
    returns (r: Result<seq<PreparedDevice>, PrepareError>, ghost walk: Walk)
    ensures r.Ok? <==> CanPrepare(alloc, claim, dir)
    ensures r.Ok? ==> Plan(alloc, claim.allocation.value, dir, walk, r.value)
    ensures r == Err(NotAllocated) <==> claim.allocation.None?
  {
    walk := Walk(map[], [], map[], []);
    if claim.allocation.None? {
      return Err(NotAllocated), walk;
    }
    var a := claim.allocation.value;
    var resolved := GetOpaqueDeviceConfigs(a.configs, DRIVER);
    if resolved.Err? {
      return Err(BadConfig(resolved.error)), walk;
    }
    var configs := [DEFAULT_CONFIG] + resolved.value;
    assert configs == ConfigList(a);
    var bad, groups := GroupResults(alloc, configs, a.results);
    if bad.Some? {
      return Err(NotAllocatable(bad.value)), walk;
    }
    GroupIndices(configs, a.results, groups);
    var failure, edits, applied := ApplyGroups(alloc, configs, groups, dir);
    GroupsOk(alloc, configs, a.results, dir, groups);
    if failure.Some? {
      return Err(if failure.value.NotAllocated? then Inapplicable else failure.value), walk;
    }
    var devices, listed := ListGroups(configs, a.results, groups, edits);
    return Ok(devices), Walk(groups, applied, edits, listed);
  }

  lemma {:induction false} LastIndexInRange(configs: seq<DeviceConfig>, request: string)
    requires configs != []
    ensures LastIndex(configs, request) < |configs|
  {
    if |configs| > 1 {
      LastIndexInRange(configs[..|configs| - 1], request);
    }
  }

  lemma GroupIndices(configs: seq<DeviceConfig>, results: seq<AllocResult>, groups: map<nat, seq<AllocResult>>)
    requires configs != [] && Grouped(configs, results, groups)
    ensures forall i :: i in groups ==> i < |configs| && groups[i] != []
  {
    forall i | i in groups ensures i < |configs| {
      GroupMembers(configs, results, {i});
      assert groups[i][0] in groups[i];
      LastIndexInRange(configs, groups[i][0].request);
    }
  }

  lemma GroupsOk(
      alloc: Allocatable, configs: seq<DeviceConfig>, results: seq<AllocResult>, dir: string,
      groups: map<nat, seq<AllocResult>>)
    requires Grouped(configs, results, groups) && AllAllocatable(alloc, results)
    requires forall i :: i in groups ==> i < |configs| && groups[i] != []
    ensures Preparable(alloc, configs, results, dir) <==>
            forall i :: i in groups ==> Acceptable(configs[i].config) && Applicable(alloc, groups[i], dir)
  {
    if Preparable(alloc, configs, results, dir) {
      forall i | i in groups ensures Acceptable(configs[i].config) && Applicable(alloc, groups[i], dir) {
        assert GroupOk(alloc, configs, results, dir, i);
      }
    }
  }

  // ---- A walk always exists ----

  /** The non-empty groups of a claim's results, by the position of their configuration. */
  function ClaimGroups(a: Allocation): map<nat, seq<AllocResult>> {
    var configs := ConfigList(a);
    map i: nat | i < |configs| && Group(configs, a.results, i) != [] :: Group(configs, a.results, i)
  }

  lemma ClaimGroupsAreAll(a: Allocation, groups: map<nat, seq<AllocResult>>)
    ensures Grouped(ConfigList(a), a.results, groups) <==> groups == ClaimGroups(a)
  {
    var configs := ConfigList(a);
    forall i: nat ensures i in ClaimGroups(a) <==> Group(configs, a.results, i) != [] {
      if Group(configs, a.results, i) != [] {
        GroupInRange(configs, a.results, i);
      }
    }
    if Grouped(configs, a.results, groups) {
      assert forall i :: i in groups <==> i in ClaimGroups(a);
    }
  }

  /** Whenever Prepare can succeed there are prepared devices for every order in which it may apply the groups. */
  lemma PlanExists(alloc: Allocatable, claim: Claim, dir: string, applied: seq<nat>)
    returns (w: Walk, devices: seq<PreparedDevice>)
    requires CanPrepare(alloc, claim, dir) && Orders(applied, ClaimGroups(claim.allocation.value).Keys)
    ensures Plan(alloc, claim.allocation.value, dir, w, devices) && w.applied == applied
  {
    var a := claim.allocation.value;
    var configs, groups := ConfigList(a), ClaimGroups(a);
    ClaimGroupsAreAll(a, groups);
    ClaimGroupsApply(alloc, a, dir, applied);
    var edits := SomeEdits(alloc, groups, dir, applied);
    devices := DevicesOf(edits, InOrder(configs, a.results, applied));
    w := Walk(groups, applied, edits, applied);
  }

  lemma ClaimGroupsApply(alloc: Allocatable, a: Allocation, dir: string, applied: seq<nat>)
    requires Preparable(alloc, ConfigList(a), a.results, dir) && Orders(applied, ClaimGroups(a).Keys)
    ensures AppliesAll(alloc, ClaimGroups(a), dir, applied)
  {
    forall k | 0 <= k < |applied| ensures AppliesAt(alloc, ClaimGroups(a), dir, applied, k) {
      assert applied[k] in ClaimGroups(a).Keys && GroupOk(alloc, ConfigList(a), a.results, dir, applied[k]);
    }
  }

  lemma DevicesOf(edits: map<string, Edits>, list: seq<AllocResult>) returns (devices: seq<PreparedDevice>)
    ensures MadeFrom(devices, edits, list)
  {
    devices := seq(|list|, k requires 0 <= k < |list| => Make(edits, list[k]));
  }

  lemma GroupInRange(configs: seq<DeviceConfig>, results: seq<AllocResult>, i: nat)
    requires configs != [] && Group(configs, results, i) != []
    ensures i < |configs|
  {
    GroupMembers(configs, results, {i});
    var r := Group(configs, results, i)[0];
    assert r in Group(configs, results, i);
    LastIndexInRange(configs, r.request);
  }

  lemma {:induction false} SomeOrder(s: set<nat>) returns (order: seq<nat>)
    ensures Orders(order, s)
  {
    order := [];
    if s != {} {
      var i :| i in s;
      var front := SomeOrder(s - {i});
      order := front + [i];
    }
  }

  lemma EditsOfGroup(alloc: Allocatable, group: seq<AllocResult>, dir: string) returns (edits: map<string, Edits>)
    requires Applicable(alloc, group, dir)
    ensures forall d :: d in edits <==> Names(group, d)
    ensures forall d :: d in edits ==> edits[d] == GroupEdits(alloc, group, dir, d)
  {
    var named := set r | r in group :: r.device;
    forall d ensures d in named <==> Names(group, d) {
      if k :| 0 <= k < |group| && group[k].device == d {
        assert group[k] in group;
      }
    }
    edits := map d | d in named :: GroupEdits(alloc, group, dir, d);
  }

  lemma {:induction false} SomeEdits(
      alloc: Allocatable, groups: map<nat, seq<AllocResult>>, dir: string, applied: seq<nat>)
    returns (edits: map<string, Edits>)
    requires AppliesAll(alloc, groups, dir, applied)
    ensures Merged(alloc, groups, dir, applied, edits)
  {
    edits := map[];
    if applied != [] {
      var n := |applied| - 1;
      var i := applied[n];
      assert applied[..n] + [i] == applied;
      AppliesOneMore(alloc, groups, dir, applied[..n], i);
      var front := SomeEdits(alloc, groups, dir, applied[..n]);
      var more := EditsOfGroup(alloc, groups[i], dir);
      MergeOne(alloc, groups, dir, applied[..n], front, i, more);
      edits := front + more;
    }
  }

  // ---- What a prepared device carries ----

  lemma {:induction false} LastNamingExists(groups: map<nat, seq<AllocResult>>, applied: seq<nat>, d: string, k: nat)
    returns (last: nat)
    requires k < |applied| && NamesAt(groups, applied, k, d)
    ensures LastNaming(groups, applied, d, last)
    decreases |applied| - k
  {
    if j: nat :| k < j < |applied| && NamesAt(groups, applied, j, d) {
      last := LastNamingExists(groups, applied, d, j);
    } else {
      last := k;
    }
  }

  /** The group that decides what the prepared device at `m` carries. */
  lemma DeciderOf(alloc: Allocatable, a: Allocation, dir: string, w: Walk, devices: seq<PreparedDevice>, m: nat)
    returns (k: nat)
    requires Plan(alloc, a, dir, w, devices) && m < |devices|
    ensures LastNaming(w.groups, w.applied, devices[m].device, k) && Applicable(alloc, w.groups[w.applied[k]], dir)
    ensures devices[m].edits == Some(GroupEdits(alloc, w.groups[w.applied[k]], dir, devices[m].device))
  {
    var configs := ConfigList(a);
    var list := InOrder(configs, a.results, w.listed);
    PreparedIsPermutation(configs, a.results, w.groups, w.listed);
    assert list[m] in multiset(list) && list[m] in a.results;
    var i := LastIndex(configs, list[m].request);
    GroupsCover(configs, a.results, w.groups);
    GroupMembers(configs, a.results, {i});
    assert i in w.applied && Names(w.groups[i], list[m].device);
    var at :| 0 <= at < |w.applied| && w.applied[at] == i;
    assert NamesAt(w.groups, w.applied, at, list[m].device);
    k := LastNamingExists(w.groups, w.applied, list[m].device, at);
    assert devices[m] == Make(w.edits, list[m]);
    assert Carries(alloc, w.groups[w.applied[k]], dir, w.edits, list[m].device);
  }
}
