/**
  What prepared devices tell a container, read back from the entries and mounts they carry, and when a checkpoint of
  such devices is accepted (cmd/ascend-dra-kubeletplugin/state.go and metrics.go).
*/
module WrittenDevices {
  import opened Wrappers
  import opened Decimal
  import opened Text
  import opened CoreEnv
  import opened CorePrepare
  import opened RetryRule
  import opened MountPaths

  // ---- Which cards and limits ----

  /** The text is the physical ID that the node gives this device. */
  predicate ShowsCard(alloc: Allocatable, device: string, id: string) {
    device in alloc && alloc[device].physicalID.Some? && alloc[device].physicalID.value >= 0
    && id == Itoa(alloc[device].physicalID.value)
  }

  /** Cut at its commas, the text names the card of every result of the group, in the order of the results. */
  predicate ShowsCards(alloc: Allocatable, group: seq<AllocResult>, visible: string) {
    |Split(visible, ',')| == |group|
    && forall k :: 0 <= k < |group| ==> ShowsCard(alloc, group[k].device, Split(visible, ',')[k])
  }

  /** The texts parse back to the capacities of the group's first result. */
  predicate TellsLimits(alloc: Allocatable, first: AllocResult, memory: string, compute: string) {
    var bytes := CapacityValue(alloc, first, ["memory", "ascend.project-hami.io/memory"]);
    var cores := CapacityValue(alloc, first, ["cores", "ascend.project-hami.io/aicore", "aicore",
                                              "ascend.project-hami.io/cores"]);
    bytes.Some? && cores.Some? && bytes.value > 0 && bytes.value % 1048576 == 0 && 1 <= cores.value <= 100
    && ParseUint64(memory) == Some(bytes.value / 1048576) && ParseUint64(compute) == Some(cores.value)
  }

  predicate HasVariable(env: map<string, string>, key: string, value: string) {
    key in env && env[key] == value
  }

  /** The six variables of a group. */
  predicate TellsGroup(alloc: Allocatable, group: seq<AllocResult>, env: map<string, string>) {
    group != []
    && "ASCEND_VISIBLE_DEVICES" in env && ShowsCards(alloc, group, env["ASCEND_VISIBLE_DEVICES"])
    && "NPU_MEMORY_LIMIT_MB" in env && "NPU_COMPUTE_LIMIT" in env
    && TellsLimits(alloc, group[0], env["NPU_MEMORY_LIMIT_MB"], env["NPU_COMPUTE_LIMIT"])
    && HasVariable(env, "NPU_SCHED_POLICY", "dynamic")
    && HasVariable(env, "NPU_GLOBAL_SHM_PATH", "/hami-shared-region/global_registry")
    && HasVariable(env, "NPU_LOCAL_SHM_PATH", "/hami-vnpu-shmem/vnpu_local_shmem")
    && |env| == 6
  }

  lemma VisibleShowsCards(alloc: Allocatable, group: seq<AllocResult>)
    requires group != [] && AllVisible(alloc, group)
    ensures ShowsCards(alloc, group, Join(VisibleIDs(alloc, group), ','))
  {
    VisibleHasNoComma(alloc, group);
    JoinSplit(VisibleIDs(alloc, group), ',');
    forall k | 0 <= k < |group| ensures ShowsCard(alloc, group[k].device, VisibleIDs(alloc, group)[k]) {
      assert VisibleID(alloc, group[k].device).Some?;
    }
  }

  lemma NamesSpelled()
    ensures MEMORY_NAMES == ["memory", "ascend.project-hami.io/memory"]
    ensures CORES_NAMES == ["cores", "ascend.project-hami.io/aicore", "aicore", "ascend.project-hami.io/cores"]
  {
    assert DRIVER + "/memory" == "ascend.project-hami.io/memory";
    assert DRIVER + "/aicore" == "ascend.project-hami.io/aicore";
    assert DRIVER + "/cores" == "ascend.project-hami.io/cores";
  }

  lemma LimitsAreTold(alloc: Allocatable, group: seq<AllocResult>, dir: string)
    requires Applicable(alloc, group, dir)
    ensures var cores := CapacityValue(alloc, group[0], CORES_NAMES).value;
            TellsLimits(alloc, group[0], Digits(GroupBytes(alloc, group, dir) / MIB), Digits(cores))
  {
    NamesSpelled();
    WholeMebibytes(GroupBytes(alloc, group, dir));
    ParseUint64Printed(GroupBytes(alloc, group, dir) / MIB);
    ParseUint64Printed(CapacityValue(alloc, group[0], CORES_NAMES).value);
  }

  /** A group's shared edits tell the group's cards and limits, and nothing else. */
  lemma SharedTellsGroup(alloc: Allocatable, group: seq<AllocResult>, dir: string)
    requires Applicable(alloc, group, dir)
    ensures ReadEntries(GroupShared(alloc, group, dir).env).Some?
    ensures TellsGroup(alloc, group, ReadEntries(GroupShared(alloc, group, dir).env).value)
  {
    var visible, bytes := Join(VisibleIDs(alloc, group), ','), GroupBytes(alloc, group, dir);
    var cores := CapacityValue(alloc, group[0], CORES_NAMES).value;
    VariablesReadBack(visible, bytes, cores, dir);
    VisibleShowsCards(alloc, group);
    LimitsAreTold(alloc, group, dir);
    SixVariables(visible, bytes / MIB, cores);
  }

  lemma SixVariables(visible: string, mib: nat, priority: nat)
    ensures var env := CoreVariables(visible, mib, priority);
            && HasVariable(env, "ASCEND_VISIBLE_DEVICES", visible)
            && HasVariable(env, "NPU_MEMORY_LIMIT_MB", Digits(mib))
            && HasVariable(env, "NPU_COMPUTE_LIMIT", Digits(priority))
            && HasVariable(env, "NPU_SCHED_POLICY", "dynamic")
            && HasVariable(env, "NPU_GLOBAL_SHM_PATH", "/hami-shared-region/global_registry")
            && HasVariable(env, "NPU_LOCAL_SHM_PATH", "/hami-vnpu-shmem/vnpu_local_shmem")
            && |env| == 6
  {
    var env := CoreVariables(visible, mib, priority);
    assert env.Keys == {VISIBLE, MEMORY, COMPUTE, POLICY, GLOBAL_SHM, LOCAL_SHM};
  }

  /**
    Whenever what Prepare wrote is accepted again: the container is shown, in order, the cards of the results of the
    group whose shared edits survive, and that group's quota and cores.
  */
  lemma SurvivorIsTold(
      alloc: Allocatable, a: Allocation, dir: string, w: Walk, devices: seq<PreparedDevice>, k: nat)
    requires Plan(alloc, a, dir, w, devices) && Agreed(alloc, w, dir, k)
    ensures ReadEntries(AllEnv(devices)).Some?
    ensures TellsGroup(alloc, w.groups[w.applied[k]], ReadEntries(AllEnv(devices)).value)
  {
    var group := w.groups[w.applied[k]];
    var head := HeadIsListed(alloc, a, dir, w, devices, w.applied[k]);
    HeadCarriesShared(alloc, a, dir, w, devices, head, k);
    SharedTellsGroup(alloc, group, dir);
    var env := GroupShared(alloc, group, dir).env;
    forall m | 0 <= m < |devices| ensures EnvOf(devices[m]) == env || EnvOf(devices[m]) == [] {
      AgreedEdits(alloc, a, dir, w, devices, k, m);
    }
    assert EnvOf(devices[head]) == env;
    CopiesReadAsOne(devices, env, ReadEntries(env).value);
  }

  /** The prepared devices name the results of the allocation, each once. */
  lemma DevicesNameResults(alloc: Allocatable, a: Allocation, dir: string, w: Walk, devices: seq<PreparedDevice>)
    returns (list: seq<AllocResult>)
    requires Plan(alloc, a, dir, w, devices)
    ensures multiset(list) == multiset(a.results) && |list| == |devices|
    ensures forall m :: 0 <= m < |devices| ==>
              devices[m].request == list[m].request && devices[m].pool == list[m].pool
                && devices[m].device == list[m].device
  {
    list := InOrder(ConfigList(a), a.results, w.listed);
    PreparedIsPermutation(ConfigList(a), a.results, w.groups, w.listed);
  }

  /** The device carries the group's variables and the core mounts with the claim's directory, and nothing else. */
  ghost predicate CarriesGroup(alloc: Allocatable, group: seq<AllocResult>, dir: string, e: Edits) {
    && ReadEntries(e.env).Some? && TellsGroup(alloc, group, ReadEntries(e.env).value)
    && (forall file :: Below(file) ==> CorePaths(e.mounts, dir, file))
    && |e.env| == 6 && |e.mounts| == 7 && e.deviceNodes == [] && e.hooks == []
  }

  lemma SharedCarriesGroup(alloc: Allocatable, group: seq<AllocResult>, dir: string)
    requires Applicable(alloc, group, dir)
    ensures CarriesGroup(alloc, group, dir, GroupShared(alloc, group, dir))
  {
    SharedTellsGroup(alloc, group, dir);
    forall file | Below(file) ensures CorePaths(CoreMounts(dir), dir, file) {
      CoreMountsLead(dir, file);
    }
  }

  /** A device that heads a surviving group carries what the group has to tell; every other device carries nothing. */
  lemma DeviceCarries(
      alloc: Allocatable, a: Allocation, dir: string, w: Walk, devices: seq<PreparedDevice>, m: nat)
    requires Plan(alloc, a, dir, w, devices) && m < |devices|
    ensures devices[m].edits.Some?
    ensures forall k: nat :: Heads(w.groups, w.applied, devices[m].device, k) ==>
              CarriesGroup(alloc, w.groups[w.applied[k]], dir, devices[m].edits.value)
    ensures (forall k: nat :: !Heads(w.groups, w.applied, devices[m].device, k)) ==>
              devices[m].edits.value == Edits([], [], [], [])
  {
    if k: nat :| Heads(w.groups, w.applied, devices[m].device, k) {
      forall k: nat | Heads(w.groups, w.applied, devices[m].device, k)
        ensures devices[m].edits.Some?
                && CarriesGroup(alloc, w.groups[w.applied[k]], dir, devices[m].edits.value)
      {
        HeadCarriesShared(alloc, a, dir, w, devices, m, k);
        SharedCarriesGroup(alloc, w.groups[w.applied[k]], dir);
      }
    } else {
      OthersCarryNothing(alloc, a, dir, w, devices, m);
    }
  }

  // ---- When devices are accepted, told from their entries ----

  predicate NeverSet(entries: seq<string>, key: string) {
    forall i :: 0 <= i < |entries| && Cut(entries[i]).Some? ==> Cut(entries[i]).value.0 != key
  }

  ghost predicate SetsNumber(entries: seq<string>, key: string, n: nat) {
    exists text :: Binds(entries, key, text) && ParseUint64(text) == Some(n)
  }

  ghost predicate SetsPercent(entries: seq<string>, key: string) {
    exists n: nat :: SetsNumber(entries, key, n) && 1 <= n <= 100
  }

  predicate OneValueEach(entries: seq<string>) {
    forall i, j :: 0 <= i < j < |entries| ==> !SameKeyOtherValue(entries[i], entries[j])
  }

  predicate NoOldVariable(entries: seq<string>) {
    NeverSet(entries, "NPU_MEM_QUOTA") && NeverSet(entries, "NPU_PRIORITY")
    && NeverSet(entries, "NPU_FIXED_SHARE_RATIO") && NeverSet(entries, "NPU_OVERDRAFT_ENABLED")
  }

  /** The policy and the two paths that the core runtime expects. */
  predicate SetsRuntime(entries: seq<string>) {
    Binds(entries, "NPU_SCHED_POLICY", "dynamic")
    && Binds(entries, "NPU_GLOBAL_SHM_PATH", "/hami-shared-region/global_registry")
    && Binds(entries, "NPU_LOCAL_SHM_PATH", "/hami-vnpu-shmem/vnpu_local_shmem")
  }

  /** The entries are those of a core configuration with a quota of this many MiB. */
  ghost predicate SetsQuota(entries: seq<string>, mib: nat) {
    && OneValueEach(entries) && NoOldVariable(entries)
    && SetsNumber(entries, "NPU_MEMORY_LIMIT_MB", mib) && 1 <= mib < 0x1000_0000_0000
    && SetsPercent(entries, "NPU_COMPUTE_LIMIT") && SetsRuntime(entries)
  }

  predicate HasMount(d: PreparedDevice, hostPath: string, containerPath: string) {
    d.edits.Some? && exists j :: 0 <= j < |d.edits.value.mounts| && d.edits.value.mounts[j].hostPath == hostPath
                                 && d.edits.value.mounts[j].containerPath == containerPath
  }

  lemma NeverSetMeans(entries: seq<string>, env: map<string, string>, key: string)
    requires ReadEntries(entries) == Some(env)
    ensures NeverSet(entries, key) <==> key !in env
  {
    ReadEntriesMeans(entries);
    if key in env {
      assert Binds(entries, key, env[key]);
    }
    if !NeverSet(entries, key) {
      var i :| 0 <= i < |entries| && Cut(entries[i]).Some? && Cut(entries[i]).value.0 == key;
      assert Binds(entries, key, Cut(entries[i]).value.1);
    }
  }

  lemma SetsMeans(entries: seq<string>, env: map<string, string>, key: string, n: nat)
    requires ReadEntries(entries) == Some(env)
    ensures SetsNumber(entries, key, n) <==> ParseUint64(Lookup(env, key)) == Some(n)
  {
    ReadEntriesMeans(entries);
    if key in env {
      assert Binds(entries, key, env[key]);
    }
  }

  lemma BindsMeans(entries: seq<string>, env: map<string, string>, key: string, value: string)
    requires ReadEntries(entries) == Some(env) && value != ""
    ensures Binds(entries, key, value) <==> Lookup(env, key) == value
  {
    ReadEntriesMeans(entries);
  }

  lemma LegacyMeans(entries: seq<string>, env: map<string, string>)
    requires ReadEntries(entries) == Some(env)
    ensures NoOldVariable(entries) <==> !HasLegacy(env)
  {
    NeverSetMeans(entries, env, LEGACY[0]);
    NeverSetMeans(entries, env, LEGACY[1]);
    NeverSetMeans(entries, env, LEGACY[2]);
    NeverSetMeans(entries, env, LEGACY[3]);
  }

  lemma PercentMeans(entries: seq<string>, env: map<string, string>, key: string)
    requires ReadEntries(entries) == Some(env)
    ensures SetsPercent(entries, key) <==>
            ParseUint64(Lookup(env, key)).Some? && 1 <= ParseUint64(Lookup(env, key)).value <= 100
  {
    if n: nat :| SetsNumber(entries, key, n) && 1 <= n <= 100 {
      SetsMeans(entries, env, key, n);
    }
    if ParseUint64(Lookup(env, key)).Some? {
      SetsMeans(entries, env, key, ParseUint64(Lookup(env, key)).value);
    }
  }

  lemma RuntimeMeans(entries: seq<string>, env: map<string, string>)
    requires ReadEntries(entries) == Some(env)
    ensures SetsRuntime(entries) <==>
            Lookup(env, POLICY) == DYNAMIC && Lookup(env, GLOBAL_SHM) == GLOBAL_PATH
            && Lookup(env, LOCAL_SHM) == LOCAL_PATH
  {
    BindsMeans(entries, env, POLICY, DYNAMIC);
    BindsMeans(entries, env, GLOBAL_SHM, GLOBAL_PATH);
    BindsMeans(entries, env, LOCAL_SHM, LOCAL_PATH);
  }

  lemma OneValueMeans(entries: seq<string>)
    ensures OneValueEach(entries) <==> ReadEntries(entries).Some?
  {
    ReadEntriesMeans(entries);
  }

  lemma CompatibleParts(env: map<string, string>, mib: nat)
    requires ParseUint64(Lookup(env, MEMORY)) == Some(mib)
    ensures Compatible(env, true) <==>
            && !HasLegacy(env) && 1 <= mib < 0x1000_0000_0000
            && ParseUint64(Lookup(env, COMPUTE)).Some? && 1 <= ParseUint64(Lookup(env, COMPUTE)).value <= 100
            && Lookup(env, POLICY) == DYNAMIC && Lookup(env, GLOBAL_SHM) == GLOBAL_PATH
            && Lookup(env, LOCAL_SHM) == LOCAL_PATH
  {
  }

  lemma CompatibleMeans(entries: seq<string>, env: map<string, string>, mib: nat)
    requires ReadEntries(entries) == Some(env)
    ensures SetsQuota(entries, mib) <==> Compatible(env, true) && ParseUint64(Lookup(env, MEMORY)) == Some(mib)
  {
    SetsMeans(entries, env, MEMORY, mib);
    if ParseUint64(Lookup(env, MEMORY)) == Some(mib) {
      CompatibleParts(env, mib);
      OneValueMeans(entries);
      LegacyMeans(entries, env);
      PercentMeans(entries, env, COMPUTE);
      RuntimeMeans(entries, env);
    }
  }

  lemma RuntimeMounts(d: PreparedDevice)
    ensures MountsRuntime(d) <==> HasMount(d, RUNTIME_HOST, "/hami-vnpu-core")
  {
    if j :| 0 <= j < |MountsOf(d)| && RuntimeMount(MountsOf(d)[j]) {
      assert d.edits.value.mounts[j].hostPath == RUNTIME_HOST;
    }
    if HasMount(d, RUNTIME_HOST, "/hami-vnpu-core") {
      var j :| 0 <= j < |d.edits.value.mounts| && d.edits.value.mounts[j].hostPath == RUNTIME_HOST
               && d.edits.value.mounts[j].containerPath == "/hami-vnpu-core";
      assert RuntimeMount(MountsOf(d)[j]);
    }
  }

  /** Some device mounts the core runtime. */
  predicate MountsCore(devices: seq<PreparedDevice>) {
    exists k :: 0 <= k < |devices| && HasMount(devices[k], RUNTIME_HOST, "/hami-vnpu-core")
  }

  lemma MountsCoreMeans(devices: seq<PreparedDevice>)
    ensures MountsCore(devices) <==> exists k :: 0 <= k < |devices| && MountsRuntime(devices[k])
  {
    if k :| 0 <= k < |devices| && MountsRuntime(devices[k]) {
      RuntimeMounts(devices[k]);
    }
    if k :| 0 <= k < |devices| && HasMount(devices[k], RUNTIME_HOST, "/hami-vnpu-core") {
      RuntimeMounts(devices[k]);
    }
  }

  lemma QuotaOfEnv(devices: seq<PreparedDevice>, env: map<string, string>, mib: nat)
    requires ReadEntries(AllEnv(devices)) == Some(env)
    ensures CoreQuota(devices) == Some(mib * 1048576) <==>
            Compatible(env, true) && ParseUint64(Lookup(env, MEMORY)) == Some(mib) && MountsCore(devices)
  {
    MountsCoreMeans(devices);
  }

  /** Prepared devices are accepted with this quota exactly when their entries set it and one mounts the runtime. */
  lemma QuotaIff(devices: seq<PreparedDevice>, mib: nat)
    ensures CoreQuota(devices) == Some(mib * 1048576) <==> SetsQuota(AllEnv(devices), mib) && MountsCore(devices)
  {
    var env := ReadEntries(AllEnv(devices));
    if env.Some? {
      CompatibleMeans(AllEnv(devices), env.value, mib);
      QuotaOfEnv(devices, env.value, mib);
    } else {
      OneValueMeans(AllEnv(devices));
    }
  }

  /** For whole MiB within 64 bits Prepare refuses exactly the quota and cores that it would not accept again. */
  lemma WriterAgreesWithReader(visible: string, mib: nat, priority: nat, dir: string)
    requires mib < 0x1000_0000_0000 && dir != ""
    ensures Writable(mib * 1048576, priority, dir) <==> Compatible(CoreVariables(visible, mib, priority), true)
  {
    DigitsCanonical(mib);
    DigitsCanonical(priority);
    if Writable(mib * 1048576, priority, dir) {
      WrittenIsCompatible(visible, mib, priority);
    }
  }
}
