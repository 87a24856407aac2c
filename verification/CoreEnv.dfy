/**
  The environment a core-mode claim carries: how Prepare writes a quota into "KEY=value" entries and how
  preparedCoreQuota reads it back (cmd/ascend-dra-kubeletplugin/state.go and metrics.go).
*/
module CoreEnv {
  import opened Wrappers
  import opened Decimal

  datatype Mount = Mount(hostPath: string, containerPath: string, options: seq<string>)

  datatype DeviceNode = DeviceNode(path: string, hostPath: string)

  datatype Hook = Hook(name: string, path: string, args: seq<string>)

  datatype Edits = Edits(env: seq<string>, deviceNodes: seq<DeviceNode>, hooks: seq<Hook>, mounts: seq<Mount>)

  datatype PreparedDevice = PreparedDevice(request: string, pool: string, device: string, edits: Option<Edits>)

  const VISIBLE := "ASCEND_VISIBLE_DEVICES"
  const MEMORY := "NPU_MEMORY_LIMIT_MB"
  const COMPUTE := "NPU_COMPUTE_LIMIT"
  const POLICY := "NPU_SCHED_POLICY"
  const GLOBAL_SHM := "NPU_GLOBAL_SHM_PATH"
  const LOCAL_SHM := "NPU_LOCAL_SHM_PATH"
  const LEGACY: seq<string> := ["NPU_MEM_QUOTA", "NPU_PRIORITY", "NPU_FIXED_SHARE_RATIO", "NPU_OVERDRAFT_ENABLED"]

  const DYNAMIC := "dynamic"
  const GLOBAL_PATH := "/hami-shared-region/global_registry"
  const LOCAL_PATH := "/hami-vnpu-shmem/vnpu_local_shmem"
  const RUNTIME_HOST := "/usr/local/hami-vnpu-core/releases/98ec21f47d6c42c9ef092e7e7e55f10e7f838072"
  const RUNTIME_CONTAINER := "/hami-vnpu-core"

  const MIB: int := 1024 * 1024
  const MAX_MIB: int := MAX_UINT64 / MIB

  // ---- Entries ----

  /** strings.Cut(entry, "="): what stands before and after the first separator. */
  function Cut(entry: string): Option<(string, string)> {
    if entry == "" then None
    else if entry[0] == '=' then Some(("", entry[1..]))
    else
      match Cut(entry[1..])
      case None => None
      case Some((key, value)) => Some(([entry[0]] + key, value))
  }

  function Entry(key: string, value: string): string {
    key + "=" + value
  }

  lemma {:induction false} CutEntry(key: string, value: string)
    requires '=' !in key
    ensures Cut(Entry(key, value)) == Some((key, value))
  {
    var e := Entry(key, value);
    if key == "" {
      assert e[1..] == value;
    } else {
      assert '=' !in key[1..];
      CutEntry(key[1..], value);
      assert e[1..] == Entry(key[1..], value);
      assert [key[0]] + key[1..] == key;
    }
  }

  /** An entry is cut at its first separator, and only if it has one. */
  lemma {:induction false} CutMeans(entry: string)
    ensures Cut(entry).None? <==> '=' !in entry
    ensures forall key, value :: Cut(entry) == Some((key, value)) ==> '=' !in key && entry == Entry(key, value)
  {
    if entry != "" && entry[0] != '=' {
      CutMeans(entry[1..]);
      assert entry == [entry[0]] + entry[1..];
    }
  }

  /** Adding one entry to the variables read so far; None once two entries disagree. */
  function AddEntry(env: Option<map<string, string>>, entry: string): Option<map<string, string>> {
    match (env, Cut(entry))
    case (None, _) => None
    case (Some(m), None) => Some(m)
    case (Some(m), Some((key, value))) => if key in m && m[key] != value then None else Some(m[key := value])
  }

  function ReadEntries(entries: seq<string>): Option<map<string, string>> {
    if entries == [] then Some(map[]) else AddEntry(ReadEntries(entries[..|entries| - 1]), entries[|entries| - 1])
  }

  predicate SameKeyOtherValue(a: string, b: string) {
    Cut(a).Some? && Cut(b).Some? && Cut(a).value.0 == Cut(b).value.0 && Cut(a).value.1 != Cut(b).value.1
  }

  predicate Binds(entries: seq<string>, key: string, value: string) {
    exists i :: 0 <= i < |entries| && Cut(entries[i]) == Some((key, value))
  }

  /** Reading fails exactly when two entries give one variable two values; otherwise it gives every binding. */
  lemma {:induction false} ReadEntriesMeans(entries: seq<string>)
    ensures ReadEntries(entries).None? <==>
            exists i, j :: 0 <= i < j < |entries| && SameKeyOtherValue(entries[i], entries[j])
    ensures ReadEntries(entries).Some? ==>
              forall k, v :: Binds(entries, k, v) <==>
                k in ReadEntries(entries).value && ReadEntries(entries).value[k] == v
  {
    if entries != [] {
      var n := |entries| - 1;
      var front, last := entries[..n], entries[n];
      ReadEntriesMeans(front);
      if ReadEntries(front).None? {
        var i, j :| 0 <= i < j < n && SameKeyOtherValue(front[i], front[j]);
        assert SameKeyOtherValue(entries[i], entries[j]);
      } else {
        LastEntry(entries);
      }
    }
  }

  lemma BindsStep(entries: seq<string>, k: string, v: string)
    requires entries != []
    ensures Binds(entries, k, v) <==>
              Binds(entries[..|entries| - 1], k, v) || Cut(entries[|entries| - 1]) == Some((k, v))
  {
    var n := |entries| - 1;
    var front := entries[..n];
    if Binds(front, k, v) {
      var i :| 0 <= i < n && Cut(front[i]) == Some((k, v));
      assert Cut(entries[i]) == Some((k, v));
    }
  }

  lemma LastEntry(entries: seq<string>)
    requires entries != []
    requires var front := entries[..|entries| - 1];
             ReadEntries(front).Some?
             && (forall i, j :: 0 <= i < j < |front| ==> !SameKeyOtherValue(front[i], front[j]))
             && forall k, v :: Binds(front, k, v) <==> k in ReadEntries(front).value && ReadEntries(front).value[k] == v
    ensures ReadEntries(entries).None? <==>
            exists i, j :: 0 <= i < j < |entries| && SameKeyOtherValue(entries[i], entries[j])
    ensures ReadEntries(entries).Some? ==>
              forall k, v :: Binds(entries, k, v) <==>
                k in ReadEntries(entries).value && ReadEntries(entries).value[k] == v
  {
    var n := |entries| - 1;
    var front, last := entries[..n], entries[n];
    var m := ReadEntries(front).value;
    forall k, v ensures Binds(entries, k, v) <==> Binds(front, k, v) || Cut(last) == Some((k, v)) {
      BindsStep(entries, k, v);
    }
    assert forall i, j :: 0 <= i < j < n ==> !SameKeyOtherValue(entries[i], entries[j]) by {
      assert forall i :: 0 <= i < n ==> entries[i] == front[i];
    }
    ConflictWithLast(front, m, last);
    assert (exists i :: 0 <= i < n && SameKeyOtherValue(entries[i], last)) <==> ReadEntries(entries).None? by {
      assert forall i :: 0 <= i < n ==> entries[i] == front[i];
    }
  }

  lemma ConflictWithLast(front: seq<string>, m: map<string, string>, last: string)
    requires forall k, v :: Binds(front, k, v) <==> k in m && m[k] == v
    ensures (exists i :: 0 <= i < |front| && SameKeyOtherValue(front[i], last)) <==> AddEntry(Some(m), last).None?
  {
    if i :| 0 <= i < |front| && SameKeyOtherValue(front[i], last) {
      assert Binds(front, Cut(front[i]).value.0, Cut(front[i]).value.1);
    }
    if AddEntry(Some(m), last).None? {
      var key := Cut(last).value.0;
      assert Binds(front, key, m[key]);
      var i :| 0 <= i < |front| && Cut(front[i]) == Some((key, m[key]));
      assert SameKeyOtherValue(front[i], last);
    }
  }

  // ---- Reading a quota from prepared devices ----

  function EnvOf(d: PreparedDevice): seq<string> {
    if d.edits.Some? then d.edits.value.env else []
  }

  function DeviceNodesOf(d: PreparedDevice): seq<DeviceNode> {
    if d.edits.Some? then d.edits.value.deviceNodes else []
  }

  function HooksOf(d: PreparedDevice): seq<Hook> {
    if d.edits.Some? then d.edits.value.hooks else []
  }

  function MountsOf(d: PreparedDevice): seq<Mount> {
    if d.edits.Some? then d.edits.value.mounts else []
  }

  function AllEnv(devices: seq<PreparedDevice>): seq<string> {
    if devices == [] then [] else AllEnv(devices[..|devices| - 1]) + EnvOf(devices[|devices| - 1])
  }

  predicate RuntimeMount(m: Mount) {
    m.containerPath == RUNTIME_CONTAINER && m.hostPath == RUNTIME_HOST
  }

  predicate HasRuntime(mounts: seq<Mount>) {
    exists i :: 0 <= i < |mounts| && RuntimeMount(mounts[i])
  }

  predicate MountsRuntime(d: PreparedDevice) {
    HasRuntime(MountsOf(d))
  }

  function Lookup(env: map<string, string>, key: string): string {
    if key in env then env[key] else ""
  }

  /** The checks of preparedCoreQuota on the variables and the mount. */
  predicate Compatible(env: map<string, string>, runtimeMount: bool) {
    var quota, compute := ParseUint64(Lookup(env, MEMORY)), ParseUint64(Lookup(env, COMPUTE));
    (forall i :: 0 <= i < |LEGACY| ==> LEGACY[i] !in env)
    && quota.Some? && compute.Some? && 0 < quota.value <= MAX_MIB && 1 <= compute.value <= 100 && runtimeMount
    && Lookup(env, POLICY) == DYNAMIC && Lookup(env, GLOBAL_SHM) == GLOBAL_PATH && Lookup(env, LOCAL_SHM) == LOCAL_PATH
  }

  /** The byte quota of prepared devices, when their configuration is one the core runtime accepts. */
  function CoreQuota(devices: seq<PreparedDevice>): Option<nat> {
    var env := ReadEntries(AllEnv(devices));
    if env.Some? && Compatible(env.value, exists i :: 0 <= i < |devices| && MountsRuntime(devices[i]))
    then Some(ParseUint64(Lookup(env.value, MEMORY)).value * MIB)
    else None
  }

  predicate HasLegacy(env: map<string, string>) {
    exists i :: 0 <= i < |LEGACY| && LEGACY[i] in env
  }

  /**
    The first result of preparedCoreQuota, accepted or not: zero after a conflict or a legacy variable, else modulo
    2^64.
  */
  function QuotaResult(devices: seq<PreparedDevice>): nat {
    var env := ReadEntries(AllEnv(devices));
    if env.None? || HasLegacy(env.value) then 0
    else ParseUint64Number(Lookup(env.value, MEMORY)) * MIB % (MAX_UINT64 + 1)
  }

  /** For accepted devices it is the byte quota, which fits. */
  lemma AcceptedQuotaIsExact(devices: seq<PreparedDevice>)
    requires CoreQuota(devices).Some?
    ensures QuotaResult(devices) == CoreQuota(devices).value
    ensures 0 < CoreQuota(devices).value <= MAX_UINT64 && CoreQuota(devices).value % MIB == 0
  {
    var text := Lookup(ReadEntries(AllEnv(devices)).value, MEMORY);
    QuotaNumber(text, ParseUint64(text).value);
  }

  lemma QuotaNumber(text: string, q: nat)
    requires ParseUint64(text) == Some(q) && 0 < q <= MAX_MIB
    ensures ParseUint64Number(text) * MIB % (MAX_UINT64 + 1) == q * MIB
    ensures 0 < q * MIB <= MAX_UINT64 && q * MIB % MIB == 0
  {
    ParsedNumber(text);
  }

  lemma {:induction false} ReadPrefix(entries: seq<string>, n: nat)
    requires n <= |entries| && ReadEntries(entries[..n]).None?
    ensures ReadEntries(entries).None?
    decreases |entries|
  {
    if n < |entries| {
      var front := entries[..|entries| - 1];
      assert front[..n] == entries[..n];
      ReadPrefix(front, n);
    } else {
      assert entries[..n] == entries;
    }
  }

  lemma {:induction false} AllEnvPrefix(devices: seq<PreparedDevice>, n: nat)
    requires n <= |devices|
    ensures AllEnv(devices[..n]) <= AllEnv(devices)
    decreases |devices|
  {
    if n < |devices| {
      var front := devices[..|devices| - 1];
      assert front[..n] == devices[..n];
      AllEnvPrefix(front, n);
    } else {
      assert devices[..n] == devices;
    }
  }

  /** preparedCoreQuota: accepted exactly when a quota can be read, which is then the first result. */
  method PreparedCoreQuota(devices: seq<PreparedDevice>) returns (quota: nat, ok: bool)
    ensures ok <==> CoreQuota(devices).Some?
    ensures ok ==> quota == CoreQuota(devices).value
    ensures quota == QuotaResult(devices)
  {
    var consistent, env, runtimeMount := CollectEnv(devices);
    if !consistent {
      return 0, false;
    }
    var legacy := AnyLegacy(env);
    if legacy {
      return 0, false;
    }
    var memory := ParseUint64(Lookup(env, MEMORY));
    var compute := ParseUint64(Lookup(env, COMPUTE));
    ok := memory.Some? && compute.Some? && memory.value > 0 && memory.value <= MAX_MIB
          && compute.value >= 1 && compute.value <= 100 && runtimeMount
          && Lookup(env, POLICY) == DYNAMIC && Lookup(env, GLOBAL_SHM) == GLOBAL_PATH
            && Lookup(env, LOCAL_SHM) == LOCAL_PATH;
    quota := ParseUint64Number(Lookup(env, MEMORY)) * MIB % (MAX_UINT64 + 1);
    assert ok <==> Compatible(env, runtimeMount);
    if ok {
      AcceptedQuotaIsExact(devices);
    }
  }

  method AnyLegacy(env: map<string, string>) returns (found: bool)
    ensures found <==> HasLegacy(env)
  {
    for i := 0 to |LEGACY|
      invariant forall k :: 0 <= k < i ==> LEGACY[k] !in env
    {
      if LEGACY[i] in env {
        return true;
      }
    }
    return false;
  }

  /** The loop over devices: every variable they set, and whether one of them mounts the runtime. */
  method CollectEnv(devices: seq<PreparedDevice>)
    returns (consistent: bool, env: map<string, string>, runtimeMount: bool)
    ensures consistent ==> ReadEntries(AllEnv(devices)) == Some(env)
    ensures !consistent ==> ReadEntries(AllEnv(devices)).None?
    ensures consistent ==> (runtimeMount <==> exists i :: 0 <= i < |devices| && MountsRuntime(devices[i]))
  {
    env, runtimeMount, consistent := map[], false, true;
    for i := 0 to |devices|
      invariant ReadEntries(AllEnv(devices[..i])) == Some(env)
      invariant runtimeMount <==> AnyMounts(devices, i)
    {
      var mounted: bool;
      consistent, env, mounted := AddDevice(env, AllEnv(devices[..i]), devices[i]);
      AllEnvStep(devices, i);
      if !consistent {
        ConflictStays(devices, i + 1);
        return;
      }
      runtimeMount := runtimeMount || mounted;
    }
    assert devices[..|devices|] == devices;
    AnyMountsMeans(devices, |devices|);
    consistent := true;
  }

  predicate AnyMounts(devices: seq<PreparedDevice>, n: nat)
    requires n <= |devices|
  {
    n > 0 && (AnyMounts(devices, n - 1) || MountsRuntime(devices[n - 1]))
  }

  lemma {:induction false} AnyMountsMeans(devices: seq<PreparedDevice>, n: nat)
    requires n <= |devices|
    ensures AnyMounts(devices, n) <==> exists i :: 0 <= i < n && MountsRuntime(devices[i])
  {
    if n > 0 {
      AnyMountsMeans(devices, n - 1);
    }
  }

  method AddDevice(env: map<string, string>, ghost read: seq<string>, device: PreparedDevice)
    returns (consistent: bool, env': map<string, string>, mounted: bool)
    requires ReadEntries(read) == Some(env)
    ensures consistent ==> ReadEntries(read + EnvOf(device)) == Some(env') && (mounted <==> MountsRuntime(device))
    ensures !consistent ==> ReadEntries(read + EnvOf(device)).None?
  {
    mounted := false;
    if device.edits.None? {
      assert read + [] == read;
      return true, env, false;
    }
    consistent, env' := MergeEnv(env, read, device.edits.value.env);
    if consistent {
      mounted := AnyRuntimeMount(device.edits.value.mounts);
    }
  }

  lemma AllEnvStep(devices: seq<PreparedDevice>, i: nat)
    requires i < |devices|
    ensures AllEnv(devices[..i + 1]) == AllEnv(devices[..i]) + EnvOf(devices[i])
  {
    assert devices[..i + 1][..i] == devices[..i];
  }

  lemma ConflictStays(devices: seq<PreparedDevice>, n: nat)
    requires n <= |devices| && ReadEntries(AllEnv(devices[..n])).None?
    ensures ReadEntries(AllEnv(devices)).None?
  {
    AllEnvPrefix(devices, n);
    var all, part := AllEnv(devices), AllEnv(devices[..n]);
    assert part == all[..|part|];
    ReadPrefix(all, |part|);
  }

  method MergeEnv(env: map<string, string>, ghost before: seq<string>, entries: seq<string>)
    returns (consistent: bool, env': map<string, string>)
    requires ReadEntries(before) == Some(env)
    ensures consistent ==> ReadEntries(before + entries) == Some(env')
    ensures !consistent ==> ReadEntries(before + entries).None?
  {
    env' := env;
    assert before + entries[..0] == before;
    for i := 0 to |entries|
      invariant ReadEntries(before + entries[..i]) == Some(env')
    {
      var sofar := before + entries[..i + 1];
      assert sofar[..|sofar| - 1] == before + entries[..i];
      var cut := Cut(entries[i]);
      if cut.Some? {
        var (key, value) := cut.value;
        if key in env' && env'[key] != value {
          assert sofar == (before + entries)[..|sofar|];
          ReadPrefix(before + entries, |sofar|);
          return false, env';
        }
        env' := env'[key := value];
      }
    }
    assert entries[..|entries|] == entries;
    consistent := true;
  }

  method AnyRuntimeMount(mounts: seq<Mount>) returns (found: bool)
    ensures found <==> HasRuntime(mounts)
  {
    found := false;
    for i := 0 to |mounts|
      invariant found <==> exists k :: 0 <= k < i && RuntimeMount(mounts[k])
    {
      if mounts[i].containerPath == RUNTIME_CONTAINER && mounts[i].hostPath == RUNTIME_HOST {
        found := true;
      }
    }
  }

  // ---- Writing a quota ----

  function CoreMounts(localShmemDir: string): seq<Mount> {
    var ro, rw := ["ro", "bind"], ["rw", "nosuid", "nodev", "bind"];
    [Mount("/etc/ascend_install.info", "/etc/ascend_install.info", ro),
     Mount("/usr/local/Ascend/driver/lib64/driver", "/usr/local/Ascend/driver/lib64/driver", ro),
     Mount("/usr/local/Ascend/driver/version.info", "/usr/local/Ascend/driver/version.info", ro),
     Mount(RUNTIME_HOST, RUNTIME_CONTAINER, ro),
     Mount(RUNTIME_HOST + "/ld.so.preload", "/etc/ld.so.preload", ro),
     Mount("/usr/local/hami-shared-region", "/hami-shared-region", rw),
     Mount(localShmemDir, "/hami-vnpu-shmem", rw)]
  }

  predicate Writable(memoryBytes: int, priority: int, localShmemDir: string) {
    memoryBytes > 0 && memoryBytes % MIB == 0 && 1 <= priority <= 100 && localShmemDir != ""
  }

  /** What buildLibvNPUCDIContainerEdits returns, behind the visible-devices entry of its caller. */
  function SharedEdits(visible: string, memoryBytes: int, priority: int, localShmemDir: string): Edits
    requires Writable(memoryBytes, priority, localShmemDir)
  {
    Edits([Entry(VISIBLE, visible),
           Entry(MEMORY, Digits(memoryBytes / MIB)),
           Entry(COMPUTE, Digits(priority)),
           Entry(POLICY, DYNAMIC),
           Entry(GLOBAL_SHM, GLOBAL_PATH),
           Entry(LOCAL_SHM, LOCAL_PATH)],
          [], [], CoreMounts(localShmemDir))
  }

  function CoreVariables(visible: string, mib: nat, priority: nat): map<string, string> {
    map[VISIBLE := visible, MEMORY := Digits(mib), COMPUTE := Digits(priority), POLICY := DYNAMIC,
        GLOBAL_SHM := GLOBAL_PATH, LOCAL_SHM := LOCAL_PATH]
  }

  // ---- What is written reads back ----

  lemma AddNew(m: map<string, string>, key: string, value: string)
    requires '=' !in key && key !in m
    ensures AddEntry(Some(m), Entry(key, value)) == Some(m[key := value])
  {
    CutEntry(key, value);
  }

  lemma ReadAppend(entries: seq<string>, m: map<string, string>, key: string, value: string)
    requires ReadEntries(entries) == Some(m) && '=' !in key && key !in m
    ensures ReadEntries(entries + [Entry(key, value)]) == Some(m[key := value])
  {
    var all := entries + [Entry(key, value)];
    assert all[..|all| - 1] == entries;
    AddNew(m, key, value);
  }

  lemma ThreeReadBack(
      e: seq<string>, m: map<string, string>, k1: string, v1: string, k2: string, v2: string, k3: string, v3: string)
    requires ReadEntries(e) == Some(m) && k1 !in m && k2 !in m && k3 !in m && k1 != k2 && k1 != k3 && k2 != k3
    requires '=' !in k1 && '=' !in k2 && '=' !in k3
    ensures ReadEntries(e + [Entry(k1, v1), Entry(k2, v2), Entry(k3, v3)]) == Some(m[k1 := v1][k2 := v2][k3 := v3])
  {
    ReadAppend(e, m, k1, v1);
    ReadAppend(e + [Entry(k1, v1)], m[k1 := v1], k2, v2);
    ReadAppend(e + [Entry(k1, v1)] + [Entry(k2, v2)], m[k1 := v1][k2 := v2], k3, v3);
    assert e + [Entry(k1, v1), Entry(k2, v2), Entry(k3, v3)] == e + [Entry(k1, v1)] + [Entry(k2, v2)] + [Entry(k3, v3)];
  }

  /** Six variables with different names read back as a map of six. */
  lemma SixReadBack(
      k1: string, v1: string, k2: string, v2: string, k3: string, v3: string,
      k4: string, v4: string, k5: string, v5: string, k6: string, v6: string)
    requires k1 !in {k2, k3, k4, k5, k6} && k2 !in {k3, k4, k5, k6} && k3 !in {k4, k5, k6} && k4 !in {k5, k6}
             && k5 != k6
    requires forall k :: k in {k1, k2, k3, k4, k5, k6} ==> '=' !in k
    ensures ReadEntries([Entry(k1, v1), Entry(k2, v2), Entry(k3, v3), Entry(k4, v4), Entry(k5, v5), Entry(k6, v6)])
         == Some(map[k1 := v1, k2 := v2, k3 := v3, k4 := v4, k5 := v5, k6 := v6])
  {
    ThreeReadBack([], map[], k1, v1, k2, v2, k3, v3);
    var e := [Entry(k1, v1), Entry(k2, v2), Entry(k3, v3)];
    assert [] + e == e;
    ThreeReadBack(e, map[][k1 := v1][k2 := v2][k3 := v3], k4, v4, k5, v5, k6, v6);
    assert e + [Entry(k4, v4), Entry(k5, v5), Entry(k6, v6)]
        == [Entry(k1, v1), Entry(k2, v2), Entry(k3, v3), Entry(k4, v4), Entry(k5, v5), Entry(k6, v6)];
  }

  /** The six variables written are read back as written. */
  lemma VariablesReadBack(visible: string, memoryBytes: int, priority: int, dir: string)
    requires Writable(memoryBytes, priority, dir)
    ensures ReadEntries(SharedEdits(visible, memoryBytes, priority, dir).env)
         == Some(CoreVariables(visible, memoryBytes / MIB, priority))
  {
    SixReadBack(VISIBLE, visible, MEMORY, Digits(memoryBytes / MIB), COMPUTE, Digits(priority),
                POLICY, DYNAMIC, GLOBAL_SHM, GLOBAL_PATH, LOCAL_SHM, LOCAL_PATH);
  }

  lemma WrittenIsCompatible(visible: string, mib: nat, priority: nat)
    requires 0 < mib <= MAX_MIB && 1 <= priority <= 100
    ensures Compatible(CoreVariables(visible, mib, priority), true)
    ensures ParseUint64(Lookup(CoreVariables(visible, mib, priority), MEMORY)) == Some(mib)
  {
    ParseUint64Printed(mib);
    ParseUint64Printed(priority);
    NoLegacyWritten(visible, mib, priority);
  }

  lemma NoLegacyWritten(visible: string, mib: nat, priority: nat)
    ensures forall i :: 0 <= i < |LEGACY| ==> LEGACY[i] !in CoreVariables(visible, mib, priority)
  {
    forall i | 0 <= i < |LEGACY| ensures LEGACY[i] !in CoreVariables(visible, mib, priority) {
    }
  }

  lemma SharedMountsRuntime(dir: string)
    ensures HasRuntime(CoreMounts(dir))
  {
    assert RuntimeMount(CoreMounts(dir)[3]);
  }
}
