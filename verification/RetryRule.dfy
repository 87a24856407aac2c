/**
  When the devices that Prepare wrote pass preparedCoreQuota again, so that a retried Prepare returns them
  (cmd/ascend-dra-kubeletplugin/state.go and metrics.go).
*/
module RetryRule {
  import opened Wrappers
  import opened Decimal
  import opened Text
  import opened CoreEnv
  import opened ConfigResolution
  import opened CorePrepare

  // ---- Whose shared edits survive ----

  predicate FirstRepeated(results: seq<AllocResult>) {
    results != [] && Names(results[1..], results[0].device)
  }

  /**
    The group applied at step `k` leaves its shared edits behind: its own later results do not name the device of
    its first one again, nor does any group applied after it.
  */
  ghost predicate Survives(groups: map<nat, seq<AllocResult>>, applied: seq<nat>, k: nat) {
    k < |applied| && applied[k] in groups && groups[applied[k]] != [] && !FirstRepeated(groups[applied[k]])
    && LastNaming(groups, applied, groups[applied[k]][0].device, k)
  }

  ghost predicate SoleSurvivor(groups: map<nat, seq<AllocResult>>, applied: seq<nat>, k: nat) {
    Survives(groups, applied, k) && forall j: nat :: Survives(groups, applied, j) ==> j == k
  }

  ghost predicate OneSurvives(groups: map<nat, seq<AllocResult>>, applied: seq<nat>) {
    exists k: nat :: SoleSurvivor(groups, applied, k)
  }

  /** Two groups write the same shared edits. */
  predicate SameShared(alloc: Allocatable, g: seq<AllocResult>, h: seq<AllocResult>, dir: string) {
    Applicable(alloc, g, dir) && Applicable(alloc, h, dir) && GroupShared(alloc, g, dir) == GroupShared(alloc, h, dir)
  }

  /** The group applied at step `k` survives, and every other survivor wrote what it wrote. */
  ghost predicate Agreed(alloc: Allocatable, w: Walk, dir: string, k: nat) {
    Survives(w.groups, w.applied, k)
    && forall j: nat :: Survives(w.groups, w.applied, j) ==>
         SameShared(alloc, w.groups[w.applied[j]], w.groups[w.applied[k]], dir)
  }

  ghost predicate SurvivorsAgree(alloc: Allocatable, w: Walk, dir: string) {
    exists k: nat :: Agreed(alloc, w, dir, k)
  }

  /** The group applied at step `k` survives, and this device is that of its first result. */
  ghost predicate Heads(groups: map<nat, seq<AllocResult>>, applied: seq<nat>, device: string, k: nat) {
    Survives(groups, applied, k) && groups[applied[k]][0].device == device
  }

  lemma HeadDecides(groups: map<nat, seq<AllocResult>>, applied: seq<nat>, device: string, k: nat)
    requires LastNaming(groups, applied, device, k)
    ensures Heads(groups, applied, device, k) <==> !Names(groups[applied[k]][1..], device)
    ensures forall j: nat :: Heads(groups, applied, device, j) ==> j == k
  {
    assert NamesAt(groups, applied, k, device);
    forall j: nat | Heads(groups, applied, device, j) ensures j == k {
    }
  }

  /** A prepared device carries the shared edits of the surviving group it heads. */
  lemma HeadCarriesShared(
      alloc: Allocatable, a: Allocation, dir: string, w: Walk, devices: seq<PreparedDevice>, m: nat, k: nat)
    requires Plan(alloc, a, dir, w, devices) && m < |devices| && Heads(w.groups, w.applied, devices[m].device, k)
    ensures Applicable(alloc, w.groups[w.applied[k]], dir)
    ensures devices[m].edits == Some(GroupShared(alloc, w.groups[w.applied[k]], dir))
  {
    var j := DeciderOf(alloc, a, dir, w, devices, m);
    HeadDecides(w.groups, w.applied, devices[m].device, j);
  }

  /** A prepared device that heads no surviving group carries nothing. */
  lemma OthersCarryNothing(
      alloc: Allocatable, a: Allocation, dir: string, w: Walk, devices: seq<PreparedDevice>, m: nat)
    requires Plan(alloc, a, dir, w, devices) && m < |devices|
    requires forall k: nat :: !Heads(w.groups, w.applied, devices[m].device, k)
    ensures devices[m].edits == Some(EMPTY_EDITS)
  {
    var j := DeciderOf(alloc, a, dir, w, devices, m);
    HeadDecides(w.groups, w.applied, devices[m].device, j);
  }

  /** The head of a group is one of the prepared devices. */
  lemma HeadIsListed(alloc: Allocatable, a: Allocation, dir: string, w: Walk, devices: seq<PreparedDevice>, i: nat)
    returns (m: nat)
    requires Plan(alloc, a, dir, w, devices) && i in w.groups && w.groups[i] != []
    ensures m < |devices| && devices[m].device == w.groups[i][0].device
  {
    var configs := ConfigList(a);
    var list, head := InOrder(configs, a.results, w.listed), w.groups[i][0];
    PreparedIsPermutation(configs, a.results, w.groups, w.listed);
    GroupMembers(configs, a.results, {i});
    assert head in w.groups[i] && head in multiset(a.results) && head in multiset(list);
    m :| 0 <= m < |list| && list[m] == head;
    assert devices[m] == Make(w.edits, list[m]);
  }

  // ---- What preparedCoreQuota makes of the prepared devices ----

  lemma {:induction false} NoEnv(devices: seq<PreparedDevice>)
    requires forall k :: 0 <= k < |devices| ==> EnvOf(devices[k]) == []
    ensures AllEnv(devices) == []
  {
    if devices != [] {
      NoEnv(devices[..|devices| - 1]);
    }
  }

  lemma NoSurvivorIsRejected(alloc: Allocatable, a: Allocation, dir: string, w: Walk, devices: seq<PreparedDevice>)
    requires Plan(alloc, a, dir, w, devices) && forall k: nat :: !Survives(w.groups, w.applied, k)
    ensures CoreQuota(devices).None?
  {
    forall m | 0 <= m < |devices| ensures devices[m].edits == Some(EMPTY_EDITS) {
      OthersCarryNothing(alloc, a, dir, w, devices, m);
    }
    NothingIsRejected(devices);
  }

  lemma NothingIsRejected(devices: seq<PreparedDevice>)
    requires forall m :: 0 <= m < |devices| ==> devices[m].edits == Some(EMPTY_EDITS)
    ensures CoreQuota(devices).None?
  {
    NoEnv(devices);
  }

  /** Entries that say what is known already change nothing. */
  lemma {:induction false} ReadAgain(known: seq<string>, m: map<string, string>, again: seq<string>)
    requires ReadEntries(known) == Some(m)
    requires forall k :: 0 <= k < |again| ==> Says(m, again[k])
    ensures ReadEntries(known + again) == Some(m)
  {
    if again == [] {
      assert known + again == known;
    } else {
      var n := |again| - 1;
      ReadAgain(known, m, again[..n]);
      var all := known + again;
      assert all[..|all| - 1] == known + again[..n];
      SaidAgain(m, again[n]);
    }
  }

  lemma SaidAgain(m: map<string, string>, entry: string)
    requires Says(m, entry)
    ensures AddEntry(Some(m), entry) == Some(m)
  {
    if Cut(entry).Some? {
      assert m[Cut(entry).value.0 := Cut(entry).value.1] == m;
    }
  }

  predicate Says(m: map<string, string>, entry: string) {
    Cut(entry).Some? ==> Cut(entry).value.0 in m && m[Cut(entry).value.0] == Cut(entry).value.1
  }

  lemma EntriesSay(entries: seq<string>, m: map<string, string>)
    requires ReadEntries(entries) == Some(m)
    ensures forall k :: 0 <= k < |entries| ==> Says(m, entries[k])
  {
    ReadEntriesMeans(entries);
    forall k | 0 <= k < |entries| ensures Says(m, entries[k]) {
      if Cut(entries[k]).Some? {
        assert Binds(entries, Cut(entries[k]).value.0, Cut(entries[k]).value.1);
      }
    }
  }

  /** Devices that carry `env` or nothing read as `env` does, as soon as one of them carries it. */
  lemma {:induction false} CopiesReadAsOne(devices: seq<PreparedDevice>, env: seq<string>, m: map<string, string>)
    requires ReadEntries(env) == Some(m)
    requires forall k :: 0 <= k < |devices| ==> EnvOf(devices[k]) == env || EnvOf(devices[k]) == []
    ensures ReadEntries(AllEnv(devices))
            == if AnyCarries(devices, env) then Some(m) else Some(map[])
  {
    if devices != [] {
      var n := |devices| - 1;
      var front, last := devices[..n], EnvOf(devices[n]);
      CopiesReadAsOne(front, env, m);
      LastCarries(devices, env);
      if AnyCarries(front, env) {
        EntriesSay(env, m);
        ReadAgain(AllEnv(front), m, last);
      } else {
        NoEnv(front);
        assert AllEnv(devices) == last;
      }
    }
  }

  lemma LastCarries(devices: seq<PreparedDevice>, env: seq<string>)
    requires devices != []
    ensures var n := |devices| - 1;
            AnyCarries(devices, env) <==> AnyCarries(devices[..n], env) || EnvOf(devices[n]) == env
  {
    var n := |devices| - 1;
    if k :| 0 <= k < n && EnvOf(devices[..n][k]) == env {
      assert EnvOf(devices[k]) == env;
    }
  }

  predicate AnyCarries(devices: seq<PreparedDevice>, env: seq<string>) {
    exists k :: 0 <= k < |devices| && EnvOf(devices[k]) == env
  }

  lemma SharedEditsAreAccepted(
      devices: seq<PreparedDevice>, visible: string, bytes: int, priority: int, dir: string, head: nat)
    requires Writable(bytes, priority, dir) && bytes <= MAX_UINT64 && head < |devices|
    requires devices[head].edits == Some(SharedEdits(visible, bytes, priority, dir))
    requires forall k :: 0 <= k < |devices| ==>
             devices[k].edits == devices[head].edits || devices[k].edits == Some(EMPTY_EDITS)
    ensures CoreQuota(devices) == Some(bytes)
  {
    WholeMebibytes(bytes);
    var env, m := SharedEdits(visible, bytes, priority, dir).env, CoreVariables(visible, bytes / MIB, priority);
    VariablesReadBack(visible, bytes, priority, dir);
    assert EnvOf(devices[head]) == env;
    CopiesReadAsOne(devices, env, m);
    WrittenIsCompatible(visible, bytes / MIB, priority);
    SharedMountsRuntime(dir);
    assert MountsRuntime(devices[head]);
  }

  lemma WholeMebibytes(bytes: int)
    requires 0 < bytes <= MAX_UINT64 && bytes % MIB == 0
    ensures 0 < bytes / MIB <= MAX_MIB && bytes / MIB * MIB == bytes
  {
  }

  /** Under agreement every device carries the shared edits of the agreed group or nothing. */
  lemma AgreedEdits(
      alloc: Allocatable, a: Allocation, dir: string, w: Walk, devices: seq<PreparedDevice>, k: nat, m: nat)
    requires Plan(alloc, a, dir, w, devices) && Agreed(alloc, w, dir, k) && m < |devices|
    ensures Applicable(alloc, w.groups[w.applied[k]], dir)
    ensures devices[m].edits == Some(GroupShared(alloc, w.groups[w.applied[k]], dir))
            || devices[m].edits == Some(EMPTY_EDITS)
  {
    if j: nat :| Heads(w.groups, w.applied, devices[m].device, j) {
      HeadCarriesShared(alloc, a, dir, w, devices, m, j);
    } else {
      OthersCarryNothing(alloc, a, dir, w, devices, m);
    }
  }

  lemma AgreedIsAccepted(
      alloc: Allocatable, a: Allocation, dir: string, w: Walk, devices: seq<PreparedDevice>, k: nat)
    requires Plan(alloc, a, dir, w, devices) && Agreed(alloc, w, dir, k)
    ensures Applicable(alloc, w.groups[w.applied[k]], dir)
    ensures CoreQuota(devices) == Some(GroupBytes(alloc, w.groups[w.applied[k]], dir))
  {
    var group := w.groups[w.applied[k]];
    var head := HeadIsListed(alloc, a, dir, w, devices, w.applied[k]);
    HeadCarriesShared(alloc, a, dir, w, devices, head, k);
    forall m | 0 <= m < |devices|
      ensures devices[m].edits == devices[head].edits || devices[m].edits == Some(EMPTY_EDITS)
    {
      AgreedEdits(alloc, a, dir, w, devices, k, m);
    }
    SharedEditsAreAccepted(devices, Join(VisibleIDs(alloc, group), ','), GroupBytes(alloc, group, dir),
                           CapacityValue(alloc, group[0], CORES_NAMES).value, dir, head);
  }

  predicate DistinctDevices(results: seq<AllocResult>) {
    forall i, j :: 0 <= i < j < |results| ==> results[i].device != results[j].device
  }

  predicate DistinctCards(alloc: Allocatable) {
    forall d, e :: d in alloc && e in alloc && d != e && alloc[d].physicalID.Some?
                   ==> alloc[d].physicalID != alloc[e].physicalID
  }

  // ---- Several survivors ----

  lemma {:induction false} EnvIsCollected(devices: seq<PreparedDevice>, k: nat, e: string)
    requires k < |devices| && e in EnvOf(devices[k])
    ensures e in AllEnv(devices)
  {
    if k < |devices| - 1 {
      EnvIsCollected(devices[..|devices| - 1], k, e);
    }
  }

  lemma SharedIsCollected(
      alloc: Allocatable, a: Allocation, dir: string, w: Walk, devices: seq<PreparedDevice>, k: nat)
    requires Plan(alloc, a, dir, w, devices) && Survives(w.groups, w.applied, k)
    ensures Applicable(alloc, w.groups[w.applied[k]], dir)
    ensures forall e :: e in GroupShared(alloc, w.groups[w.applied[k]], dir).env ==> e in AllEnv(devices)
  {
    var m := HeadIsListed(alloc, a, dir, w, devices, w.applied[k]);
    HeadCarriesShared(alloc, a, dir, w, devices, m, k);
    forall e | e in GroupShared(alloc, w.groups[w.applied[k]], dir).env ensures e in AllEnv(devices) {
      EnvIsCollected(devices, m, e);
    }
  }

  lemma ConflictIsRejected(devices: seq<PreparedDevice>, key: string, v: string, w: string)
    requires '=' !in key && v != w && Entry(key, v) in AllEnv(devices) && Entry(key, w) in AllEnv(devices)
    ensures CoreQuota(devices).None?
  {
    var all := AllEnv(devices);
    CutEntry(key, v);
    CutEntry(key, w);
    ReadEntriesMeans(all);
    var p :| 0 <= p < |all| && all[p] == Entry(key, v);
    var q :| 0 <= q < |all| && all[q] == Entry(key, w);
    assert SameKeyOtherValue(all[p], all[q]) && SameKeyOtherValue(all[q], all[p]);
  }

  lemma VisibleHasNoComma(alloc: Allocatable, group: seq<AllocResult>)
    requires AllVisible(alloc, group)
    ensures forall k :: 0 <= k < |group| ==> ',' !in VisibleIDs(alloc, group)[k]
  {
    forall k | 0 <= k < |group| ensures ',' !in VisibleIDs(alloc, group)[k] {
      DigitsHasNo(alloc[group[k].device].physicalID.value, ',');
    }
  }

  /** Two groups headed by different devices on distinct cards name different visible devices. */
  lemma VisibleDiffers(alloc: Allocatable, g: seq<AllocResult>, h: seq<AllocResult>)
    requires g != [] && h != [] && AllVisible(alloc, g) && AllVisible(alloc, h) && DistinctCards(alloc)
    requires g[0].device != h[0].device
    ensures Join(VisibleIDs(alloc, g), ',') != Join(VisibleIDs(alloc, h), ',')
  {
    var a, b := VisibleIDs(alloc, g), VisibleIDs(alloc, h);
    if Join(a, ',') == Join(b, ',') {
      VisibleHasNoComma(alloc, g);
      VisibleHasNoComma(alloc, h);
      JoinSplit(a, ',');
      JoinSplit(b, ',');
      assert VisibleID(alloc, g[0].device) == Some(a[0]) && VisibleID(alloc, h[0].device) == Some(b[0]);
      DigitsInjective(alloc[g[0].device].physicalID.value, alloc[h[0].device].physicalID.value);
    }
  }

  /** Different shared edits set some variable to different values. */
  lemma SharedConflict(devices: seq<PreparedDevice>, visible: string, bytes: int, priority: int, visible': string,
                       bytes': int, priority': int, dir: string)
    requires Writable(bytes, priority, dir) && Writable(bytes', priority', dir)
    requires SharedEdits(visible, bytes, priority, dir) != SharedEdits(visible', bytes', priority', dir)
    requires forall e :: e in SharedEdits(visible, bytes, priority, dir).env ==> e in AllEnv(devices)
    requires forall e :: e in SharedEdits(visible', bytes', priority', dir).env ==> e in AllEnv(devices)
    ensures CoreQuota(devices).None?
  {
    var env, env' := SharedEdits(visible, bytes, priority, dir).env, SharedEdits(visible', bytes', priority', dir).env;
    if visible != visible' {
      ConflictAt(devices, env, env', 0, VISIBLE, visible, visible');
    } else if Digits(bytes / MIB) != Digits(bytes' / MIB) {
      ConflictAt(devices, env, env', 1, MEMORY, Digits(bytes / MIB), Digits(bytes' / MIB));
    } else {
      ConflictAt(devices, env, env', 2, COMPUTE, Digits(priority), Digits(priority'));
    }
  }

  lemma ConflictAt(
      devices: seq<PreparedDevice>, env: seq<string>, env': seq<string>, k: nat, key: string, v: string, v': string)
    requires k < |env| && k < |env'| && env[k] == Entry(key, v) && env'[k] == Entry(key, v') && v != v'
    requires '=' !in key
    requires forall e :: e in env ==> e in AllEnv(devices)
    requires forall e :: e in env' ==> e in AllEnv(devices)
    ensures CoreQuota(devices).None?
  {
    assert env[k] in env && env'[k] in env';
    ConflictIsRejected(devices, key, v, v');
  }

  lemma DisagreementIsRejected(
      alloc: Allocatable, a: Allocation, dir: string, w: Walk, devices: seq<PreparedDevice>, j: nat, k: nat)
    requires Plan(alloc, a, dir, w, devices)
    requires Survives(w.groups, w.applied, j) && Survives(w.groups, w.applied, k)
    requires !SameShared(alloc, w.groups[w.applied[j]], w.groups[w.applied[k]], dir)
    ensures CoreQuota(devices).None?
  {
    var g, h := w.groups[w.applied[j]], w.groups[w.applied[k]];
    SharedIsCollected(alloc, a, dir, w, devices, j);
    SharedIsCollected(alloc, a, dir, w, devices, k);
    SharedConflict(devices, Join(VisibleIDs(alloc, g), ','), GroupBytes(alloc, g, dir),
                   CapacityValue(alloc, g[0], CORES_NAMES).value, Join(VisibleIDs(alloc, h), ','),
                   GroupBytes(alloc, h, dir), CapacityValue(alloc, h[0], CORES_NAMES).value, dir);
  }

  /**
    Idempotence of Prepare for every claim: what Prepare writes passes preparedCoreQuota exactly when some group keeps
    its shared edits and all that do wrote the same ones. The quota read back is then theirs, to the byte.
  */
  lemma RetryIsAccepted(alloc: Allocatable, a: Allocation, dir: string, w: Walk, devices: seq<PreparedDevice>)
    requires Plan(alloc, a, dir, w, devices)
    ensures CoreQuota(devices).Some? <==> SurvivorsAgree(alloc, w, dir)
    ensures forall k: nat :: Agreed(alloc, w, dir, k) ==>
              Applicable(alloc, w.groups[w.applied[k]], dir)
              && CoreQuota(devices) == Some(GroupBytes(alloc, w.groups[w.applied[k]], dir))
  {
    forall k: nat | Agreed(alloc, w, dir, k)
      ensures Applicable(alloc, w.groups[w.applied[k]], dir)
              && CoreQuota(devices) == Some(GroupBytes(alloc, w.groups[w.applied[k]], dir))
    {
      AgreedIsAccepted(alloc, a, dir, w, devices, k);
    }
    if k: nat :| Survives(w.groups, w.applied, k) {
      if j: nat :| Survives(w.groups, w.applied, j)
                   && !SameShared(alloc, w.groups[w.applied[j]], w.groups[w.applied[k]], dir) {
        DisagreementIsRejected(alloc, a, dir, w, devices, j, k);
      } else {
        assert Agreed(alloc, w, dir, k);
      }
    } else {
      NoSurvivorIsRejected(alloc, a, dir, w, devices);
    }
  }

  lemma SurvivorsHaveOwnHeads(groups: map<nat, seq<AllocResult>>, applied: seq<nat>, j: nat, k: nat)
    requires Survives(groups, applied, j) && Survives(groups, applied, k) && j != k
    ensures groups[applied[j]][0].device != groups[applied[k]][0].device
  {
  }

  lemma AgreesAlone(alloc: Allocatable, a: Allocation, dir: string, w: Walk, devices: seq<PreparedDevice>, k: nat)
    requires Plan(alloc, a, dir, w, devices) && SoleSurvivor(w.groups, w.applied, k)
    ensures Agreed(alloc, w, dir, k)
  {
    assert AppliesAt(alloc, w.groups, dir, w.applied, k);
  }

  /** On distinct cards no two survivors agree, so there has to be one. */
  lemma SoleSurvivorAgrees(alloc: Allocatable, a: Allocation, dir: string, w: Walk, devices: seq<PreparedDevice>)
    requires Plan(alloc, a, dir, w, devices) && DistinctCards(alloc)
    ensures forall k: nat :: Agreed(alloc, w, dir, k) <==> SoleSurvivor(w.groups, w.applied, k)
  {
    forall k: nat ensures Agreed(alloc, w, dir, k) <==> SoleSurvivor(w.groups, w.applied, k) {
      if Survives(w.groups, w.applied, k) {
        assert AppliesAt(alloc, w.groups, dir, w.applied, k);
        forall j: nat | Survives(w.groups, w.applied, j) && j != k
          ensures !SameShared(alloc, w.groups[w.applied[j]], w.groups[w.applied[k]], dir)
        {
          SurvivorsDiffer(alloc, w, dir, j, k);
        }
      }
    }
  }

  lemma SurvivorsDiffer(alloc: Allocatable, w: Walk, dir: string, j: nat, k: nat)
    requires DistinctCards(alloc) && j != k
    requires Survives(w.groups, w.applied, j) && Survives(w.groups, w.applied, k)
    ensures !SameShared(alloc, w.groups[w.applied[j]], w.groups[w.applied[k]], dir)
  {
    var g, h := w.groups[w.applied[j]], w.groups[w.applied[k]];
    SurvivorsHaveOwnHeads(w.groups, w.applied, j, k);
    if SameShared(alloc, g, h, dir) {
      VisibleDiffers(alloc, g, h);
      var v, v' := Join(VisibleIDs(alloc, g), ','), Join(VisibleIDs(alloc, h), ',');
      assert Entry(VISIBLE, v) == GroupShared(alloc, g, dir).env[0] == GroupShared(alloc, h, dir).env[0]
             == Entry(VISIBLE, v');
      CutEntry(VISIBLE, v);
      CutEntry(VISIBLE, v');
    }
  }

  // ---- The condition before the call ----

  /** One configuration is the last match of every result. */
  predicate OneConfig(a: Allocation) {
    forall k :: 0 <= k < |a.results| ==>
      LastIndex(ConfigList(a), a.results[k].request) == LastIndex(ConfigList(a), a.results[0].request)
  }

  lemma OneConfigIsOneGroup(a: Allocation, groups: map<nat, seq<AllocResult>>, order: seq<nat>)
    requires a.results != [] && Grouped(ConfigList(a), a.results, groups) && Orders(order, groups.Keys)
    ensures OneConfig(a) <==> |order| == 1
  {
    var configs := ConfigList(a);
    GroupsCover(configs, a.results, groups);
    var first := LastIndex(configs, a.results[0].request);
    assert a.results[0] in a.results && first in groups.Keys && first in order;
    if OneConfig(a) {
      forall k | 0 <= k < |order| ensures order[k] == first {
        assert order[k] in groups.Keys;
        GroupMembers(configs, a.results, {order[k]});
        var r := groups[order[k]][0];
        assert r in groups[order[k]];
      }
      assert order[0] == first && order[|order| - 1] == first;
    }
    if |order| == 1 {
      assert order == [order[0]];
      forall k | 0 <= k < |a.results| ensures LastIndex(configs, a.results[k].request) == first {
        assert a.results[k] in a.results;
        assert LastIndex(configs, a.results[k].request) in order;
      }
    }
  }

  /** Under one configuration the quota reads back exactly when the device of the first result is not named again. */
  lemma OneConfigIsAccepted(alloc: Allocatable, a: Allocation, dir: string, w: Walk, devices: seq<PreparedDevice>)
    requires Plan(alloc, a, dir, w, devices) && a.results != [] && OneConfig(a)
    ensures CoreQuota(devices).Some? <==> !FirstRepeated(a.results)
    ensures !FirstRepeated(a.results) ==>
              Applicable(alloc, a.results, dir) && CoreQuota(devices) == Some(GroupBytes(alloc, a.results, dir))
  {
    OneConfigIsOneGroup(a, w.groups, w.applied);
    OneGroupKeepsOrder(ConfigList(a), a.results, w.groups, w.applied);
    if FirstRepeated(a.results) {
      NoSurvivorIsRejected(alloc, a, dir, w, devices);
    } else {
      LastSurvives(w.groups, w.applied);
      AgreesAlone(alloc, a, dir, w, devices, 0);
      AgreedIsAccepted(alloc, a, dir, w, devices, 0);
    }
  }

  lemma {:induction false} UnderDistinct(configs: seq<DeviceConfig>, results: seq<AllocResult>, picked: set<nat>)
    requires DistinctDevices(results)
    ensures DistinctDevices(Under(configs, results, picked))
  {
    if results != [] {
      var n := |results| - 1;
      UnderDistinct(configs, results[..n], picked);
      GroupMembers(configs, results[..n], picked);
      var front := Under(configs, results[..n], picked);
      forall k | 0 <= k < |front| ensures front[k].device != results[n].device {
        assert front[k] in results[..n];
      }
    }
  }

  /** Among distinct devices, a group naming the head of another is that group. */
  lemma SameDeviceSameGroup(
      configs: seq<DeviceConfig>, results: seq<AllocResult>, groups: map<nat, seq<AllocResult>>, i: nat, j: nat)
    requires DistinctDevices(results) && Grouped(configs, results, groups) && i in groups && j in groups
    requires groups[i] != [] && Names(groups[j], groups[i][0].device)
    ensures i == j
  {
    var head := groups[i][0];
    var k :| 0 <= k < |groups[j]| && groups[j][k].device == head.device;
    GroupMembers(configs, results, {i});
    GroupMembers(configs, results, {j});
    assert groups[j][k] in groups[j] && head in groups[i];
  }

  /** Among distinct devices every group keeps its shared edits, whatever the order. */
  lemma DistinctAllSurvive(
      alloc: Allocatable, a: Allocation, dir: string, w: Walk, devices: seq<PreparedDevice>, k: nat)
    requires Plan(alloc, a, dir, w, devices) && DistinctDevices(a.results) && k < |w.applied|
    ensures Survives(w.groups, w.applied, k)
  {
    var i := w.applied[k];
    assert i in w.groups.Keys;
    var head := w.groups[i][0].device;
    UnderDistinct(ConfigList(a), a.results, {i});
    assert Names(w.groups[i], head) && NamesAt(w.groups, w.applied, k, head);
    forall j | k < j < |w.applied| ensures !NamesAt(w.groups, w.applied, j, head) {
      if NamesAt(w.groups, w.applied, j, head) {
        SameDeviceSameGroup(ConfigList(a), a.results, w.groups, i, w.applied[j]);
      }
    }
  }

  /** For distinct devices the condition is that one configuration applies to every result, whatever the order. */
  lemma DistinctSurvives(alloc: Allocatable, a: Allocation, dir: string, w: Walk, devices: seq<PreparedDevice>)
    requires Plan(alloc, a, dir, w, devices) && a.results != [] && DistinctDevices(a.results)
    ensures OneSurvives(w.groups, w.applied) <==> OneConfig(a)
  {
    OneConfigIsOneGroup(a, w.groups, w.applied);
    forall k: nat | k < |w.applied| ensures Survives(w.groups, w.applied, k) {
      DistinctAllSurvive(alloc, a, dir, w, devices, k);
    }
    if OneConfig(a) {
      assert SoleSurvivor(w.groups, w.applied, 0);
    } else {
      GroupsCover(ConfigList(a), a.results, w.groups);
      assert a.results[0] in a.results && LastIndex(ConfigList(a), a.results[0].request) in w.applied;
      assert Survives(w.groups, w.applied, 0) && Survives(w.groups, w.applied, 1);
    }
  }

  // ---- The condition for every order ----

  /** The group is there, and its later results do not name the device of its first one again. */
  predicate KeepsOwn(groups: map<nat, seq<AllocResult>>, i: nat) {
    i in groups && groups[i] != [] && !FirstRepeated(groups[i])
  }

  /** The group at `i` names the device of the first result of the group at `j`. */
  predicate NamesHead(groups: map<nat, seq<AllocResult>>, i: nat, j: nat)
    requires i in groups && j in groups && groups[j] != []
  {
    Names(groups[i], groups[j][0].device)
  }

  /**
    Some group keeps its shared edits among its own results; every group that does is overwritten by each other group
    that does, and by no group that does not.
  */
  predicate OneInEveryOrder(groups: map<nat, seq<AllocResult>>) {
    (exists i :: i in groups && KeepsOwn(groups, i))
    && forall i, j :: i in groups && j in groups && i != j && KeepsOwn(groups, j) ==>
         (NamesHead(groups, i, j) <==> KeepsOwn(groups, i))
  }

  /** Told from the claim alone. */
  predicate Retriable(a: Allocation) {
    OneInEveryOrder(ClaimGroups(a))
  }

  lemma {:induction false} LastKeeper(groups: map<nat, seq<AllocResult>>, applied: seq<nat>, k: nat)
    returns (last: nat)
    requires k < |applied| && KeepsOwn(groups, applied[k])
    ensures last < |applied| && KeepsOwn(groups, applied[last])
    ensures forall j :: last < j < |applied| ==> !KeepsOwn(groups, applied[j])
    decreases |applied| - k
  {
    if j: nat :| k < j < |applied| && KeepsOwn(groups, applied[j]) {
      last := LastKeeper(groups, applied, j);
    } else {
      last := k;
    }
  }

  /** In every order the last group that keeps its own shared edits is the one that survives. */
  lemma OneInEveryOrderSurvives(groups: map<nat, seq<AllocResult>>, applied: seq<nat>)
    requires OneInEveryOrder(groups) && Orders(applied, groups.Keys)
    ensures OneSurvives(groups, applied)
  {
    var i :| i in groups && KeepsOwn(groups, i);
    assert i in applied;
    var at :| 0 <= at < |applied| && applied[at] == i;
    var k := LastKeeper(groups, applied, at);
    var head := groups[applied[k]][0].device;
    assert NamesAt(groups, applied, k, head) by {
      assert groups[applied[k]][0].device == head;
    }
    forall j | k < j < |applied| ensures !NamesAt(groups, applied, j, head) {
      assert applied[j] in groups.Keys && applied[j] != applied[k];
      assert !NamesHead(groups, applied[j], applied[k]);
    }
    assert Survives(groups, applied, k);
    forall j: nat | Survives(groups, applied, j) ensures j == k {
      if j < k {
        assert NamesHead(groups, applied[k], applied[j]);
        assert NamesAt(groups, applied, k, groups[applied[j]][0].device);
      }
    }
    assert SoleSurvivor(groups, applied, k);
  }

  /** What survives is decided by the groups applied later, not by their order. */
  lemma SwapLastTwo(groups: map<nat, seq<AllocResult>>, rest: seq<nat>, i: nat, j: nat, k: nat)
    requires k < |rest| && Survives(groups, rest + [j, i], k)
    ensures Survives(groups, rest + [i, j], k)
  {
    var one, two := rest + [j, i], rest + [i, j];
    var head, n := groups[one[k]][0].device, |rest|;
    assert one[k] == two[k] == rest[k];
    assert NamesAt(groups, one, k, head) && NamesAt(groups, two, k, head);
    assert !NamesAt(groups, one, n, head) && !NamesAt(groups, one, n + 1, head);
    forall m | k < m < |two| ensures !NamesAt(groups, two, m, head) {
      if m < n {
        assert !NamesAt(groups, one, m, head) && one[m] == two[m];
      }
    }
  }

  lemma LastSurvives(groups: map<nat, seq<AllocResult>>, applied: seq<nat>)
    requires applied != [] && KeepsOwn(groups, applied[|applied| - 1])
    ensures Survives(groups, applied, |applied| - 1)
  {
    var k := |applied| - 1;
    assert groups[applied[k]][0].device == groups[applied[k]][0].device;
    assert NamesAt(groups, applied, k, groups[applied[k]][0].device);
  }

  lemma OrdersWithLastTwo(s: set<nat>, i: nat, j: nat) returns (rest: seq<nat>)
    requires i in s && j in s && i != j
    ensures Orders(rest + [i, j], s) && Orders(rest + [j, i], s)
  {
    rest := SomeOrder(s - {i, j});
  }

  /** When the condition fails some order leaves no survivor, or two. */
  lemma SomeOrderFails(groups: map<nat, seq<AllocResult>>) returns (applied: seq<nat>)
    requires !OneInEveryOrder(groups)
    ensures Orders(applied, groups.Keys) && !OneSurvives(groups, applied)
  {
    if i, j :| i in groups && j in groups && i != j && KeepsOwn(groups, j)
               && NamesHead(groups, i, j) != KeepsOwn(groups, i) {
      var rest := OrdersWithLastTwo(groups.Keys, i, j);
      applied := rest + [j, i];
      if OneSurvives(groups, applied) {
        TwoSurviveAfterSwap(groups, rest, i, j);
        applied := rest + [i, j];
      }
    } else {
      applied := SomeOrder(groups.Keys);
    }
  }

  lemma TwoSurviveAfterSwap(groups: map<nat, seq<AllocResult>>, rest: seq<nat>, i: nat, j: nat)
    requires i in groups && KeepsOwn(groups, j) && NamesHead(groups, i, j) != KeepsOwn(groups, i)
    requires OneSurvives(groups, rest + [j, i])
    ensures !OneSurvives(groups, rest + [i, j])
  {
    var n, one, two := |rest|, rest + [j, i], rest + [i, j];
    var k: nat :| SoleSurvivor(groups, one, k);
    LastSurvives(groups, two);
    if KeepsOwn(groups, i) {
      LastSurvives(groups, one);
      BothLastSurvive(groups, rest, i, j);
    } else if k < n {
      SwapLastTwo(groups, rest, i, j, k);
      assert Survives(groups, two, k) && Survives(groups, two, n + 1);
    } else {
      NotSecondLast(groups, rest, i, j, k);
    }
  }

  /** The group at `j` survives before one that does not name its head, which then survives as well. */
  lemma BothLastSurvive(groups: map<nat, seq<AllocResult>>, rest: seq<nat>, i: nat, j: nat)
    requires i in groups && KeepsOwn(groups, j) && !NamesHead(groups, i, j) && KeepsOwn(groups, i)
    ensures !OneSurvives(groups, rest + [j, i])
  {
    var n, one := |rest|, rest + [j, i];
    LastSurvives(groups, one);
    var head := groups[j][0].device;
    assert NamesAt(groups, one, n, head) by {
      assert groups[one[n]][0].device == head;
    }
    assert !NamesAt(groups, one, n + 1, head);
    assert Survives(groups, one, n) && Survives(groups, one, n + 1);
  }

  lemma NotSecondLast(groups: map<nat, seq<AllocResult>>, rest: seq<nat>, i: nat, j: nat, k: nat)
    requires i in groups && KeepsOwn(groups, j) && NamesHead(groups, i, j) && !KeepsOwn(groups, i)
    ensures !(k >= |rest| && Survives(groups, rest + [j, i], k))
  {
    var n, one := |rest|, rest + [j, i];
    if Survives(groups, one, n) {
      assert NamesAt(groups, one, n + 1, groups[j][0].device);
    }
  }

  /**
    Whatever order Prepare applies the groups in, its devices are accepted again, if and only if the claim meets the
    condition.
  */
  lemma RetriableInEveryOrder(alloc: Allocatable, claim: Claim, dir: string)
    requires CanPrepare(alloc, claim, dir) && DistinctCards(alloc)
    ensures Retriable(claim.allocation.value) <==>
            forall devices :: Planned(alloc, claim, dir, devices) ==> CoreQuota(devices).Some?
  {
    var a := claim.allocation.value;
    if Retriable(a) {
      forall devices | Planned(alloc, claim, dir, devices) ensures CoreQuota(devices).Some? {
        var w :| Plan(alloc, a, dir, w, devices);
        ClaimGroupsAreAll(a, w.groups);
        OneInEveryOrderSurvives(w.groups, w.applied);
        AcceptedWhenOneSurvives(alloc, a, dir, w, devices);
      }
    } else {
      var devices := RefusedInSomeOrder(alloc, claim, dir);
      assert Planned(alloc, claim, dir, devices);
    }
  }

  lemma AcceptedWhenOneSurvives(alloc: Allocatable, a: Allocation, dir: string, w: Walk, devices: seq<PreparedDevice>)
    requires Plan(alloc, a, dir, w, devices) && DistinctCards(alloc)
    ensures CoreQuota(devices).Some? <==> OneSurvives(w.groups, w.applied)
  {
    RetryIsAccepted(alloc, a, dir, w, devices);
    SoleSurvivorAgrees(alloc, a, dir, w, devices);
    if k: nat :| Agreed(alloc, w, dir, k) {
      assert SoleSurvivor(w.groups, w.applied, k);
    }
    if k: nat :| SoleSurvivor(w.groups, w.applied, k) {
      assert Agreed(alloc, w, dir, k);
    }
  }

  /** A claim that does not meet the condition has prepared devices that are refused again. */
  lemma RefusedInSomeOrder(alloc: Allocatable, claim: Claim, dir: string) returns (devices: seq<PreparedDevice>)
    requires CanPrepare(alloc, claim, dir) && DistinctCards(alloc) && !Retriable(claim.allocation.value)
    ensures Planned(alloc, claim, dir, devices) && CoreQuota(devices).None?
  {
    var a := claim.allocation.value;
    var applied := SomeOrderFails(ClaimGroups(a));
    var w;
    w, devices := PlanExists(alloc, claim, dir, applied);
    ClaimGroupsAreAll(a, w.groups);
    AcceptedWhenOneSurvives(alloc, a, dir, w, devices);
  }
}
