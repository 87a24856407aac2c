/**
  What the CDI spec of a checkpointed claim gives its container, in every run (cmd/ascend-dra-kubeletplugin/cdi.go and
  state.go), and that the monitor reads the file the container writes.
*/
module ClaimSpecs {
  import opened Wrappers
  import opened Decimal
  import opened MonitorTypes
  import opened CoreEnv
  import opened CorePrepare
  import opened RetryRule
  import opened MountPaths
  import opened WrittenDevices
  import opened TokenProtocol
  import opened Lifecycle
  import opened LifecycleRuns
  import DomainRule

  // ---- Checkpointed devices carry the core mounts of their claim ----

  predicate CarriesNothing(d: PreparedDevice) {
    d.edits == Some(Edits([], [], [], []))
  }

  /** The device carries nothing, or the core mounts with this directory and neither device node nor hook. */
  predicate CoreOrNothing(d: PreparedDevice, dir: string) {
    CarriesNothing(d)
    || (d.edits.Some? && d.edits.value.mounts == CoreMounts(dir) && d.edits.value.deviceNodes == []
        && d.edits.value.hooks == [])
  }

  predicate AllCoreOrNothing(devices: seq<PreparedDevice>, dir: string) {
    forall k :: 0 <= k < |devices| ==> CoreOrNothing(devices[k], dir)
  }

  ghost predicate OwnDirectories(root: string, durable: Claims) {
    forall uid :: Has(durable, uid) ==> AllCoreOrNothing(durable[uid].devices, ClaimDir(root, uid))
  }

  lemma DeviceCarriesOwn(alloc: Allocatable, a: Allocation, dir: string, w: Walk, devices: seq<PreparedDevice>, m: nat)
    requires Plan(alloc, a, dir, w, devices) && m < |devices|
    ensures CoreOrNothing(devices[m], dir)
  {
    var k := DeciderOf(alloc, a, dir, w, devices, m);
  }

  lemma PlannedCarryOwn(alloc: Allocatable, claim: Claim, dir: string, devices: seq<PreparedDevice>)
    requires Planned(alloc, claim, dir, devices)
    ensures AllCoreOrNothing(devices, dir)
  {
    var a := claim.allocation.value;
    var w :| Plan(alloc, a, dir, w, devices);
    forall m | 0 <= m < |devices| ensures CoreOrNothing(devices[m], dir) {
      DeviceCarriesOwn(alloc, a, dir, w, devices, m);
    }
  }

  lemma PreparedKeepsOwn(alloc: Allocatable, root: string, pre: Node, claim: Claim, post: Node, r: PrepareResult)
    requires OwnDirectories(root, pre.durable) && PreparePost(alloc, root, pre, claim, post, r)
    ensures OwnDirectories(root, post.durable)
  {
    if r.Prepared? && !Has(pre.durable, claim.uid) {
      PlannedCarryOwn(alloc, claim, ClaimDir(root, claim.uid), r.devices);
      assert post.durable == pre.durable[claim.uid := EntryOf(r.devices)];
    } else {
      assert post.durable == pre.durable;
    }
  }

  lemma StepKeepsOwn(alloc: Allocatable, root: string, l: Ledger, op: Op, l': Ledger)
    requires OwnDirectories(root, l.node.durable) && Step(alloc, root, l, op, l')
    ensures OwnDirectories(root, l'.node.durable)
  {
    match op
    case DoPrepare(claim, r) => PreparedKeepsOwn(alloc, root, l.node, claim, l'.node, r);
    case DoUnprepare(uid, r) =>
      assert l'.node.durable == l.node.durable || l'.node.durable == l.node.durable - {uid};
    case Restart =>
  }

  lemma {:induction false} RunKeepsOwn(alloc: Allocatable, root: string, ls: seq<Ledger>, ops: seq<Op>, k: nat)
    requires LifecycleRuns.Run(alloc, root, ls, ops) && k < |ls|
    ensures OwnDirectories(root, ls[k].node.durable)
  {
    if k > 0 {
      RunKeepsOwn(alloc, root, ls, ops, k - 1);
      StepKeepsOwn(alloc, root, ls[k - 1], ops[k - 1], ls[k]);
    }
  }

  // ---- Where the merged mounts lead ----

  lemma {:induction false} MergedMounts(devices: seq<PreparedDevice>, dir: string, m: Mount)
    requires AllCoreOrNothing(devices, dir)
    ensures m in AllMounts(devices) <==> m in CoreMounts(dir) && SomeCarries(devices)
  {
    if devices != [] {
      var n := |devices| - 1;
      var front := devices[..n];
      MergedMounts(front, dir, m);
      assert SomeCarries(devices) <==> SomeCarries(front) || !CarriesNothing(devices[n]) by {
        if k :| 0 <= k < n && !CarriesNothing(front[k]) {
          assert !CarriesNothing(devices[k]);
        }
      }
    }
  }

  predicate SomeCarries(devices: seq<PreparedDevice>) {
    exists k :: 0 <= k < |devices| && !CarriesNothing(devices[k])
  }

  lemma {:induction false} NothingMerged(devices: seq<PreparedDevice>)
    requires !SomeCarries(devices)
    ensures AllMounts(devices) == []
  {
    if devices != [] {
      NothingMerged(devices[..|devices| - 1]);
    }
  }

  lemma SameMountsReach(a: seq<Mount>, b: seq<Mount>, inside: string, outside: string, options: seq<string>)
    requires (forall m :: m in a <==> m in b) && Reaches(a, inside, outside, options)
    ensures Reaches(b, inside, outside, options)
  {
    var k :| 0 <= k < |a| && Above(a[k].containerPath, inside);
    assert a[k] in b;
    forall j | 0 <= j < |b| && Above(b[j].containerPath, inside)
      ensures b[j].hostPath + inside[|b[j].containerPath|..] == outside && b[j].options == options
    {
      assert b[j] in a;
    }
  }

  lemma SameMountsLead(a: seq<Mount>, b: seq<Mount>, dir: string, file: string)
    requires (forall m :: m in a <==> m in b) && CorePaths(a, dir, file)
    ensures CorePaths(b, dir, file)
  {
    var library, version := "/usr/local/Ascend/driver/lib64/driver", "/usr/local/Ascend/driver/version.info";
    SameMountsReach(a, b, "/etc/ascend_install.info" + file, "/etc/ascend_install.info" + file, RO);
    SameMountsReach(a, b, library + file, library + file, RO);
    SameMountsReach(a, b, version + file, version + file, RO);
    SameMountsReach(a, b, "/hami-vnpu-core" + file, RUNTIME + file, RO);
    SameMountsReach(a, b, "/etc/ld.so.preload" + file, RUNTIME + "/ld.so.preload" + file, RO);
    SameMountsReach(a, b, "/hami-shared-region" + file, "/usr/local/hami-shared-region" + file, RW);
    SameMountsReach(a, b, "/hami-vnpu-shmem" + file, dir + file, RW);
  }

  lemma {:induction false} NoNodesNoHooks(devices: seq<PreparedDevice>, dir: string)
    requires AllCoreOrNothing(devices, dir)
    ensures AllDeviceNodes(devices) == [] && AllHooks(devices) == []
  {
    if devices != [] {
      NoNodesNoHooks(devices[..|devices| - 1], dir);
    }
  }

  /** The edits lead a container to the directory of this claim, as soon as one device carries any. */
  ghost predicate SpecFor(spec: Edits, devices: seq<PreparedDevice>, dir: string) {
    && AllHaveEdits(devices) && Merges(spec, devices) && spec.deviceNodes == [] && spec.hooks == []
    && (if SomeCarries(devices) then forall file :: Below(file) ==> CorePaths(spec.mounts, dir, file)
        else spec.mounts == [])
  }

  lemma MergedIsSpecFor(devices: seq<PreparedDevice>, dir: string)
    requires AllCoreOrNothing(devices, dir)
    ensures SpecFor(SpecOf(devices), devices, dir)
  {
    SpecMerges(devices);
    NoNodesNoHooks(devices, dir);
    forall m ensures m in AllMounts(devices) <==> m in CoreMounts(dir) && SomeCarries(devices) {
      MergedMounts(devices, dir, m);
    }
    if SomeCarries(devices) {
      forall file | Below(file) ensures CorePaths(AllMounts(devices), dir, file) {
        CoreMountsLead(dir, file);
        SameMountsLead(CoreMounts(dir), AllMounts(devices), dir, file);
      }
    } else {
      NothingMerged(devices);
    }
  }

  /** Devices that are accepted carry something. */
  lemma AcceptedCarries(devices: seq<PreparedDevice>)
    requires CoreQuota(devices).Some?
    ensures SomeCarries(devices)
  {
    var k :| 0 <= k < |devices| && MountsRuntime(devices[k]);
    assert !CarriesNothing(devices[k]);
  }

  /**
    Between any two operations of any run, the stored spec of a checkpointed claim is what its devices carry, one
    after the other. If they are accepted as core devices, its mounts lead to the core runtime, to the region all
    claims share and, below /hami-vnpu-shmem, to the directory of that claim and nowhere else.
  */
  lemma SpecLeadsToOwnDirectory(
      alloc: Allocatable, root: string, ls: seq<Ledger>, ops: seq<Op>, k: nat, uid: string)
    requires LifecycleRuns.Run(alloc, root, ls, ops) && k < |ls|
    requires Has(ls[k].node.durable, uid) && uid in ls[k].node.specs
    ensures var spec, devices := ls[k].node.specs[uid], ls[k].node.durable[uid].devices;
            && uid !in {"", ".", ".."} && '/' !in uid && '\\' !in uid
            && SpecFor(spec, devices, root + "/containers/" + uid)
            && (CoreQuota(devices).Some? ==>
                  forall file :: Below(file) ==> CorePaths(spec.mounts, root + "/containers/" + uid, file))
  {
    RunKeeps(alloc, root, ls, ops, k);
    RunKeepsOwn(alloc, root, ls, ops, k);
    var devices := ls[k].node.durable[uid].devices;
    MergedIsSpecFor(devices, ClaimDir(root, uid));
    if CoreQuota(devices).Some? {
      AcceptedCarries(devices);
    }
  }

  /**
    A new claim's stored spec tells its container the cards and limits of the group whose shared edits survive,
    whenever its devices will be accepted again.
  */
  lemma PreparedSpecTells(
      alloc: Allocatable, root: string, pre: Node, claim: Claim, post: Node, devices: seq<PreparedDevice>)
    returns (w: Walk)
    requires PreparePost(alloc, root, pre, claim, post, Prepared(devices)) && !Has(pre.durable, claim.uid)
    ensures Plan(alloc, claim.allocation.value, ClaimDir(root, claim.uid), w, devices) && claim.uid in post.specs
    ensures var env := ReadEntries(post.specs[claim.uid].env);
            forall k: nat :: Agreed(alloc, w, ClaimDir(root, claim.uid), k) ==>
              env.Some? && TellsGroup(alloc, w.groups[w.applied[k]], env.value)
  {
    var a, dir := claim.allocation.value, ClaimDir(root, claim.uid);
    w :| Plan(alloc, a, dir, w, devices);
    assert post == AfterPrepare(pre, claim.uid, devices);
    forall k: nat | Agreed(alloc, w, dir, k)
      ensures ReadEntries(AllEnv(devices)).Some?
      ensures TellsGroup(alloc, w.groups[w.applied[k]], ReadEntries(AllEnv(devices)).value)
    {
      SurvivorIsTold(alloc, a, dir, w, devices, k);
    }
  }

  /**
    The file that the runtime keeps in the container at the path told by NPU_LOCAL_SHM_PATH, with the card's physical
    ID behind it, is the one the monitor reads for that claim and card.
  */
  lemma MonitorReadsOwnFile(
      alloc: Allocatable, root: string, ls: seq<Ledger>, ops: seq<Op>, k: nat, d: Domain)
    requires LifecycleRuns.Run(alloc, root, ls, ops) && k < |ls|
    requires Has(ls[k].node.durable, d.claimUID) && d.claimUID in ls[k].node.specs
    requires CoreQuota(ls[k].node.durable[d.claimUID].devices).Some?
    ensures var spec := ls[k].node.specs[d.claimUID];
            && ReadEntries(spec.env).Some? && "NPU_LOCAL_SHM_PATH" in ReadEntries(spec.env).value
            && Reaches(spec.mounts,
                       ReadEntries(spec.env).value["NPU_LOCAL_SHM_PATH"] + ".device-" + Itoa(d.physicalID),
                       DomainRule.DomainPath(root + "/containers", d), RW)
  {
    var spec := ls[k].node.specs[d.claimUID];
    RunKeeps(alloc, root, ls, ops, k);
    SpecLeadsToOwnDirectory(alloc, root, ls, ops, k, d.claimUID);
    AcceptedTellsPath(ls[k].node.durable[d.claimUID].devices);
    LocalFile(root, d, spec.mounts);
  }

  lemma AcceptedTellsPath(devices: seq<PreparedDevice>)
    requires CoreQuota(devices).Some?
    ensures ReadEntries(SpecOf(devices).env).Some?
    ensures HasVariable(ReadEntries(SpecOf(devices).env).value, "NPU_LOCAL_SHM_PATH",
                        "/hami-vnpu-shmem/vnpu_local_shmem")
  {
  }

  lemma LocalFile(root: string, d: Domain, mounts: seq<Mount>)
    requires forall file :: Below(file) ==> CorePaths(mounts, root + "/containers/" + d.claimUID, file)
    ensures Reaches(mounts, "/hami-vnpu-shmem/vnpu_local_shmem" + ".device-" + Itoa(d.physicalID),
                    DomainRule.DomainPath(root + "/containers", d), RW)
  {
    var file := "/vnpu_local_shmem.device-" + Itoa(d.physicalID);
    assert Below(file) && CorePaths(mounts, root + "/containers/" + d.claimUID, file);
    SameText(root, d);
  }

  lemma SameText(root: string, d: Domain)
    ensures var file := "/vnpu_local_shmem.device-" + Itoa(d.physicalID);
            && "/hami-vnpu-shmem/vnpu_local_shmem" + ".device-" + Itoa(d.physicalID) == "/hami-vnpu-shmem" + file
            && DomainRule.DomainPath(root + "/containers", d) == root + "/containers/" + d.claimUID + file
  {
  }
}
