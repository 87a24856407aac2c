/**
  When prepareDevices succeeds, told result by result from the claim and the node (cmd/ascend-dra-kubeletplugin/state.go
  and api/project-hami.io/resource/npu/v1alpha1).
*/
module PrepareRule {
  import opened Wrappers
  import opened CoreEnv
  import opened ConfigResolution
  import opened CorePrepare
  import opened WrittenDevices

  /** Unset settings take their defaults, which are valid. */
  predicate Accepts(config: Object) {
    config.NpuConfig?
    && match config.sharing
       case None => true
       case Some(s) =>
         || (s.strategy == "TimeSlicing"
             && s.timeSlicing in {None, Some("Default"), Some("Short"), Some("Medium"), Some("Long")})
         || (s.strategy == "SpacePartitioning" && (s.spacePartitioning.Some? ==> s.spacePartitioning.value >= 0))
  }

  lemma AcceptableIff(config: Object)
    ensures Acceptable(config) <==> Accepts(config)
  {
  }

  /** The position, in order of precedence, of the configuration that applies to the result. */
  function ConfigOf(a: Allocation, r: AllocResult): nat {
    LastIndex(ConfigList(a), r.request)
  }

  /**
    The configuration of a result: the last of the claim's own that applies to its request; without one, the last of the
    device class; without either, time slicing in default intervals.
  */
  lemma ConfigIsByPrecedence(a: Allocation, r: AllocResult)
    requires Resolvable(a.configs, DRIVER)
    ensures ConfigOf(a, r) < |ConfigList(a)|
    ensures var config := ConfigList(a)[ConfigOf(a, r)].config;
            && (forall i: nat :: LastApplying(a.configs, DRIVER, FromClaim, r.request, i) ==>
                  a.configs[i].parameters.value.decoded == Some(config))
            && (NoneApplies(a.configs, DRIVER, FromClaim, r.request) ==>
                  (forall i: nat :: LastApplying(a.configs, DRIVER, FromClass, r.request, i) ==>
                     a.configs[i].parameters.value.decoded == Some(config))
                  && (NoneApplies(a.configs, DRIVER, FromClass, r.request) ==>
                        config == NpuConfig(Some(Sharing("TimeSlicing", Some("Default"), None)))))
  {
    var configs := ConfigList(a);
    SameMembers(a.configs, Part(a.configs, FromClass) + Part(a.configs, FromClaim), DRIVER);
    var i := ChosenExistsOnce(configs, r.request);
    ChosenIsLastIndex(configs, r.request, i);
    Precedence(a.configs, DRIVER, r.request, configs, i);
  }

  predicate OnCard(alloc: Allocatable, device: string) {
    device in alloc && alloc[device].physicalID.Some? && alloc[device].physicalID.value >= 0
  }

  /** The result counts with whole MiB of memory and with one to a hundred cores. */
  predicate HasLimits(alloc: Allocatable, r: AllocResult) {
    var bytes := CapacityValue(alloc, r, ["memory", "ascend.project-hami.io/memory"]);
    var cores := CapacityValue(alloc, r, ["cores", "ascend.project-hami.io/aicore", "aicore",
                                          "ascend.project-hami.io/cores"]);
    bytes.Some? && cores.Some? && bytes.value > 0 && bytes.value % 1048576 == 0 && 1 <= cores.value <= 100
  }

  /** What both results consume, they consume in the same amount. */
  predicate Agree(r: AllocResult, s: AllocResult) {
    forall name :: name in r.consumed && name in s.consumed ==> r.consumed[name].Amount() == s.consumed[name].Amount()
  }

  /** No earlier result has the same configuration. */
  predicate LeadsGroup(a: Allocation, k: nat)
    requires k < |a.results|
  {
    forall j :: 0 <= j < k ==> ConfigOf(a, a.results[j]) != ConfigOf(a, a.results[k])
  }

  predicate ResultPrepares(alloc: Allocatable, a: Allocation, k: nat)
    requires k < |a.results|
  {
    var r, configs := a.results[k], ConfigList(a);
    && OnCard(alloc, r.device)
    && ConfigOf(a, r) < |configs| && Accepts(configs[ConfigOf(a, r)].config)
    && (forall j :: 0 <= j < |a.results| && ConfigOf(a, a.results[j]) == ConfigOf(a, r) ==> Agree(a.results[j], r))
    && (LeadsGroup(a, k) ==> HasLimits(alloc, r))
  }

  /** The first result of a group is the first of the claim with that configuration. */
  lemma {:induction false} GroupLeader(configs: seq<DeviceConfig>, results: seq<AllocResult>, i: nat) returns (k: nat)
    requires Group(configs, results, i) != []
    ensures k < |results| && results[k] == Group(configs, results, i)[0] && LastIndex(configs, results[k].request) == i
    ensures forall j :: 0 <= j < k ==> LastIndex(configs, results[j].request) != i
  {
    var n := |results| - 1;
    var front := Group(configs, results[..n], i);
    if front != [] {
      k := GroupLeader(configs, results[..n], i);
    } else {
      k := n;
      GroupMembers(configs, results[..n], {i});
      forall j | 0 <= j < n ensures LastIndex(configs, results[j].request) != i {
        assert results[j] in results[..n] && results[j] !in front;
      }
    }
  }

  lemma InGroup(a: Allocation, k: nat)
    requires k < |a.results|
    ensures a.results[k] in Group(ConfigList(a), a.results, ConfigOf(a, a.results[k]))
  {
    GroupMembers(ConfigList(a), a.results, {ConfigOf(a, a.results[k])});
    assert a.results[k] in a.results;
  }

  lemma SharedIsAgreed(group: seq<AllocResult>)
    ensures SharedConsumption(group) <==> forall r, s :: r in group && s in group ==> Agree(r, s)
  {
    forall i, j | 0 <= i < |group| && 0 <= j < |group| && SharedConsumption(group) ensures Agree(group[i], group[j]) {
      if i < j {
        assert SameConsumption(group[i], group[j]);
      } else if j < i {
        assert SameConsumption(group[j], group[i]);
      }
    }
    if forall r, s :: r in group && s in group ==> Agree(r, s) {
      forall i, j | 0 <= i < j < |group| ensures SameConsumption(group[i], group[j]) {
        assert Agree(group[i], group[j]);
      }
    }
  }

  lemma VisibleIsOnCard(alloc: Allocatable, device: string)
    ensures VisibleID(alloc, device).Some? <==> OnCard(alloc, device)
  {
  }

  lemma LimitsMean(alloc: Allocatable, r: AllocResult, dir: string)
    requires dir != ""
    ensures HasLimits(alloc, r) <==>
            CapacityValue(alloc, r, MEMORY_NAMES).Some? && CapacityValue(alloc, r, CORES_NAMES).Some?
            && Writable(CapacityValue(alloc, r, MEMORY_NAMES).value, CapacityValue(alloc, r, CORES_NAMES).value, dir)
  {
    NamesSpelled();
  }

  lemma ApplicableMeans(alloc: Allocatable, group: seq<AllocResult>, dir: string)
    requires group != [] && dir != ""
    ensures Applicable(alloc, group, dir) <==>
            && (forall r, s :: r in group && s in group ==> Agree(r, s))
            && (forall r :: r in group ==> OnCard(alloc, r.device))
            && HasLimits(alloc, group[0])
  {
    SharedIsAgreed(group);
    LimitsMean(alloc, group[0], dir);
    forall k | 0 <= k < |group| ensures VisibleID(alloc, group[k].device).Some? <==> OnCard(alloc, group[k].device) {
      VisibleIsOnCard(alloc, group[k].device);
    }
  }

  lemma PreparedResult(alloc: Allocatable, a: Allocation, dir: string, k: nat)
    requires dir != "" && Preparable(alloc, ConfigList(a), a.results, dir) && k < |a.results|
    ensures ResultPrepares(alloc, a, k)
  {
    var configs, i := ConfigList(a), ConfigOf(a, a.results[k]);
    var group := Group(configs, a.results, i);
    InGroup(a, k);
    assert GroupOk(alloc, configs, a.results, dir, i);
    ApplicableMeans(alloc, group, dir);
    AcceptableIff(configs[i].config);
    forall j | 0 <= j < |a.results| && ConfigOf(a, a.results[j]) == i ensures Agree(a.results[j], a.results[k]) {
      InGroup(a, j);
    }
    if LeadsGroup(a, k) {
      var first := GroupLeader(configs, a.results, i);
      assert first == k;
    }
  }

  lemma GroupPrepares(alloc: Allocatable, a: Allocation, dir: string, i: nat)
    requires dir != "" && forall k :: 0 <= k < |a.results| ==> ResultPrepares(alloc, a, k)
    ensures GroupOk(alloc, ConfigList(a), a.results, dir, i)
  {
    var configs := ConfigList(a);
    var group := Group(configs, a.results, i);
    if group != [] {
      var first := GroupLeader(configs, a.results, i);
      assert ResultPrepares(alloc, a, first);
      AcceptableIff(configs[i].config);
      GroupMembers(configs, a.results, {i});
      forall r, s | r in group && s in group ensures Agree(r, s) && OnCard(alloc, r.device) {
        MembersAgree(alloc, a, i, r, s);
      }
      ApplicableMeans(alloc, group, dir);
    }
  }

  lemma ResultsPrepare(alloc: Allocatable, a: Allocation, dir: string)
    requires dir != "" && forall k :: 0 <= k < |a.results| ==> ResultPrepares(alloc, a, k)
    ensures Preparable(alloc, ConfigList(a), a.results, dir)
  {
    forall i ensures GroupOk(alloc, ConfigList(a), a.results, dir, i) {
      GroupPrepares(alloc, a, dir, i);
    }
    forall k | 0 <= k < |a.results| ensures a.results[k].device in alloc {
      assert ResultPrepares(alloc, a, k);
    }
  }

  lemma MembersAgree(alloc: Allocatable, a: Allocation, i: nat, r: AllocResult, s: AllocResult)
    requires forall k :: 0 <= k < |a.results| ==> ResultPrepares(alloc, a, k)
    requires r in a.results && s in a.results && ConfigOf(a, r) == i && ConfigOf(a, s) == i
    ensures Agree(r, s) && OnCard(alloc, r.device)
  {
    var j :| 0 <= j < |a.results| && a.results[j] == r;
    var k :| 0 <= k < |a.results| && a.results[k] == s;
    assert ResultPrepares(alloc, a, j) && ResultPrepares(alloc, a, k);
  }

  /** The sources are class or claim, and every opaque configuration of this driver decodes. */
  predicate ConfigsResolve(configs: seq<AllocConfig>) {
    forall i :: 0 <= i < |configs| ==>
      && configs[i].source in {FromClass, FromClaim} && configs[i].parameters.Some?
      && (configs[i].parameters.value.driver == "ascend.project-hami.io" ==>
            configs[i].parameters.value.decoded.Some?)
  }

  /**
    Prepare can succeed if and only if the claim is allocated, its configurations resolve, every result is on a known
    card under a configuration that is accepted and agrees with all others under it, and the first result under each
    configuration counts with a quota and cores that the core runtime takes.
  */
  lemma CanPrepareIff(alloc: Allocatable, claim: Claim, dir: string)
    requires dir != ""
    ensures CanPrepare(alloc, claim, dir) <==>
            && claim.allocation.Some? && ConfigsResolve(claim.allocation.value.configs)
            && forall k :: 0 <= k < |claim.allocation.value.results| ==>
                 ResultPrepares(alloc, claim.allocation.value, k)
  {
    if claim.allocation.Some? {
      var a := claim.allocation.value;
      ResolvesIff(a.configs);
      if Preparable(alloc, ConfigList(a), a.results, dir) {
        forall k | 0 <= k < |a.results| ensures ResultPrepares(alloc, a, k) {
          PreparedResult(alloc, a, dir, k);
        }
      }
      if forall k :: 0 <= k < |a.results| ==> ResultPrepares(alloc, a, k) {
        ResultsPrepare(alloc, a, dir);
      }
    }
  }

  lemma ResolvesIff(configs: seq<AllocConfig>)
    ensures Resolvable(configs, DRIVER) <==> ConfigsResolve(configs)
  {
    if Resolvable(configs, DRIVER) {
      forall i | 0 <= i < |configs|
        ensures configs[i].source in {FromClass, FromClaim} && Decodes(configs[i], DRIVER)
      {
      }
    }
  }
}
