/**
  Which opaque configuration applies to an allocation result (GetOpaqueDeviceConfigs and the backward lookup of
  prepareDevices in cmd/ascend-dra-kubeletplugin/state.go).
*/
module ConfigResolution {
  import opened Wrappers

  datatype Source = FromClass | FromClaim | OtherSource

  datatype Sharing = Sharing(strategy: string, timeSlicing: Option<string>, spacePartitioning: Option<int>)

  /** What the decoder makes of the raw parameters: a driver configuration or some other registered object. */
  datatype Object = NpuConfig(sharing: Option<Sharing>) | OtherObject

  /** `decoded` is None when the raw parameters do not decode. */
  datatype Parameters = Parameters(driver: string, decoded: Option<Object>)

  datatype AllocConfig = AllocConfig(source: Source, requests: seq<string>, parameters: Option<Parameters>)

  datatype DeviceConfig = DeviceConfig(requests: seq<string>, config: Object)

  datatype ConfigError = InvalidSource | NotOpaque | Undecodable

  const DEFAULT_CONFIG := DeviceConfig([], NpuConfig(Some(Sharing("TimeSlicing", Some("Default"), None))))

  // ---- The list of configurations ----

  function Part(configs: seq<AllocConfig>, source: Source): seq<AllocConfig> {
    if configs == [] then []
    else
      var front := Part(configs[..|configs| - 1], source);
      var last := configs[|configs| - 1];
      if last.source == source then front + [last] else front
  }

  predicate Own(c: AllocConfig, driver: string) {
    c.parameters.Some? && c.parameters.value.driver == driver
  }

  predicate Decodes(c: AllocConfig, driver: string) {
    c.parameters.Some? && (c.parameters.value.driver == driver ==> c.parameters.value.decoded.Some?)
  }

  predicate AllDecode(configs: seq<AllocConfig>, driver: string) {
    forall i :: 0 <= i < |configs| ==> Decodes(configs[i], driver)
  }

  function Decoded(configs: seq<AllocConfig>, driver: string): seq<DeviceConfig>
    requires AllDecode(configs, driver)
  {
    if configs == [] then []
    else
      var front := Decoded(configs[..|configs| - 1], driver);
      var last := configs[|configs| - 1];
      if Own(last, driver) then front + [DeviceConfig(last.requests, last.parameters.value.decoded.value)] else front
  }

  predicate Resolvable(configs: seq<AllocConfig>, driver: string) {
    (forall i :: 0 <= i < |configs| ==> configs[i].source != OtherSource) && AllDecode(configs, driver)
  }

  lemma {:induction false} PartKeeps(configs: seq<AllocConfig>, source: Source)
    ensures forall c :: c in Part(configs, source) <==> c in configs && c.source == source
  {
    if configs != [] {
      var n := |configs| - 1;
      PartKeeps(configs[..n], source);
      assert configs == configs[..n] + [configs[n]];
    }
  }

  /** The list is the class configurations, then the claim configurations, each in its own order. */
  method GetOpaqueDeviceConfigs(configs: seq<AllocConfig>, driver: string)
    returns (r: Result<seq<DeviceConfig>, ConfigError>)
    ensures r.Ok? <==> Resolvable(configs, driver)
    ensures r.Ok? ==> AllDecode(Part(configs, FromClass) + Part(configs, FromClaim), driver)
                      && r.value == Decoded(Part(configs, FromClass) + Part(configs, FromClaim), driver)
    ensures r == Err(InvalidSource) <==> exists i :: 0 <= i < |configs| && configs[i].source == OtherSource
  {
    var ofClass: seq<AllocConfig>, ofClaim: seq<AllocConfig> := [], [];
    for i := 0 to |configs|
      invariant ofClass == Part(configs[..i], FromClass) && ofClaim == Part(configs[..i], FromClaim)
      invariant forall k :: 0 <= k < i ==> configs[k].source != OtherSource
    {
      assert configs[..i + 1][..i] == configs[..i];
      match configs[i].source
      case FromClass => ofClass := ofClass + [configs[i]];
      case FromClaim => ofClaim := ofClaim + [configs[i]];
      case OtherSource => return Err(InvalidSource);
    }
    assert configs[..|configs|] == configs;
    PartKeeps(configs, FromClass);
    PartKeeps(configs, FromClaim);
    var candidates := ofClass + ofClaim;
    SameMembers(configs, candidates, driver);
    r := DecodeAll(candidates, driver);
  }

  lemma SameMembers(configs: seq<AllocConfig>, candidates: seq<AllocConfig>, driver: string)
    requires forall i :: 0 <= i < |configs| ==> configs[i].source != OtherSource
    requires candidates == Part(configs, FromClass) + Part(configs, FromClaim)
    ensures AllDecode(configs, driver) <==> AllDecode(candidates, driver)
  {
    PartKeeps(configs, FromClass);
    PartKeeps(configs, FromClaim);
    assert forall c :: c in configs <==> c in candidates;
    assert AllDecode(configs, driver) <==> forall c :: c in configs ==> Decodes(c, driver);
    assert AllDecode(candidates, driver) <==> forall c :: c in candidates ==> Decodes(c, driver);
  }

  method DecodeAll(candidates: seq<AllocConfig>, driver: string) returns (r: Result<seq<DeviceConfig>, ConfigError>)
    ensures r.Ok? <==> AllDecode(candidates, driver)
    ensures r.Ok? ==> r.value == Decoded(candidates, driver)
    ensures r != Err(InvalidSource)
  {
    var result: seq<DeviceConfig> := [];
    for i := 0 to |candidates|
      invariant AllDecode(candidates[..i], driver) && result == Decoded(candidates[..i], driver)
    {
      assert candidates[..i + 1][..i] == candidates[..i];
      var c := candidates[i];
      if c.parameters.None? {
        assert !Decodes(candidates[i], driver);
        return Err(NotOpaque);
      }
      if c.parameters.value.driver != driver {
        continue;
      }
      if c.parameters.value.decoded.None? {
        assert !Decodes(candidates[i], driver);
        return Err(Undecodable);
      }
      result := result + [DeviceConfig(c.requests, c.parameters.value.decoded.value)];
    }
    assert candidates[..|candidates|] == candidates;
    return Ok(result);
  }

  // ---- The configuration of one result ----

  predicate Matches(requests: seq<string>, request: string) {
    |requests| == 0 || request in requests
  }

  /** The position of the last configuration in the list that matches. */
  ghost predicate ChosenAt(configs: seq<DeviceConfig>, request: string, i: nat) {
    i < |configs| && Matches(configs[i].requests, request)
    && forall j :: i < j < |configs| ==> !Matches(configs[j].requests, request)
  }

  method Choose(configs: seq<DeviceConfig>, request: string) returns (at: Option<nat>)
    ensures at.Some? ==> ChosenAt(configs, request, at.value)
    ensures at.None? <==> forall j :: 0 <= j < |configs| ==> !Matches(configs[j].requests, request)
  {
    var i := |configs|;
    while i > 0
      invariant 0 <= i <= |configs|
      invariant forall j :: i <= j < |configs| ==> !Matches(configs[j].requests, request)
    {
      i := i - 1;
      if |configs[i].requests| == 0 || request in configs[i].requests {
        return Some(i);
      }
    }
    return None;
  }

  /** With the default in front there always is exactly one. */
  lemma ChosenExistsOnce(configs: seq<DeviceConfig>, request: string) returns (i: nat)
    requires configs != [] && configs[0] == DEFAULT_CONFIG
    ensures ChosenAt(configs, request, i)
    ensures forall j :: ChosenAt(configs, request, j) ==> j == i
  {
    i := |configs| - 1;
    while !Matches(configs[i].requests, request)
      invariant 0 <= i < |configs|
      invariant forall j :: i < j < |configs| ==> !Matches(configs[j].requests, request)
      invariant Matches(configs[0].requests, request)
      decreases i
    {
      i := i - 1;
    }
  }

  // ---- Precedence, stated on the list as the claim carries it ----

  predicate Applies(c: AllocConfig, driver: string, source: Source, request: string) {
    c.source == source && Own(c, driver) && (c.requests == [] || request in c.requests)
  }

  /** `c` is the last configuration of this source, in the original list, that applies to the request. */
  ghost predicate LastApplying(configs: seq<AllocConfig>, driver: string, source: Source, request: string, i: nat) {
    i < |configs| && Applies(configs[i], driver, source, request)
    && forall j :: i < j < |configs| ==> !Applies(configs[j], driver, source, request)
  }

  ghost predicate NoneApplies(configs: seq<AllocConfig>, driver: string, source: Source, request: string) {
    forall j :: 0 <= j < |configs| ==> !Applies(configs[j], driver, source, request)
  }

  /** The last matching configuration of a decoded list. */
  function LastMatch(configs: seq<DeviceConfig>, request: string): Option<Object> {
    if configs == [] then None
    else
      var last := configs[|configs| - 1];
      if Matches(last.requests, request) then Some(last.config) else LastMatch(configs[..|configs| - 1], request)
  }

  lemma {:induction false} LastMatchIsChosen(configs: seq<DeviceConfig>, request: string, i: nat)
    requires ChosenAt(configs, request, i)
    ensures LastMatch(configs, request) == Some(configs[i].config)
  {
    var n := |configs| - 1;
    if i < n {
      LastMatchIsChosen(configs[..n], request, i);
    }
  }

  lemma {:induction false} LastMatchOfJoin(a: seq<DeviceConfig>, b: seq<DeviceConfig>, request: string)
    ensures LastMatch(a + b, request)
              == if LastMatch(b, request).Some? then LastMatch(b, request) else LastMatch(a, request)
  {
    if b == [] {
      assert a + b == a;
    } else {
      var n := |b| - 1;
      assert (a + b)[..|a + b| - 1] == a + b[..n];
      LastMatchOfJoin(a, b[..n], request);
    }
  }

  lemma {:induction false} DecodedJoin(a: seq<AllocConfig>, b: seq<AllocConfig>, driver: string)
    requires AllDecode(a, driver) && AllDecode(b, driver)
    ensures AllDecode(a + b, driver) && Decoded(a + b, driver) == Decoded(a, driver) + Decoded(b, driver)
  {
    if b == [] {
      assert a + b == a;
    } else {
      var n := |b| - 1;
      assert (a + b)[..|a + b| - 1] == a + b[..n];
      DecodedJoin(a, b[..n], driver);
    }
  }

  lemma {:induction false} PartDecodes(configs: seq<AllocConfig>, driver: string, source: Source)
    requires AllDecode(configs, driver)
    ensures AllDecode(Part(configs, source), driver)
  {
    PartKeeps(configs, source);
    forall i | 0 <= i < |Part(configs, source)| ensures Decodes(Part(configs, source)[i], driver) {
      assert Part(configs, source)[i] in configs;
    }
  }

  lemma PartStep(configs: seq<AllocConfig>, driver: string, source: Source)
    requires configs != [] && AllDecode(configs, driver) && AllDecode(Part(configs, source), driver)
    ensures var n := |configs| - 1;
            AllDecode(Part(configs[..n], source), driver)
            && Decoded(Part(configs, source), driver) == Decoded(Part(configs[..n], source), driver)
               + if configs[n].source == source && Own(configs[n], driver)
                 then [DeviceConfig(configs[n].requests, configs[n].parameters.value.decoded.value)] else []
  {
    var n := |configs| - 1;
    PartDecodes(configs[..n], driver, source);
    var p := Part(configs, source);
    if configs[n].source == source {
      assert p[..|p| - 1] == Part(configs[..n], source);
    }
  }

  lemma {:induction false} LastMatchOfPart(
      configs: seq<AllocConfig>, driver: string, source: Source, request: string, i: nat)
    requires AllDecode(configs, driver) && AllDecode(Part(configs, source), driver)
    requires LastApplying(configs, driver, source, request, i)
    ensures LastMatch(Decoded(Part(configs, source), driver), request) == configs[i].parameters.value.decoded
  {
    var n := |configs| - 1;
    PartStep(configs, driver, source);
    var d := Decoded(Part(configs, source), driver);
    if i < n {
      assert !Applies(configs[n], driver, source, request);
      LastMatchOfPart(configs[..n], driver, source, request, i);
      if configs[n].source == source && Own(configs[n], driver) {
        assert d[..|d| - 1] == Decoded(Part(configs[..n], source), driver);
      }
    }
  }

  /**
    Precedence. The configuration applied to a request is the last claim configuration that applies; when no
    claim configuration does, the last class configuration that does; and the default only when neither does.
  */
  lemma Precedence(configs: seq<AllocConfig>, driver: string, request: string, list: seq<DeviceConfig>, at: nat)
    requires Resolvable(configs, driver)
    requires AllDecode(Part(configs, FromClass) + Part(configs, FromClaim), driver)
    requires list == [DEFAULT_CONFIG] + Decoded(Part(configs, FromClass) + Part(configs, FromClaim), driver)
    requires ChosenAt(list, request, at)
    ensures forall i: nat :: LastApplying(configs, driver, FromClaim, request, i)
                             ==> Some(list[at].config) == configs[i].parameters.value.decoded
    ensures NoneApplies(configs, driver, FromClaim, request) ==>
              forall i: nat :: LastApplying(configs, driver, FromClass, request, i)
                               ==> Some(list[at].config) == configs[i].parameters.value.decoded
    ensures NoneApplies(configs, driver, FromClaim, request) && NoneApplies(configs, driver, FromClass, request)
            ==> list[at] == DEFAULT_CONFIG
  {
    var a, b := Part(configs, FromClass), Part(configs, FromClaim);
    PartDecodes(configs, driver, FromClass);
    PartDecodes(configs, driver, FromClaim);
    forall i: nat | LastApplying(configs, driver, FromClass, request, i)
      ensures LastMatch(Decoded(a, driver), request) == configs[i].parameters.value.decoded
    {
      LastMatchOfPart(configs, driver, FromClass, request, i);
    }
    forall i: nat | LastApplying(configs, driver, FromClaim, request, i)
      ensures LastMatch(Decoded(b, driver), request) == configs[i].parameters.value.decoded
    {
      LastMatchOfPart(configs, driver, FromClaim, request, i);
    }
    DecodedJoin(a, b, driver);
    var da, db := Decoded(a, driver), Decoded(b, driver);
    LastMatchOfJoin(da, db, request);
    LastMatchOfJoin([DEFAULT_CONFIG], da + db, request);
    LastMatchIsChosen(list, request, at);
    NoneMatches(configs, driver, FromClaim, request);
    NoneMatches(configs, driver, FromClass, request);
    if NoneApplies(configs, driver, FromClaim, request) && NoneApplies(configs, driver, FromClass, request) {
      NoLaterMatch(da + db, request);
      assert forall k :: 0 < k < |list| ==> list[k] == (da + db)[k - 1];
    }
  }

  lemma {:induction false} NoneMatches(configs: seq<AllocConfig>, driver: string, source: Source, request: string)
    requires AllDecode(configs, driver) && AllDecode(Part(configs, source), driver)
    ensures NoneApplies(configs, driver, source, request) ==>
              LastMatch(Decoded(Part(configs, source), driver), request) == None
  {
    if configs != [] && NoneApplies(configs, driver, source, request) {
      var n := |configs| - 1;
      PartStep(configs, driver, source);
      NoneMatches(configs[..n], driver, source, request);
      assert !Applies(configs[n], driver, source, request);
    }
  }

  lemma {:induction false} NoLaterMatch(configs: seq<DeviceConfig>, request: string)
    requires LastMatch(configs, request) == None
    ensures forall j :: 0 <= j < |configs| ==> !Matches(configs[j].requests, request)
  {
    if configs != [] {
      NoLaterMatch(configs[..|configs| - 1], request);
    }
  }
}
