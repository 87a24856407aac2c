/**
  The declarative rule for one observation: the state of every prepared (claim, card) domain and the samples
  it may publish. Observe proves the two-pass loop of observeDomains against it (internal/monitor/monitor.go).
*/
module DomainRule {
  import opened Wrappers
  import opened Decimal
  import opened MonitorTypes
  import Shmem

  /** Unset is the empty string an observed domain starts with. */
  datatype State = Unset | Pending | Ready | Unmapped | Ambiguous | Invalid | Stale | Unsupported

  /** `domain` is the position in the observation's domain list that the source points to. */
  datatype Sample = Sample(desc: nat, value: real, labels: seq<string>, at: Option<Time>, domain: Option<nat>)

  datatype DomainObs = DomainObs(claimUID: string, generation: nat, state: State)

  datatype Observation = Observation(
    samples: seq<Sample>,
    domains: seq<DomainObs>,
    ok: map<string, bool>,
    last: map<string, Time>,
    at: Option<Time>)

  type MemoryRead = Result<Shmem.MemoryStats, Shmem.ReadError>

  /** Everything one call of observeDomains looks at. `files` holds what readMemory gives for each path. */
  datatype World = World(
    domains: seq<Domain>,
    workloads: map<string, seq<Consumer>>,
    workloadAt: Option<Time>,
    hosts: map<int, HostDevice>,
    hostAt: Option<Time>,
    files: map<string, MemoryRead>,
    shortFiles: map<string, Time>,
    now: Time,
    interval: Time,
    maxAge: Time,
    root: string)

  // ---- One domain on its own ----

  function Consumers(w: World, d: Domain): seq<Consumer> {
    if d.claimUID in w.workloads then w.workloads[d.claimUID] else []
  }

  predicate SameConsumer(a: Consumer, b: Consumer) {
    a.namespace == b.namespace && a.pod == b.pod && a.container == b.container
  }

  /** All references come from one container. */
  predicate OneConsumer(cs: seq<Consumer>) {
    cs != [] && forall k :: 0 <= k < |cs| ==> SameConsumer(cs[k], cs[0])
  }

  predicate Refers(cs: seq<Consumer>, r: DeviceRef) {
    exists k :: 0 <= k < |cs| && r in cs[k].devices
  }

  predicate HostMatches(w: World, d: Domain) {
    d.physicalID in w.hosts && w.hosts[d.physicalID].uuid == d.uuid && d.uuid != ""
  }

  /** The switch of the first pass; Unset means the domain becomes a row. */
  function Precheck(w: World, d: Domain): State {
    var cs := Consumers(w, d);
    if !d.supported then Unsupported
    else if !Within(w.now, w.workloadAt, w.maxAge) then Stale
    else if cs == [] then Unmapped
    else if !OneConsumer(cs) then Ambiguous
    else if !Refers(cs, DeviceRef(d.pool, d.device)) then Unmapped
    else if !HostMatches(w, d) then Stale
    else Unset
  }

  function Labels(w: World, d: Domain): seq<string>
    requires Consumers(w, d) != []
  {
    var c := Consumers(w, d)[0];
    [c.namespace, c.pod, c.container, Itoa(d.physicalID), d.uuid]
  }

  predicate ValidIdentity(d: Domain) {
    d.claimUID != "" && d.claimUID != "." && d.claimUID != ".." && '/' !in d.claimUID && '\\' !in d.claimUID
    && d.physicalID >= 0
  }

  function DomainPath(root: string, d: Domain): string {
    root + "/" + d.claimUID + "/vnpu_local_shmem.device-" + Itoa(d.physicalID)
  }

  function ReadOf(w: World, d: Domain): MemoryRead {
    if !ValidIdentity(d) then Err(Shmem.BadIdentity)
    else if DomainPath(w.root, d) in w.files then w.files[DomainPath(w.root, d)]
    else Err(Shmem.Pending)
  }

  /** When the current run of short reads of this path began. */
  function FirstShort(w: World, path: string): Time {
    if path in w.shortFiles then w.shortFiles[path] else w.now
  }

  function ReadState(w: World, d: Domain): State {
    match ReadOf(w, d)
    case Ok(_) => Ready
    case Err(Pending) => Pending
    case Err(Short) => if w.now - FirstShort(w, DomainPath(w.root, d)) < w.interval then Pending else Invalid
    case Err(_) => Invalid
  }

  // ---- All domains ----

  predicate SameDomain(a: Domain, b: Domain) {
    a.claimUID == b.claimUID && a.physicalID == b.physicalID
  }

  predicate Repeats(w: World, j: nat, i: nat)
    requires j < |w.domains| && i < |w.domains|
  {
    SameDomain(w.domains[j], w.domains[i])
  }

  /** Only the first domain of a claim on a card is observed. */
  predicate Kept(w: World, i: nat) {
    i < |w.domains| && forall j {:trigger Repeats(w, j, i)} :: 0 <= j < i ==> !Repeats(w, j, i)
  }

  predicate Row(w: World, i: nat) {
    Kept(w, i) && Precheck(w, w.domains[i]) == Unset
  }

  predicate SameLabels(w: World, i: nat, j: nat)
    requires Row(w, i) && Row(w, j)
  {
    Labels(w, w.domains[i]) == Labels(w, w.domains[j])
  }

  predicate Collides(w: World, i: nat)
    requires Row(w, i)
  {
    exists j {:trigger SameLabels(w, i, j)} :: 0 <= j < |w.domains| && j != i && Row(w, j) && SameLabels(w, i, j)
  }

  function RuleState(w: World, i: nat): State
    requires Kept(w, i)
  {
    if !Row(w, i) then Precheck(w, w.domains[i])
    else if Collides(w, i) then Ambiguous
    else ReadState(w, w.domains[i])
  }

  /** The domains observed are those whose claim and card no earlier domain of the snapshot has. */
  lemma KeptMeans(w: World, i: nat)
    ensures Kept(w, i) <==>
            i < |w.domains| && forall j :: 0 <= j < i ==>
              w.domains[j].claimUID != w.domains[i].claimUID || w.domains[j].physicalID != w.domains[i].physicalID
  {
    if i < |w.domains| {
      forall j | 0 <= j < i
        ensures Repeats(w, j, i) <==> w.domains[j].claimUID == w.domains[i].claimUID
                                      && w.domains[j].physicalID == w.domains[i].physicalID
      {
      }
    }
  }

  // ---- What each state means ----

  /** One container refers to this domain's device, by a fresh resolve, and the host reports its card. */
  predicate Observable(w: World, d: Domain) {
    && d.supported && w.workloadAt.Some? && w.now - w.workloadAt.value <= w.maxAge
    && d.claimUID in w.workloads && OneConsumer(w.workloads[d.claimUID])
    && Refers(w.workloads[d.claimUID], DeviceRef(d.pool, d.device))
    && d.physicalID in w.hosts && w.hosts[d.physicalID].uuid == d.uuid && d.uuid != ""
  }

  /** Another observable domain would have the same labels. */
  predicate ClashesWith(w: World, i: nat, j: nat)
    requires i < |w.domains| && j < |w.domains|
  {
    var d, e := w.domains[i], w.domains[j];
    && j != i && Kept(w, j) && Observable(w, d) && Observable(w, e)
    && SameConsumer(w.workloads[d.claimUID][0], w.workloads[e.claimUID][0])
    && d.physicalID == e.physicalID && d.uuid == e.uuid
  }

  predicate Clashes(w: World, i: nat)
    requires i < |w.domains|
  {
    exists j {:trigger ClashesWith(w, i, j)} :: 0 <= j < |w.domains| && ClashesWith(w, i, j)
  }

  lemma RowIsObservable(w: World, i: nat)
    requires Kept(w, i)
    ensures Row(w, i) <==> Observable(w, w.domains[i])
  {
  }

  lemma SameLabelsMean(w: World, i: nat, j: nat)
    requires Row(w, i) && Row(w, j) && i != j
    ensures SameLabels(w, i, j) <==> ClashesWith(w, i, j)
  {
    RowIsObservable(w, i);
    RowIsObservable(w, j);
    var a, b := Labels(w, w.domains[i]), Labels(w, w.domains[j]);
    assert a == b <==> a[0] == b[0] && a[1] == b[1] && a[2] == b[2] && a[3] == b[3] && a[4] == b[4];
    if Itoa(w.domains[i].physicalID) == Itoa(w.domains[j].physicalID) {
      ItoaInjective(w.domains[i].physicalID, w.domains[j].physicalID);
    }
  }

  lemma CollidesMeans(w: World, i: nat)
    requires Row(w, i)
    ensures Collides(w, i) <==> Clashes(w, i)
  {
    if j :| 0 <= j < |w.domains| && j != i && Row(w, j) && SameLabels(w, i, j) {
      SameLabelsMean(w, i, j);
    }
    if j :| 0 <= j < |w.domains| && ClashesWith(w, i, j) {
      RowIsObservable(w, j);
      SameLabelsMean(w, i, j);
    }
  }

  /** What reading the file of the claim and card gave: no path is built from a UID that could leave the root. */
  lemma ReadIsOfOwnFile(w: World, d: Domain)
    ensures var path := w.root + "/" + d.claimUID + "/vnpu_local_shmem.device-" + Itoa(d.physicalID);
            if d.claimUID in {"", ".", ".."} || '/' in d.claimUID || '\\' in d.claimUID || d.physicalID < 0 then
              ReadOf(w, d) == Err(Shmem.BadIdentity)
            else ReadOf(w, d) == if path in w.files then w.files[path] else Err(Shmem.Pending)
  {
  }

  /** The file of this domain could not be read yet, or is short since less than an interval. */
  predicate WaitsForFile(w: World, d: Domain) {
    var path := DomainPath(w.root, d);
    ReadOf(w, d) == Err(Shmem.Pending)
    || (ReadOf(w, d) == Err(Shmem.Short)
        && w.now - (if path in w.shortFiles then w.shortFiles[path] else w.now) < w.interval)
  }

  predicate HasResolve(w: World) {
    w.workloadAt.Some? && w.now - w.workloadAt.value <= w.maxAge
  }

  /** The only container that refers to the domain's claim refers to its device, too. */
  predicate OwnedByOne(w: World, d: Domain) {
    d.claimUID in w.workloads && OneConsumer(w.workloads[d.claimUID])
    && Refers(w.workloads[d.claimUID], DeviceRef(d.pool, d.device))
  }

  /**
    An unsupported domain is that and nothing else. A supported one is stale without a fresh resolve, or when its card
    is not the host's; unmapped without a consumer, or when the only one does not refer to its device; ambiguous with
    several consumers, or with the labels of another. An observable one is ready, pending or invalid by its file.
  */
  predicate Deserves(w: World, i: nat, state: State)
    requires i < |w.domains|
  {
    var d := w.domains[i];
    var cs := if d.claimUID in w.workloads then w.workloads[d.claimUID] else [];
    var file := Observable(w, d) && !Clashes(w, i);
    match state
    case Unset => false
    case Unsupported => !d.supported
    case Stale => d.supported && (!HasResolve(w) || (OwnedByOne(w, d) && !Observable(w, d)))
    case Unmapped => d.supported && HasResolve(w) && (cs == [] || (OneConsumer(cs) && !OwnedByOne(w, d)))
    case Ambiguous => d.supported && HasResolve(w) && cs != [] && (!OneConsumer(cs) || Clashes(w, i))
    case Ready => file && ReadOf(w, d).Ok?
    case Pending => file && WaitsForFile(w, d)
    case Invalid => file && ReadOf(w, d).Err? && !WaitsForFile(w, d)
  }

  /** Every observed domain has exactly the state it deserves. */
  lemma StateIff(w: World, i: nat, state: State)
    requires Kept(w, i)
    ensures RuleState(w, i) == state <==> Deserves(w, i, state)
  {
    RowIsObservable(w, i);
    if Row(w, i) {
      CollidesMeans(w, i);
    }
  }

  /** Every observed domain gets exactly one of the seven states. */
  lemma RuleStateIsSet(w: World, i: nat)
    requires Kept(w, i)
    ensures RuleState(w, i) != Unset
  {
  }

  /**
    A domain is ready exactly when it is supported, ownership is fresh, all its references come from one container
    that refers to the device, the host reports the same card, no other row has its labels, and the read worked.
  */
  lemma ReadyIff(w: World, i: nat)
    requires Kept(w, i)
    ensures RuleState(w, i) == Ready <==>
            && w.domains[i].supported
            && Within(w.now, w.workloadAt, w.maxAge)
            && OneConsumer(Consumers(w, w.domains[i]))
            && Refers(Consumers(w, w.domains[i]), DeviceRef(w.domains[i].pool, w.domains[i].device))
            && HostMatches(w, w.domains[i])
            && !Collides(w, i)
            && ReadOf(w, w.domains[i]).Ok?
  {
  }

  /** How many of the first `n` domains of the snapshot are observed: the position the next one takes. */
  function Position(w: World, n: nat): nat
    requires n <= |w.domains|
  {
    if n == 0 then 0 else Position(w, n - 1) + if Kept(w, n - 1) then 1 else 0
  }

  function ObsOf(d: Domain, state: State): DomainObs {
    DomainObs(d.claimUID, d.generation, state)
  }

  /** The observed domains among the first `n`, in snapshot order. */
  function SeenUpTo(w: World, n: nat): (seen: seq<DomainObs>)
    requires n <= |w.domains|
    ensures |seen| == Position(w, n)
  {
    if n == 0 then []
    else SeenUpTo(w, n - 1) + if Kept(w, n - 1) then [ObsOf(w.domains[n - 1], RuleState(w, n - 1))] else []
  }

  function DomainsSeen(w: World): seq<DomainObs> {
    SeenUpTo(w, |w.domains|)
  }

  // ---- Samples ----

  /** The six container metrics of a ready domain; utilization only when the host reading is valid. */
  function ReadySamples(w: World, d: Domain, stats: Shmem.MemoryStats, p: nat): seq<Sample>
    requires d.physicalID in w.hosts && Consumers(w, d) != []
  {
    var h, labels, at := w.hosts[d.physicalID], Labels(w, d), Some(w.now);
    [Sample(2, stats.used as real, labels, at, Some(p)), Sample(3, stats.limit as real, labels, at, Some(p))]
    + (if h.utilValid then [Sample(4, h.utilization, labels, w.hostAt, Some(p))] else [])
    + [Sample(5, 0.0, labels, at, Some(p)), Sample(6, 0.0, labels, at, Some(p)), Sample(7, 0.0, labels, at, Some(p))]
  }

  function SamplesOf(w: World, i: nat): seq<Sample>
    requires Kept(w, i)
  {
    if RuleState(w, i) == Ready then ReadySamples(w, w.domains[i], ReadOf(w, w.domains[i]).value, Position(w, i))
    else []
  }

  /** The container samples of the first `n` domains, in snapshot order. */
  function SamplesUpTo(w: World, n: nat): seq<Sample>
    requires n <= |w.domains|
  {
    if n == 0 then [] else SamplesUpTo(w, n - 1) + if Kept(w, n - 1) then SamplesOf(w, n - 1) else []
  }

  // ---- Short files ----

  /** Domain `i` is read in this call and its file is too short. */
  predicate ReadsShort(w: World, i: nat) {
    Row(w, i) && !Collides(w, i) && ReadOf(w, w.domains[i]) == Err(Shmem.Short)
  }

  predicate ReadsShortAt(w: World, i: nat, path: string) {
    ReadsShort(w, i) && path == DomainPath(w.root, w.domains[i])
  }

  /** The short files after the first `n` domains: the paths read short, each with the start of its run. */
  function ShortFilesUpTo(w: World, n: nat): map<string, Time>
    requires n <= |w.domains|
  {
    if n == 0 then map[]
    else if ReadsShort(w, n - 1) then
      var path := DomainPath(w.root, w.domains[n - 1]);
      ShortFilesUpTo(w, n - 1)[path := FirstShort(w, path)]
    else ShortFilesUpTo(w, n - 1)
  }

  lemma {:induction false} ShortFilesMean(w: World, n: nat, path: string)
    requires n <= |w.domains|
    ensures path in ShortFilesUpTo(w, n) <==> ShortBelow(w, n, path)
    ensures path in ShortFilesUpTo(w, n) ==> ShortFilesUpTo(w, n)[path] == FirstShort(w, path)
  {
    if n > 0 {
      ShortFilesMean(w, n - 1, path);
      ShortOneMore(w, n - 1, path);
    }
  }

  /** One of the first `n` domains reads this path short. */
  predicate ShortBelow(w: World, n: nat, path: string) {
    exists i :: 0 <= i < n && ReadsShortAt(w, i, path)
  }

  lemma ShortOneMore(w: World, n: nat, path: string)
    requires n < |w.domains|
    ensures ShortBelow(w, n + 1, path) <==> ShortBelow(w, n, path) || ReadsShortAt(w, n, path)
  {
  }

  /** This path is the file of an observable domain without a clash, and reading it was short. */
  predicate FoundShort(w: World, i: nat, path: string) {
    Kept(w, i) && Observable(w, w.domains[i]) && !Clashes(w, i) && ReadOf(w, w.domains[i]) == Err(Shmem.Short)
    && path == w.root + "/" + w.domains[i].claimUID + "/vnpu_local_shmem.device-" + Itoa(w.domains[i].physicalID)
  }

  /** What a round remembers: the paths it found short, each since it has been remembered, or since now. */
  lemma ShortFilesExactly(w: World, path: string)
    ensures var short := ShortFilesUpTo(w, |w.domains|);
            && (path in short <==> exists i :: 0 <= i < |w.domains| && FoundShort(w, i, path))
            && (path in short ==> short[path] == if path in w.shortFiles then w.shortFiles[path] else w.now)
  {
    ShortFilesMean(w, |w.domains|, path);
    forall i | 0 <= i < |w.domains| ensures ReadsShortAt(w, i, path) <==> FoundShort(w, i, path) {
      FoundShortMeans(w, i, path);
    }
  }

  lemma FoundShortMeans(w: World, i: nat, path: string)
    ensures ReadsShortAt(w, i, path) <==> FoundShort(w, i, path)
  {
    if Kept(w, i) {
      RowIsObservable(w, i);
      if Row(w, i) {
        CollidesMeans(w, i);
      }
    }
  }

  // ---- Invalid domains ----

  /** None of the first `n` domains is invalid. */
  predicate NoInvalid(w: World, n: nat)
    requires n <= |w.domains|
  {
    n == 0 || (NoInvalid(w, n - 1) && (Kept(w, n - 1) ==> RuleState(w, n - 1) != Invalid))
  }

  lemma {:induction false} NoInvalidMeans(w: World, n: nat)
    requires n <= |w.domains|
    ensures NoInvalid(w, n) <==> forall i :: 0 <= i < n && Kept(w, i) ==> RuleState(w, i) != Invalid
  {
    if n > 0 {
      NoInvalidMeans(w, n - 1);
    }
  }

  // ---- What the rule gives ----

  /** Two ready domains never share their labels, so no two container samples share metric and labels. */
  lemma ReadyLabelsDiffer(w: World, i: nat, j: nat)
    requires Kept(w, i) && Kept(w, j) && i != j
    requires RuleState(w, i) == Ready && RuleState(w, j) == Ready
    ensures Consumers(w, w.domains[i]) != [] && Consumers(w, w.domains[j]) != []
    ensures Labels(w, w.domains[i]) != Labels(w, w.domains[j])
  {
    assert SameLabels(w, i, j) <==> Labels(w, w.domains[i]) == Labels(w, w.domains[j]);
  }

  /** Domains with a valid identity read distinct files, unless they are the same domain. */
  lemma PathNamesDomain(root: string, d: Domain, e: Domain)
    requires ValidIdentity(d) && ValidIdentity(e) && DomainPath(root, d) == DomainPath(root, e)
    ensures SameDomain(d, e)
  {
    CutPath(root, d.claimUID, "/vnpu_local_shmem.device-", Itoa(d.physicalID), e.claimUID, Itoa(e.physicalID));
    ItoaInjective(d.physicalID, e.physicalID);
  }

  lemma CutPath(root: string, x: string, mid: string, s: string, y: string, t: string)
    requires '/' !in x && '/' !in y && mid != "" && mid[0] == '/'
    requires root + "/" + x + mid + s == root + "/" + y + mid + t
    ensures x == y && s == t
  {
    var head := root + "/";
    var a, b := x + mid + s, y + mid + t;
    assert root + "/" + x + mid + s == head + a && root + "/" + y + mid + t == head + b;
    assert (head + a)[|head|..] == a && (head + b)[|head|..] == b;
    CutAtSlash(x, mid, s, y, t);
  }

  lemma CutAtSlash(x: string, mid: string, s: string, y: string, t: string)
    requires '/' !in x && '/' !in y && mid != "" && mid[0] == '/' && x + mid + s == y + mid + t
    ensures x == y && s == t
  {
    var a, b := x + mid + s, y + mid + t;
    assert forall k :: 0 <= k < |x| ==> a[k] == x[k] && a[k] != '/';
    assert forall k :: 0 <= k < |y| ==> b[k] == y[k] && b[k] != '/';
    assert a[|x|] == '/' && b[|y|] == '/';
    assert |x| == |y|;
    assert x == a[..|x|] == y && s == a[|x| + |mid|..] == t;
  }
}
