/**
  The vNPU slice allocator on values: what each operation of the manager does to one card and to the set of
  cards, and what every run of them keeps. VnpuManager proves its methods against these definitions.
*/
module SliceModel {
  import opened Wrappers
  import opened Decimal
  import DeviceNames

  datatype Template = Template(name: string, aicore: int, memory: int)

  datatype SliceType = NPU | VNPU

  datatype Slice = Slice(id: string, template: string, inUse: bool, kind: SliceType)

  datatype Info = Info(deviceName: string, logicID: int, phyID: int, uuid: string, model: string)

  datatype Card = Card(
    info: Info,
    available: seq<Slice>,
    held: seq<Slice>,
    support: map<string, Template>,
    next: int)

  const MAX_INT32: int := 0x7FFF_FFFF

  /** The name of slice `k` of a card, and of the card itself when `k` is 0. */
  function SliceName(logicID: int, k: int): string {
    DeviceNames.PREFIX + Itoa(logicID) + "-" + Itoa(k)
  }

  lemma SliceNameInjective(logicID: int, k: nat, logicID': int, k': nat)
    requires SliceName(logicID, k) == SliceName(logicID', k')
    ensures logicID == logicID' && k == k'
  {
    DigitsHasNo(k, '-');
    DigitsHasNo(k', '-');
    var p, p' := DeviceNames.PREFIX + Itoa(logicID), DeviceNames.PREFIX + Itoa(logicID');
    DeviceNames.CutUnique(p, Itoa(k), p', Itoa(k'), '-');
    ItoaInjective(k, k');
    assert p[|DeviceNames.PREFIX|..] == Itoa(logicID) && p'[|DeviceNames.PREFIX|..] == Itoa(logicID');
    ItoaInjective(logicID, logicID');
  }

  function FullCardSlice(info: Info): Slice {
    Slice(info.deviceName, "", false, NPU)
  }

  /** The state InitPhysicalNPU builds. */
  function FreshCard(info: Info, templates: map<string, Template>): Card {
    Card(info, [FullCardSlice(info)], [], templates, 1)
  }

  function Remainder(c: Card): Slice {
    Slice(SliceName(c.info.logicID, c.next), "", false, VNPU)
  }

  /** What updateSupportTemplates leaves while some slice is allocated: the templates named "vir01...". */
  function Narrowed(templates: map<string, Template>): map<string, Template> {
    map n | n in templates && "vir01" <= n :: templates[n]
  }

  predicate Vir01(name: string) {
    |name| >= 5 && name[..5] == "vir01"
  }

  /** A template is supported exactly when its name starts with "vir01", and as the configuration has it. */
  ghost predicate OnlyVir01(templates: map<string, Template>, support: map<string, Template>) {
    (forall n :: n in support <==> n in templates && Vir01(n))
    && forall n :: n in support ==> support[n] == templates[n]
  }

  lemma NarrowedIsVir01(templates: map<string, Template>)
    ensures OnlyVir01(templates, Narrowed(templates))
  {
    forall n ensures "vir01" <= n <==> Vir01(n) {
      if Vir01(n) {
        assert n == "vir01" + n[5..];
      }
    }
  }

  // ---- Choosing a template ----

  predicate Fits(t: Template, cores: int, memory: int) {
    t.aicore >= cores && t.memory >= memory
  }

  function Excess(t: Template, cores: int, memory: int): int {
    (t.aicore - cores) + (t.memory - memory)
  }

  predicate Candidate(support: map<string, Template>, cores: int, memory: int, n: string) {
    n in support && Fits(support[n], cores, memory) && Excess(support[n], cores, memory) < MAX_INT32
  }

  ghost predicate BestFit(support: map<string, Template>, cores: int, memory: int, n: string) {
    Candidate(support, cores, memory, n)
    && forall m :: m in support && Fits(support[m], cores, memory)
                   ==> Excess(support[n], cores, memory) <= Excess(support[m], cores, memory)
  }

  ghost predicate NoFit(support: map<string, Template>, cores: int, memory: int) {
    forall n :: !Candidate(support, cores, memory, n)
  }

  /** A best fit exists exactly when some supported template fits with an excess below the limit. */
  lemma BestFitExists(support: map<string, Template>, cores: int, memory: int)
    ensures (exists n :: BestFit(support, cores, memory, n)) <==> !NoFit(support, cores, memory)
  {
    if n :| Candidate(support, cores, memory, n) {
      LeastExcess(support, cores, memory, n, Excess(support[n], cores, memory));
    }
  }

  lemma {:induction false} LeastExcess(support: map<string, Template>, cores: int, memory: int, n: string, bound: nat)
    requires Candidate(support, cores, memory, n) && Excess(support[n], cores, memory) <= bound
    ensures exists b :: BestFit(support, cores, memory, b)
    decreases bound
  {
    if !BestFit(support, cores, memory, n) {
      var m :| m in support && Fits(support[m], cores, memory)
               && Excess(support[m], cores, memory) < Excess(support[n], cores, memory);
      LeastExcess(support, cores, memory, m, bound - 1);
    }
  }

  /** Asking for exactly a supported template's attributes yields a template with exactly those attributes. */
  lemma ExactRequestIsExact(support: map<string, Template>, wanted: string, n: string)
    requires wanted in support
    requires BestFit(support, support[wanted].aicore, support[wanted].memory, n)
    ensures support[n].aicore == support[wanted].aicore && support[n].memory == support[wanted].memory
  {
    assert Excess(support[wanted], support[wanted].aicore, support[wanted].memory) == 0;
  }

  // ---- Operations on one card ----

  predicate OffersAt(c: Card, id: string, i: nat) {
    i < |c.available| && c.available[i].id == id && !c.available[i].inUse
  }

  predicate Offers(c: Card, id: string) {
    exists i :: 0 <= i < |c.available| && OffersAt(c, id, i)
  }

  function TakeFull(c: Card, i: nat): Card
    requires i < |c.available|
  {
    c.(available := c.available[..i] + c.available[i + 1..],
       held := c.held + [c.available[i].(inUse := true)])
  }

  function TakeByTemplate(c: Card, i: nat, template: string): Card
    requires i < |c.available|
  {
    c.(available := c.available[..i] + c.available[i + 1..] + [Remainder(c)],
       held := c.held + [Slice(c.available[i].id, template, true, VNPU)],
       next := c.next + 1)
  }

  predicate WholeCard(cores: int, memory: int) {
    cores == 0 && memory == 0
  }

  /** What AllocateSlice may do once it picked card `c`; ties between templates are open, as map order is. */
  ghost predicate Allocates(c: Card, id: string, cores: int, memory: int, c': Card, got: Option<Slice>) {
    match got
    case None =>
      c' == c && Offers(c, id) && !WholeCard(cores, memory) && NoFit(c.support, cores, memory)
    case Some(s) =>
      c'.held != [] && s == c'.held[|c'.held| - 1]
      && exists i :: 0 <= i < |c.available| && OffersAt(c, id, i)
                     && if WholeCard(cores, memory) then c' == TakeFull(c, i)
                        else TakesBestFit(c, i, cores, memory, c')
  }

  ghost predicate TakesBestFit(c: Card, i: nat, cores: int, memory: int, c': Card)
    requires i < |c.available|
  {
    exists n :: BestFit(c.support, cores, memory, n) && c' == TakeByTemplate(c, i, c.support[n].name)
  }

  function WithoutAt(s: seq<Slice>, j: nat): seq<Slice>
    requires j < |s|
  {
    s[..j] + s[j + 1..]
  }

  /** What ReleaseSlice does to the card holding the slice at position `j`. */
  function Released(templates: map<string, Template>, c: Card, j: nat): Card
    requires j < |c.held|
  {
    var rest := WithoutAt(c.held, j);
    if c.held[j].kind == NPU then Card(c.info, [FullCardSlice(c.info)], [], c.support, 1)
    else if rest == [] then FreshCard(c.info, templates)
    else Card(c.info, [Remainder(c)], rest, Narrowed(templates), c.next + 1)
  }

  // ---- The invariant of one card ----

  ghost predicate NamedBelow(info: Info, id: string, next: int) {
    exists k: nat :: k < next && id == SliceName(info.logicID, k)
  }

  predicate KnownTemplate(templates: map<string, Template>, name: string) {
    name == "" || exists n :: n in templates && templates[n].name == name
  }

  predicate DistinctIds(s: seq<Slice>) {
    forall i, j :: 0 <= i < j < |s| ==> s[i].id != s[j].id
  }

  /** Idle as InitPhysicalNPU built it, held whole by one slice that is the card, or split. */
  ghost predicate CardInv(templates: map<string, Template>, c: Card) {
    c.info.deviceName == SliceName(c.info.logicID, 0)
    && (c == FreshCard(c.info, templates) || HeldWhole(templates, c) || Split(templates, c))
  }

  ghost predicate HeldWhole(templates: map<string, Template>, c: Card) {
    c == Card(c.info, [], [FullCardSlice(c.info).(inUse := true)], templates, 1)
  }

  /** Every slice is a vNPU slice, flagged by the list it is in, with its own name below the next index. */
  ghost predicate Split(templates: map<string, Template>, c: Card) {
    && c.next >= 1
    && c.held != []
    && (forall i :: 0 <= i < |c.held| ==> HeldOk(templates, c, c.held[i]))
    && DistinctIds(c.held)
    && |c.available| <= 1
    && (c.available != [] ==> AvailableOk(c, c.available[0]))
    && (c.support == templates || c.support == Narrowed(templates))
  }

  ghost predicate HeldOk(templates: map<string, Template>, c: Card, s: Slice) {
    s.inUse && s.kind == VNPU && KnownTemplate(templates, s.template) && NamedBelow(c.info, s.id, c.next)
  }

  ghost predicate AvailableOk(c: Card, s: Slice) {
    s == Slice(s.id, "", false, VNPU) && NamedBelow(c.info, s.id, c.next) && s.id != c.info.deviceName
    && forall i :: 0 <= i < |c.held| ==> c.held[i].id != s.id
  }

  lemma NameBelow(info: Info, k: nat, next: int)
    requires k < next
    ensures NamedBelow(info, SliceName(info.logicID, k), next)
  {
  }

  /** A name the card has not reached yet is held by none of its slices, and the ones below stay below. */
  lemma NextNameIsNew(info: Info, id: string, next: nat)
    requires NamedBelow(info, id, next)
    ensures id != SliceName(info.logicID, next)
    ensures NamedBelow(info, id, next + 1)
  {
    var k: nat :| k < next && id == SliceName(info.logicID, k);
    if id == SliceName(info.logicID, next) {
      SliceNameInjective(info.logicID, k, info.logicID, next);
    }
    NameBelow(info, k, next + 1);
  }

  lemma RemainderIsNew(c: Card)
    requires c.info.deviceName == SliceName(c.info.logicID, 0) && c.next >= 1
    ensures Remainder(c).id != c.info.deviceName
    ensures NamedBelow(c.info, Remainder(c).id, c.next + 1)
  {
    NameBelow(c.info, c.next, c.next + 1);
    if Remainder(c).id == c.info.deviceName {
      SliceNameInjective(c.info.logicID, c.next, c.info.logicID, 0);
    }
  }

  lemma AllocateKeepsCardInv(
      templates: map<string, Template>, c: Card, id: string, cores: int, memory: int, c': Card, got: Option<Slice>)
    requires CardInv(templates, c) && Allocates(c, id, cores, memory, c', got)
    ensures CardInv(templates, c') && c'.info == c.info
  {
    if got.Some? {
      assert |c.available| == 1;
      if WholeCard(cores, memory) {
        assert c' == TakeFull(c, 0);
        TakeFullKeepsCardInv(templates, c);
      } else {
        assert TakesBestFit(c, 0, cores, memory, c');
        var n :| BestFit(c.support, cores, memory, n) && c' == TakeByTemplate(c, 0, c.support[n].name);
        assert n in templates && templates[n] == c.support[n];
        TakeByTemplateKeepsCardInv(templates, c, c.support[n].name);
      }
    }
  }

  lemma TakeFullKeepsCardInv(templates: map<string, Template>, c: Card)
    requires CardInv(templates, c) && |c.available| == 1
    ensures CardInv(templates, TakeFull(c, 0))
  {
    var c' := TakeFull(c, 0);
    assert c'.available == [];
    if c == FreshCard(c.info, templates) {
      assert c'.held == [FullCardSlice(c.info).(inUse := true)];
    } else {
      assert HeldOk(templates, c', c.available[0].(inUse := true));
      assert forall i :: 0 <= i < |c.held| ==> HeldOk(templates, c', c.held[i]);
      assert Split(templates, c');
    }
  }

  lemma TakeByTemplateKeepsCardInv(templates: map<string, Template>, c: Card, template: string)
    requires CardInv(templates, c) && |c.available| == 1 && KnownTemplate(templates, template)
    ensures CardInv(templates, TakeByTemplate(c, 0, template))
  {
    var c', s := TakeByTemplate(c, 0, template), c.available[0];
    assert c'.available == [Remainder(c)] && c'.held == c.held + [Slice(s.id, template, true, VNPU)];
    RemainderIsNew(c);
    if c == FreshCard(c.info, templates) {
      SplitFresh(templates, c, template);
    } else {
      SplitFurther(templates, c, c', template);
    }
  }

  lemma SplitFresh(templates: map<string, Template>, c: Card, template: string)
    requires c.info.deviceName == SliceName(c.info.logicID, 0) && c == FreshCard(c.info, templates)
    requires KnownTemplate(templates, template)
    ensures Split(templates, TakeByTemplate(c, 0, template))
  {
    var c' := TakeByTemplate(c, 0, template);
    NameBelow(c.info, 0, 2);
    RemainderIsNew(c);
    assert c'.held == [Slice(c.info.deviceName, template, true, VNPU)];
    assert HeldOk(templates, c', c'.held[0]);
    assert AvailableOk(c', c'.available[0]);
  }

  lemma SplitFurther(templates: map<string, Template>, c: Card, c': Card, template: string)
    requires Split(templates, c) && c.available != [] && KnownTemplate(templates, template)
    requires Remainder(c).id != c.info.deviceName && NamedBelow(c.info, Remainder(c).id, c.next + 1)
    requires c' == Card(c.info, [Remainder(c)], c.held + [Slice(c.available[0].id, template, true, VNPU)],
                        c.support, c.next + 1)
    ensures Split(templates, c')
  {
    var s := c.available[0];
    NextNameIsNew(c.info, s.id, c.next);
    forall i | 0 <= i < |c.held|
      ensures HeldOk(templates, c', c.held[i]) && c.held[i].id != Remainder(c).id && c.held[i].id != s.id
    {
      assert HeldOk(templates, c, c.held[i]);
      NextNameIsNew(c.info, c.held[i].id, c.next);
    }
    assert HeldOk(templates, c', c'.held[|c.held|]);
    assert AvailableOk(c', c'.available[0]);
  }

  lemma ReleaseKeepsCardInv(templates: map<string, Template>, c: Card, j: nat)
    requires CardInv(templates, c) && j < |c.held|
    ensures CardInv(templates, Released(templates, c, j)) && Released(templates, c, j).info == c.info
  {
    var c', rest := Released(templates, c, j), WithoutAt(c.held, j);
    if Split(templates, c) && rest != [] {
      assert HeldOk(templates, c, c.held[j]);
      assert c'.held == rest;
      RemainderIsNew(c);
      forall i | 0 <= i < |rest| ensures HeldOk(templates, c', rest[i]) && rest[i].id != Remainder(c).id {
        var at := if i < j then i else i + 1;
        assert rest[i] == c.held[at];
        assert HeldOk(templates, c, c.held[at]);
        NextNameIsNew(c.info, c.held[at].id, c.next);
      }
      assert Split(templates, c');
    } else if Split(templates, c) {
      assert HeldOk(templates, c, c.held[j]);
    }
  }

  /** The invariant in plain terms: at most one slice on offer, names distinct and below the next index. */
  lemma CardInvMeans(templates: map<string, Template>, c: Card)
    requires CardInv(templates, c)
    ensures |c.available| <= 1 && c.next >= 1
    ensures DistinctIds(c.available + c.held)
    ensures forall s :: s in c.available + c.held ==> NamedBelow(c.info, s.id, c.next)
    ensures forall s :: s in c.available ==> !s.inUse
    ensures forall s :: s in c.held ==> s.inUse && KnownTemplate(templates, s.template)
    ensures c.held == [] ==> c == FreshCard(c.info, templates)
    ensures forall s :: s in c.held && s.kind == NPU ==> c.available == [] && c.held == [s]
  {
    if !Split(templates, c) {
      var s := FullCardSlice(c.info);
      assert c.available + c.held == [if c.held == [] then s else s.(inUse := true)];
      NameBelow(c.info, 0, 1);
    }
  }

  // ---- What the invariant gives for one card ----

  /** The full-card reset on releasing an "NPU" slice drops no other holder and skips no narrowing. */
  lemma FullCardResetIsSafe(templates: map<string, Template>, c: Card, j: nat)
    requires CardInv(templates, c) && j < |c.held| && c.held[j].kind == NPU
    ensures WithoutAt(c.held, j) == []
    ensures Released(templates, c, j) == FreshCard(c.info, templates)
  {
    assert Split(templates, c) ==> HeldOk(templates, c, c.held[j]);
  }

  /** Allocating and releasing the slice just obtained gives back the allocated list; an idle card is restored whole. */
  lemma AllocateThenRelease(
      templates: map<string, Template>, c: Card, id: string, cores: int, memory: int, c': Card, got: Option<Slice>)
    requires CardInv(templates, c) && Allocates(c, id, cores, memory, c', got) && got.Some?
    ensures var back := Released(templates, c', |c'.held| - 1);
            back.held == c.held && (c.held == [] ==> back == c)
  {
    AllocateKeepsCardInv(templates, c, id, cores, memory, c', got);
  }

  ghost predicate ValidPicks(templates: map<string, Template>, c: Card, picks: seq<nat>)
    decreases |picks|
  {
    picks == [] || (picks[0] < |c.held| && ValidPicks(templates, Released(templates, c, picks[0]), picks[1..]))
  }

  ghost function ReleaseAll(templates: map<string, Template>, c: Card, picks: seq<nat>): Card
    requires ValidPicks(templates, c, picks)
    decreases |picks|
  {
    if picks == [] then c else ReleaseAll(templates, Released(templates, c, picks[0]), picks[1..])
  }

  /** Releasing every held slice, in any order, restores the state InitPhysicalNPU built. */
  lemma {:induction false} AnyReleaseOrderRestores(templates: map<string, Template>, c: Card, picks: seq<nat>)
    requires CardInv(templates, c) && ValidPicks(templates, c, picks) && |picks| == |c.held|
    ensures ReleaseAll(templates, c, picks) == FreshCard(c.info, templates)
    decreases |picks|
  {
    if picks != [] {
      ReleaseKeepsCardInv(templates, c, picks[0]);
      if c.held[picks[0]].kind == NPU {
        FullCardResetIsSafe(templates, c, picks[0]);
      }
      AnyReleaseOrderRestores(templates, Released(templates, c, picks[0]), picks[1..]);
    }
  }
}
