/**
  All cards together with the table of allocatable devices: what one manager operation, with its device-update
  callback, and one publication do, and what every run of them keeps.
*/
module PlantModel {
  import opened Wrappers
  import opened SliceModel

  /** The attributes UpdateAllocatableDevice gives a device. */
  datatype Device = Device(name: string, info: Info, kind: SliceType, cores: int, memory: int)

  datatype Plant = Plant(templates: map<string, Template>, cards: map<string, Card>, table: map<string, Device>)

  // ---- Names ----

  predicate Carries(c: Card, id: string) {
    (exists i :: 0 <= i < |c.available| && c.available[i].id == id) || Holds(c, id)
  }

  predicate HoldsAt(c: Card, id: string, j: nat) {
    j < |c.held| && c.held[j].id == id
  }

  predicate Holds(c: Card, id: string) {
    exists j :: 0 <= j < |c.held| && HoldsAt(c, id, j)
  }

  /** Some card carries a slice of this name, available or allocated. */
  predicate Live(p: Plant, id: string) {
    exists n :: n in p.cards && Carries(p.cards[n], id)
  }

  predicate Published(p: Plant, id: string) {
    id in p.table
  }

  ghost predicate PublishedIsLive(p: Plant) {
    forall id :: Published(p, id) <==> Live(p, id)
  }

  // ---- The largest attributes among the supported templates ----

  predicate IsMaxCores(support: map<string, Template>, v: int) {
    (forall n :: n in support ==> support[n].aicore <= v)
    && v >= 0 && (v == 0 || exists n :: n in support && support[n].aicore == v)
  }

  predicate IsMaxMemory(support: map<string, Template>, v: int) {
    (forall n :: n in support ==> support[n].memory <= v)
    && v >= 0 && (v == 0 || exists n :: n in support && support[n].memory == v)
  }

  predicate Describes(d: Device, id: string, info: Info, support: map<string, Template>) {
    d.name == id && d.info == info && d.kind == VNPU
    && IsMaxCores(support, d.cores) && IsMaxMemory(support, d.memory)
  }

  /** The callback for a newly made vNPU slice: an entry already there stays as it is. */
  predicate Adds(
      t: map<string, Device>, id: string, info: Info, support: map<string, Template>, t': map<string, Device>)
  {
    if id in t then t' == t
    else id in t' && t' == t[id := t'[id]] && Describes(t'[id], id, info, support)
  }

  // ---- Operations ----

  datatype Op =
    | Discover(info: Info, device: Device)
    | Allocate(id: string, cores: int, memory: int)
    | Release(id: string)
    | Sync

  ghost predicate DiscoverStep(p: Plant, info: Info, device: Device, p': Plant) {
    info.deviceName == SliceName(info.logicID, 0)
    && p' == Plant(p.templates,
                   if info.deviceName in p.cards then p.cards
                   else p.cards[info.deviceName := FreshCard(info, p.templates)],
                   p.table[info.deviceName := device])
  }

  /** One card and the table, before and after an allocation on that card. */
  ghost predicate AllocatesCard(
      c: Card, t: map<string, Device>, id: string, cores: int, memory: int, c': Card, t': map<string, Device>,
      got: Option<Slice>)
  {
    Offers(c, id) && Allocates(c, id, cores, memory, c', got)
    && (if c'.next == c.next then t' == t else Adds(t, Remainder(c).id, c.info, c.support, t'))
  }

  ghost predicate AllocatesOn(p: Plant, n: string, id: string, cores: int, memory: int, p': Plant, got: Option<Slice>) {
    n in p.cards && n in p'.cards && p'.templates == p.templates && p'.cards == p.cards[n := p'.cards[n]]
    && AllocatesCard(p.cards[n], p.table, id, cores, memory, p'.cards[n], p'.table, got)
  }

  predicate NoneOffers(p: Plant, id: string) {
    forall n :: n in p.cards ==> !Offers(p.cards[n], id)
  }

  predicate NoneHolds(p: Plant, id: string) {
    forall n :: n in p.cards ==> !Holds(p.cards[n], id)
  }

  ghost predicate AllocateStep(p: Plant, id: string, cores: int, memory: int, p': Plant, got: Option<Slice>) {
    (NoneOffers(p, id) && p' == p && got == None) || exists n :: AllocatesOn(p, n, id, cores, memory, p', got)
  }

  lemma NothingAllocated(p: Plant, id: string, cores: int, memory: int)
    requires NoneOffers(p, id)
    ensures AllocateStep(p, id, cores, memory, p, None)
  {
  }

  /** The plant step from what a method did to one card and the table. */
  lemma AllocatedOn(p: Plant, n: string, id: string, cores: int, memory: int, p': Plant, c': Card, got: Option<Slice>)
    requires n in p.cards && p'.templates == p.templates && p'.cards == p.cards[n := c']
    requires AllocatesCard(p.cards[n], p.table, id, cores, memory, c', p'.table, got)
    ensures AllocatesOn(p, n, id, cores, memory, p', got)
  {
  }

  /** One card and the table, before and after releasing the slice at `j`. */
  ghost predicate ReleasesCard(
      templates: map<string, Template>, c: Card, t: map<string, Device>, j: nat, c': Card, t': map<string, Device>)
  {
    j < |c.held| && c' == Released(templates, c, j)
    // The callback runs before the templates are narrowed, so it still sees the old ones.
    && (if c.held[j].kind == NPU || |c.held| == 1 then t' == t else Adds(t, Remainder(c).id, c.info, c.support, t'))
  }

  ghost predicate ReleasesOn(p: Plant, n: string, j: nat, id: string, p': Plant) {
    n in p.cards && n in p'.cards && p'.templates == p.templates && p'.cards == p.cards[n := p'.cards[n]]
    && HoldsAt(p.cards[n], id, j)
    && ReleasesCard(p.templates, p.cards[n], p.table, j, p'.cards[n], p'.table)
  }

  lemma ReleasedOn(p: Plant, n: string, j: nat, id: string, p': Plant, c': Card)
    requires n in p.cards && p'.templates == p.templates && p'.cards == p.cards[n := c']
    requires HoldsAt(p.cards[n], id, j) && ReleasesCard(p.templates, p.cards[n], p.table, j, c', p'.table)
    ensures ReleasesOn(p, n, j, id, p')
  {
  }

  ghost predicate ReleaseStep(p: Plant, id: string, p': Plant, ok: bool) {
    (!ok && NoneHolds(p, id) && p' == p) || (ok && exists n, j :: ReleasesOn(p, n, j, id, p'))
  }

  /** syncAllocatable: drop every entry that names no live slice, then publish what is left. */
  function Synced(p: Plant): Plant {
    p.(table := map id | id in p.table && Live(p, id) :: p.table[id])
  }

  ghost predicate Step(p: Plant, op: Op, p': Plant) {
    match op
    case Discover(info, device) => DiscoverStep(p, info, device, p')
    case Allocate(id, cores, memory) => exists got :: AllocateStep(p, id, cores, memory, p', got)
    case Release(id) => exists ok :: ReleaseStep(p, id, p', ok)
    case Sync => p' == Synced(p)
  }

  ghost predicate Run(ps: seq<Plant>, ops: seq<Op>) {
    |ps| == |ops| + 1
    && ps[0].cards == map[] && ps[0].table == map[]
    && forall k :: 0 <= k < |ops| ==> Step(ps[k], ops[k], ps[k + 1])
  }

  // ---- The invariant of every run ----

  ghost predicate CardAt(p: Plant, n: string) {
    n in p.cards && p.cards[n].info.deviceName == n && CardInv(p.templates, p.cards[n])
  }

  /** Every live slice with an index of 1 or more is in the table; the card's own name need not be. */
  ghost predicate SlicesPublished(p: Plant) {
    forall n, id :: n in p.cards && Carries(p.cards[n], id) && id != n ==> Published(p, id)
  }

  ghost predicate PlantInv(p: Plant) {
    (forall n :: n in p.cards ==> CardAt(p, n)) && SlicesPublished(p)
  }

  lemma CarriedName(p: Plant, n: string, id: string) returns (k: nat)
    requires PlantInv(p) && n in p.cards && Carries(p.cards[n], id)
    ensures id == SliceName(p.cards[n].info.logicID, k) && k < p.cards[n].next
  {
    var c := p.cards[n];
    assert CardAt(p, n);
    CardInvMeans(p.templates, c);
    var s :| s in c.available + c.held && s.id == id;
    assert NamedBelow(c.info, s.id, c.next);
    k :| k < c.next && id == SliceName(c.info.logicID, k);
  }

  /**
    A slice name is carried by at most one card, so the two lookups that walk the cards in map order find
    the same card in every order.
  */
  lemma OwnerIsUnique(p: Plant, n: string, m: string, id: string)
    requires PlantInv(p) && n in p.cards && m in p.cards
    requires Carries(p.cards[n], id) && Carries(p.cards[m], id)
    ensures n == m
  {
    var k := CarriedName(p, n, id);
    var k' := CarriedName(p, m, id);
    SliceNameInjective(p.cards[n].info.logicID, k, p.cards[m].info.logicID, k');
    assert CardAt(p, n) && CardAt(p, m);
  }

  /** Within its card a held name has one position, and it is not on offer. */
  lemma PositionIsUnique(p: Plant, n: string, id: string, i: nat, j: nat)
    requires PlantInv(p) && n in p.cards && HoldsAt(p.cards[n], id, i)
    ensures HoldsAt(p.cards[n], id, j) ==> i == j
    ensures !Offers(p.cards[n], id)
  {
    assert CardAt(p, n);
  }

  /** The callback has one result. */
  lemma AddsOnce(
      t: map<string, Device>, id: string, info: Info, support: map<string, Template>, t1: map<string, Device>,
      t2: map<string, Device>)
    requires Adds(t, id, info, support, t1) && Adds(t, id, info, support, t2)
    ensures t1 == t2
  {
  }

  /** Releasing is deterministic although the cards are walked in map order. */
  lemma ReleaseIsDeterministic(p: Plant, id: string, n: string, i: nat, p1: Plant, m: string, j: nat, p2: Plant)
    requires PlantInv(p) && ReleasesOn(p, n, i, id, p1) && ReleasesOn(p, m, j, id, p2)
    ensures n == m && i == j && p1 == p2
  {
    assert Carries(p.cards[n], id) && Carries(p.cards[m], id);
    OwnerIsUnique(p, n, m, id);
    PositionIsUnique(p, n, id, i, j);
    var c := p.cards[n];
    if c.held[i].kind != NPU && |c.held| != 1 {
      AddsOnce(p.table, Remainder(c).id, c.info, c.support, p1.table, p2.table);
    }
  }

  // ---- Which names an operation leaves on a card ----

  lemma AllocateNames(
      templates: map<string, Template>, c: Card, id: string, cores: int, memory: int, c': Card, got: Option<Slice>)
    requires CardInv(templates, c) && Allocates(c, id, cores, memory, c', got)
    ensures forall x :: Carries(c', x) <==> Carries(c, x) || (c'.next != c.next && x == Remainder(c).id)
  {
    if got.Some? {
      CardInvMeans(templates, c);
      var s := c.available[0];
      assert c'.held == c.held + [c'.held[|c.held|]] && c'.held[|c.held|].id == s.id;
      assert c'.available == if c'.next != c.next then [Remainder(c)] else [];
      MovedNames(c, s, c');
    }
  }

  lemma MovedNames(c: Card, s: Slice, c': Card)
    requires c.available == [s] && |c'.held| == |c.held| + 1
    requires c'.held[..|c.held|] == c.held && c'.held[|c.held|].id == s.id
    requires c'.available == if c'.next != c.next then [Remainder(c)] else []
    ensures forall x :: Carries(c', x) <==> Carries(c, x) || (c'.next != c.next && x == Remainder(c).id)
  {
    forall x ensures Holds(c', x) <==> Holds(c, x) || x == s.id {
      if Holds(c, x) {
        var j :| 0 <= j < |c.held| && HoldsAt(c, x, j);
        assert HoldsAt(c', x, j);
      }
      if Holds(c', x) {
        var j :| 0 <= j < |c'.held| && HoldsAt(c', x, j);
        assert j < |c.held| ==> c'.held[j] == c.held[j] && HoldsAt(c, x, j);
      }
      assert x == s.id ==> HoldsAt(c', x, |c.held|);
    }
    assert c.available[0].id == s.id;
    assert c'.next != c.next ==> c'.available[0].id == Remainder(c).id;
  }

  lemma ReleaseNames(templates: map<string, Template>, c: Card, j: nat)
    requires CardInv(templates, c) && j < |c.held|
    ensures c.held[j].kind == NPU ==> |c.held| == 1
    ensures var c' := Released(templates, c, j);
            if |c.held| == 1 then forall x :: Carries(c', x) <==> x == c.info.deviceName
            else forall x :: Carries(c', x) <==> x == Remainder(c).id || (Holds(c, x) && x != c.held[j].id)
  {
    CardInvMeans(templates, c);
    if |c.held| == 1 {
      assert WithoutAt(c.held, j) == [];
      assert Released(templates, c, j).available[0].id == c.info.deviceName;
    } else {
      assert c.held[j] in c.held;
      SplitReleaseNames(c, j, Released(templates, c, j));
    }
  }

  lemma SplitReleaseNames(c: Card, j: nat, c': Card)
    requires j < |c.held| && forall k :: 0 <= k < |c.held| && c.held[k].id == c.held[j].id ==> k == j
    requires c'.held == WithoutAt(c.held, j) && c'.available == [Remainder(c)]
    ensures forall x :: Carries(c', x) <==> x == Remainder(c).id || (Holds(c, x) && x != c.held[j].id)
  {
    assert c'.available[0].id == Remainder(c).id;
    forall x ensures Holds(c', x) <==> Holds(c, x) && x != c.held[j].id {
      HeldWithout(c, j, c', x);
    }
  }

  lemma HeldWithout(c: Card, j: nat, c': Card, x: string)
    requires j < |c.held| && c'.held == WithoutAt(c.held, j)
    requires forall k :: 0 <= k < |c.held| && HoldsAt(c, c.held[j].id, k) ==> k == j
    ensures Holds(c', x) <==> Holds(c, x) && x != c.held[j].id
  {
    if Holds(c', x) {
      var k :| 0 <= k < |c'.held| && HoldsAt(c', x, k);
      var at := if k < j then k else k + 1;
      assert HoldsAt(c, x, at) && at != j;
    }
    if Holds(c, x) && x != c.held[j].id {
      var k :| 0 <= k < |c.held| && HoldsAt(c, x, k);
      assert HoldsAt(c', x, if k < j then k else k - 1);
    }
  }

  // ---- Every step keeps the invariant ----

  lemma DiscoverKeeps(p: Plant, info: Info, device: Device, p': Plant)
    requires PlantInv(p) && DiscoverStep(p, info, device, p')
    ensures PlantInv(p')
  {
    forall n | n in p'.cards ensures CardAt(p', n) {
      assert n in p.cards ==> CardAt(p, n);
    }
    forall n, id | n in p'.cards && Carries(p'.cards[n], id) && id != n ensures Published(p', id) {
      assert n in p.cards ==> Published(p, id);
    }
  }

  lemma AllocateKeeps(p: Plant, n: string, id: string, cores: int, memory: int, p': Plant, got: Option<Slice>)
    requires PlantInv(p) && AllocatesOn(p, n, id, cores, memory, p', got)
    ensures PlantInv(p')
  {
    var c, c' := p.cards[n], p'.cards[n];
    assert CardAt(p, n);
    AllocateKeepsCardInv(p.templates, c, id, cores, memory, c', got);
    AllocateNames(p.templates, c, id, cores, memory, c', got);
    forall m | m in p'.cards ensures CardAt(p', m) {
      assert CardAt(p, m);
    }
    AllocatePublishes(p, n, id, cores, memory, p', got);
  }

  /** A new remainder is published by the callback; every other name was before. */
  lemma AllocatePublishes(p: Plant, n: string, id: string, cores: int, memory: int, p': Plant, got: Option<Slice>)
    requires SlicesPublished(p) && AllocatesOn(p, n, id, cores, memory, p', got)
    requires forall x :: Carries(p'.cards[n], x) ==>
             Carries(p.cards[n], x) || (p'.cards[n].next != p.cards[n].next && x == Remainder(p.cards[n]).id)
    ensures SlicesPublished(p')
  {
    forall m, x | m in p'.cards && Carries(p'.cards[m], x) && x != m ensures Published(p', x) {
      assert Carries(p.cards[m], x) ==> Published(p, x);
    }
  }

  lemma ReleaseKeeps(p: Plant, n: string, j: nat, id: string, p': Plant)
    requires PlantInv(p) && ReleasesOn(p, n, j, id, p')
    ensures PlantInv(p')
  {
    var c := p.cards[n];
    assert CardAt(p, n);
    ReleaseKeepsCardInv(p.templates, c, j);
    ReleaseNames(p.templates, c, j);
    forall m | m in p'.cards ensures CardAt(p', m) {
      assert CardAt(p, m);
    }
    forall m, x | m in p'.cards && Carries(p'.cards[m], x) && x != m ensures Published(p', x) {
      assert Carries(p.cards[m], x) ==> Published(p, x);
    }
  }

  lemma SyncKeeps(p: Plant)
    requires PlantInv(p)
    ensures PlantInv(Synced(p))
    ensures forall id :: Published(Synced(p), id) <==> Published(p, id) && Live(p, id)
    ensures forall id :: Published(Synced(p), id) ==> Synced(p).table[id] == p.table[id]
  {
    var p' := Synced(p);
    forall n | n in p'.cards ensures CardAt(p', n) {
      assert CardAt(p, n);
    }
    forall n, id | n in p'.cards && Carries(p'.cards[n], id) && id != n ensures Published(p', id) {
      assert Published(p, id);
    }
  }

  lemma StepKeeps(p: Plant, op: Op, p': Plant)
    requires PlantInv(p) && Step(p, op, p')
    ensures PlantInv(p')
  {
    match op
    case Discover(info, device) => DiscoverKeeps(p, info, device, p');
    case Allocate(id, cores, memory) =>
      var got :| AllocateStep(p, id, cores, memory, p', got);
      if p' != p {
        var n :| AllocatesOn(p, n, id, cores, memory, p', got);
        AllocateKeeps(p, n, id, cores, memory, p', got);
      }
    case Release(id) =>
      var ok :| ReleaseStep(p, id, p', ok);
      if ok {
        var n, j :| ReleasesOn(p, n, j, id, p');
        ReleaseKeeps(p, n, j, id, p');
      }
    case Sync => SyncKeeps(p);
  }

  /** The allocator invariant and the publication of every split slice hold in every state of every run. */
  lemma {:induction false} RunKeeps(ps: seq<Plant>, ops: seq<Op>, k: nat)
    requires Run(ps, ops) && k < |ps|
    ensures PlantInv(ps[k])
  {
    if k == 0 {
      EmptyKeeps(ps[0]);
    } else {
      RunKeeps(ps, ops, k - 1);
      EveryStepKeeps();
      assert ops[k - 1] in ops;
    }
  }

  lemma EveryStepKeeps()
    ensures forall p, op, p' :: PlantInv(p) && Step(p, op, p') ==> PlantInv(p')
  {
    forall p, op, p' | PlantInv(p) && Step(p, op, p') ensures PlantInv(p') {
      StepKeeps(p, op, p');
    }
  }

  lemma EmptyKeeps(p: Plant)
    requires p.cards == map[] && p.table == map[]
    ensures PlantInv(p)
  {
  }

  /** Canonical idle state over runs: a card nobody holds is exactly the one InitPhysicalNPU built. */
  lemma IdleCardIsFresh(ps: seq<Plant>, ops: seq<Op>, k: nat, n: string)
    requires Run(ps, ops) && k < |ps| && n in ps[k].cards && ps[k].cards[n].held == []
    ensures ps[k].cards[n] == FreshCard(ps[k].cards[n].info, ps[k].templates)
    ensures ps[k].cards[n].info.deviceName == n
    ensures ps[k].cards[n].available == [Slice(n, "", false, NPU)]
    ensures ps[k].cards[n].support == ps[k].templates && ps[k].cards[n].next == 1
  {
    RunKeeps(ps, ops, k);
    assert CardAt(ps[k], n);
    CardInvMeans(ps[k].templates, ps[k].cards[n]);
  }

  // ---- When the published names are exactly the live ones ----

  /** Allocating and publishing keeps the published names equal to the live ones. */
  lemma AllocateThenSyncPublishesLive(
      p: Plant, n: string, id: string, cores: int, memory: int, p': Plant, got: Option<Slice>)
    requires PlantInv(p) && PublishedIsLive(p) && AllocatesOn(p, n, id, cores, memory, p', got)
    ensures PublishedIsLive(Synced(p'))
  {
    assert CardAt(p, n);
    AllocateNames(p.templates, p.cards[n], id, cores, memory, p'.cards[n], got);
    forall x | Live(p', x) ensures Published(p', x) {
      var m :| m in p'.cards && Carries(p'.cards[m], x);
      if Carries(p.cards[m], x) {
        assert Live(p, x) && Published(p, x);
      }
    }
    SyncedPublishes(p');
  }

  lemma SyncedPublishes(p: Plant)
    ensures PublishedIsLive(Synced(p)) <==> forall x :: Live(p, x) ==> Published(p, x)
  {
    var q := Synced(p);
    assert forall x :: Live(q, x) <==> Live(p, x);
    assert forall x :: Published(q, x) <==> Published(p, x) && Live(p, x);
  }

  /**
    Releasing and publishing keeps them equal except in one case: the slice released is the last one held on
    its card and is not the one named after the card. The reset then makes the card's own name live again
    without telling the table, and an earlier publication has dropped that name.
  */
  lemma ReleaseThenSyncPublishesLive(p: Plant, n: string, j: nat, id: string, p': Plant)
    requires PlantInv(p) && PublishedIsLive(p) && ReleasesOn(p, n, j, id, p')
    ensures PublishedIsLive(Synced(p')) <==> !(|p.cards[n].held| == 1 && id != n)
  {
    SyncedPublishes(p');
    forall x | Live(p', x) && x != n ensures Published(p', x) {
      OthersStayPublished(p, n, j, id, p', x);
    }
    if |p.cards[n].held| == 1 {
      LastReleasePublishes(p, n, j, id, p');
    } else if Live(p', n) {
      OwnNameStaysPublished(p, n, j, id, p');
    }
  }

  /** Every name but the card's own that is live after the release is in the table. */
  lemma OthersStayPublished(p: Plant, n: string, j: nat, id: string, p': Plant, x: string)
    requires PlantInv(p) && PublishedIsLive(p) && ReleasesOn(p, n, j, id, p') && Live(p', x) && x != n
    ensures Published(p', x)
  {
    assert CardAt(p, n);
    ReleaseNames(p.templates, p.cards[n], j);
    var m :| m in p'.cards && Carries(p'.cards[m], x);
    if m != n || Carries(p.cards[n], x) {
      assert Live(p, x) && Published(p, x);
    }
  }

  /** After the last release the card is on offer under its own name, which is published if it was the one released. */
  lemma LastReleasePublishes(p: Plant, n: string, j: nat, id: string, p': Plant)
    requires PlantInv(p) && PublishedIsLive(p) && ReleasesOn(p, n, j, id, p') && |p.cards[n].held| == 1
    ensures Live(p', n) && (Published(p', n) <==> id == n)
  {
    assert CardAt(p, n);
    ReleaseNames(p.templates, p.cards[n], j);
    CardNameLive(p, n);
    assert Live(p', n) by { assert Carries(p'.cards[n], n); }
  }

  /** A card's own name that is still live after a release was held before and stays in the table. */
  lemma OwnNameStaysPublished(p: Plant, n: string, j: nat, id: string, p': Plant)
    requires PlantInv(p) && PublishedIsLive(p) && ReleasesOn(p, n, j, id, p') && |p.cards[n].held| > 1 && Live(p', n)
    ensures Published(p', n)
  {
    var c := p.cards[n];
    assert CardAt(p, n);
    ReleaseNames(p.templates, c, j);
    var m :| m in p'.cards && Carries(p'.cards[m], n);
    RemainderIsNew(c);
    CardInvMeans(p.templates, c);
    assert Carries(p.cards[m], n);
    assert Live(p, n) && Published(p, n);
  }

  /** A card's own name is carried by no other card. */
  lemma CardNameStaysHome(p: Plant, m: string, n: string)
    requires PlantInv(p) && n in p.cards && m in p.cards && Carries(p.cards[m], n)
    ensures m == n
  {
    var k := CarriedName(p, m, n);
    assert CardAt(p, m) && CardAt(p, n);
    SliceNameInjective(p.cards[m].info.logicID, k, p.cards[n].info.logicID, 0);
  }

  /** While a card is held, its own name is live exactly when one of its held slices has it. */
  lemma CardNameLive(p: Plant, n: string)
    requires PlantInv(p) && n in p.cards && p.cards[n].held != []
    ensures Live(p, n) <==> Holds(p.cards[n], n)
  {
    var c := p.cards[n];
    assert CardAt(p, n);
    if Live(p, n) {
      var m :| m in p.cards && Carries(p.cards[m], n);
      CardNameStaysHome(p, m, n);
    }
    if Holds(c, n) {
      assert Carries(c, n);
    }
  }

  // ---- A hidden card stays hidden ----

  predicate Discovers(op: Op, n: string) {
    op.Discover? && op.info.deviceName == n
  }

  /** The callback only ever adds names with an index of 1 or more. */
  lemma AddsOtherName(p: Plant, m: string, n: string, t: map<string, Device>)
    requires PlantInv(p) && m in p.cards && n in p.cards && n !in p.table
    requires Adds(p.table, Remainder(p.cards[m]).id, p.cards[m].info, p.cards[m].support, t)
    ensures n !in t
  {
    var c, d := p.cards[m], p.cards[n];
    assert CardAt(p, m) && CardAt(p, n);
    CardInvMeans(p.templates, c);
    if Remainder(c).id == n {
      SliceNameInjective(c.info.logicID, c.next, d.info.logicID, 0);
    }
  }

  lemma StepHides(p: Plant, op: Op, p': Plant, n: string)
    requires PlantInv(p) && Step(p, op, p') && n in p.cards && !Published(p, n) && !Discovers(op, n)
    ensures n in p'.cards && !Published(p', n)
  {
    match op
    case Discover(info, device) =>
    case Allocate(id, cores, memory) =>
      var got :| AllocateStep(p, id, cores, memory, p', got);
      if p' != p {
        var m :| AllocatesOn(p, m, id, cores, memory, p', got);
        if p'.cards[m].next != p.cards[m].next {
          AddsOtherName(p, m, n, p'.table);
        }
      }
    case Release(id) =>
      var ok :| ReleaseStep(p, id, p', ok);
      if ok {
        var m, j :| ReleasesOn(p, m, j, id, p');
        if p'.table != p.table {
          AddsOtherName(p, m, n, p'.table);
        }
      }
    case Sync =>
  }

  /** Over every run, a card whose own name is not in the table gets it back only by being discovered again. */
  lemma {:induction false} HiddenStaysHidden(ps: seq<Plant>, ops: seq<Op>, i: nat, j: nat, n: string)
    requires Run(ps, ops) && i <= j < |ps| && n in ps[i].cards && !Published(ps[i], n)
    requires forall k :: i <= k < j ==> !Discovers(ops[k], n)
    ensures n in ps[j].cards && !Published(ps[j], n)
  {
    if i < j {
      HiddenStaysHidden(ps, ops, i, j - 1, n);
      RunKeeps(ps, ops, j - 1);
      EveryStepHides(n);
      assert !Discovers(ops[j - 1], n);
    }
  }

  lemma EveryStepHides(n: string)
    ensures forall p, op, p' :: PlantInv(p) && Step(p, op, p') && n in p.cards && !Published(p, n) && !Discovers(op, n)
                                ==> n in p'.cards && !Published(p', n)
  {
    forall p, op, p' | PlantInv(p) && Step(p, op, p') && n in p.cards && !Published(p, n) && !Discovers(op, n)
      ensures n in p'.cards && !Published(p', n)
    {
      StepHides(p, op, p', n);
    }
  }

  // ---- A run that hides a card ----

  const T1: map<string, Template> := map["vir01" := Template("vir01", 4, 8)]
  const CARD0 := Info(SliceName(0, 0), 0, 0, "uuid", "model")

  function SliceDevice(k: nat): Device {
    Device(SliceName(0, k), CARD0, VNPU, 4, 8)
  }

  lemma TakeStep(p: Plant, c: Card)
    requires p.templates == T1 && p.cards == map[CARD0.deviceName := c]
    requires c.info == CARD0 && c.support == T1 && c.next >= 1
    requires |c.available| == 1 && !c.available[0].inUse
    requires SliceName(0, c.next) !in p.table
    ensures var p' := Plant(T1, map[CARD0.deviceName := TakeByTemplate(c, 0, "vir01")],
                            p.table[SliceName(0, c.next) := SliceDevice(c.next)]);
            Step(p, Allocate(c.available[0].id, 4, 8), p')
  {
    var id, n, c' := c.available[0].id, CARD0.deviceName, TakeByTemplate(c, 0, "vir01");
    var p' := Plant(T1, map[n := c'], p.table[SliceName(0, c.next) := SliceDevice(c.next)]);
    assert BestFit(T1, 4, 8, "vir01");
    assert OffersAt(c, id, 0) && TakesBestFit(c, 0, 4, 8, c');
    var got := Some(c'.held[|c.held|]);
    assert Allocates(c, id, 4, 8, c', got);
    assert T1["vir01"].aicore == 4 && T1["vir01"].memory == 8;
    assert AllocatesOn(p, n, id, 4, 8, p', got);
    assert AllocateStep(p, id, 4, 8, p', got);
  }

  lemma ReleaseTakes(p: Plant, n: string, j: nat, id: string, p': Plant)
    requires ReleasesOn(p, n, j, id, p')
    ensures Step(p, Release(id), p')
  {
    assert Holds(p.cards[n], id);
    assert ReleaseStep(p, id, p', true);
  }

  lemma NamesDiffer()
    ensures forall j: nat, k: nat {:trigger SliceName(0, j), SliceName(0, k)} :: j != k ==>
              SliceName(0, j) != SliceName(0, k)
  {
    forall j: nat, k: nat | j != k ensures SliceName(0, j) != SliceName(0, k) {
      if SliceName(0, j) == SliceName(0, k) {
        SliceNameInjective(0, j, 0, k);
      }
    }
  }

  function Held(k: nat): Slice {
    Slice(SliceName(0, k), "vir01", true, VNPU)
  }

  function OnOffer(k: nat): Slice {
    Slice(SliceName(0, k), "", false, VNPU)
  }

  /** The card on the way: untouched, split once, split twice, its first slice released. */
  function CardOnTheWay(k: nat): Card {
    match k
    case 0 => FreshCard(CARD0, T1)
    case 1 => Card(CARD0, [OnOffer(1)], [Held(0)], T1, 2)
    case 2 => Card(CARD0, [OnOffer(2)], [Held(0), Held(1)], T1, 3)
    case _ => Card(CARD0, [OnOffer(3)], [Held(1)], Narrowed(T1), 4)
  }

  function TableOnTheWay(d: Device, k: nat): map<string, Device> {
    if k == 0 then map[SliceName(0, 0) := d] else TableOnTheWay(d, k - 1)[SliceName(0, k) := SliceDevice(k)]
  }

  lemma {:induction false} TableNames(d: Device, k: nat)
    ensures forall j: nat :: SliceName(0, j) in TableOnTheWay(d, k) <==> j <= k
  {
    NamesDiffer();
    if k > 0 {
      TableNames(d, k - 1);
    }
  }

  function PlantOnTheWay(d: Device, k: nat): Plant {
    Plant(T1, map[SliceName(0, 0) := CardOnTheWay(k)], TableOnTheWay(d, k))
  }

  lemma SplitStep(d: Device, k: nat)
    requires k < 2
    ensures Step(PlantOnTheWay(d, k), Allocate(SliceName(0, k), 4, 8), PlantOnTheWay(d, k + 1))
  {
    TableNames(d, k);
    var c := CardOnTheWay(k);
    assert TakeByTemplate(c, 0, "vir01") == CardOnTheWay(k + 1);
    TakeStep(PlantOnTheWay(d, k), c);
  }

  lemma FirstRelease(d: Device)
    ensures Step(PlantOnTheWay(d, 2), Release(SliceName(0, 0)), PlantOnTheWay(d, 3))
  {
    var p, p', n := PlantOnTheWay(d, 2), PlantOnTheWay(d, 3), SliceName(0, 0);
    TableNames(d, 2);
    var c := CardOnTheWay(2);
    assert p.cards[n] == c;
    assert Released(T1, c, 0) == CardOnTheWay(3);
    assert T1["vir01"].aicore == 4 && T1["vir01"].memory == 8;
    assert p'.cards == p.cards[n := CardOnTheWay(3)];
    assert ReleasesOn(p, n, 0, n, p');
    ReleaseTakes(p, n, 0, n, p');
  }

  lemma LastRelease(p: Plant)
    requires p.templates == T1 && p.cards == map[SliceName(0, 0) := CardOnTheWay(3)]
    ensures Step(p, Release(SliceName(0, 1)), p.(cards := map[SliceName(0, 0) := CardOnTheWay(0)]))
  {
    var p', n := p.(cards := map[SliceName(0, 0) := CardOnTheWay(0)]), SliceName(0, 0);
    var c := CardOnTheWay(3);
    assert p.cards[n] == c && WithoutAt(c.held, 0) == [];
    assert p'.cards == p.cards[n := CardOnTheWay(0)];
    assert ReleasesOn(p, n, 0, SliceName(0, 1), p');
    ReleaseTakes(p, n, 0, SliceName(0, 1), p');
  }

  /**
    Split a card in two, release the slice named after the card, publish, release the other slice, publish:
    the card is whole and available again, and no longer in the published table.
  */
  lemma OutOfOrderReleaseHidesCard(d: Device) returns (ps: seq<Plant>, ops: seq<Op>)
    ensures Run(ps, ops) && |ops| == 7
    ensures ps[7].cards == map[CARD0.deviceName := FreshCard(CARD0, T1)]
    ensures Live(ps[7], CARD0.deviceName) && !Published(ps[7], CARD0.deviceName)
  {
    ps, ops := Opening(d);
    var p3 := PlantOnTheWay(d, 3);
    var p4 := Synced(p3);
    var p5 := p4.(cards := map[SliceName(0, 0) := CardOnTheWay(0)]);
    LastRelease(p4);
    HiddenAtEnd(p3);
    ps, ops := Extend(ps, ops, Sync, p4);
    ps, ops := Extend(ps, ops, Release(SliceName(0, 1)), p5);
    ps, ops := Extend(ps, ops, Sync, Synced(p5));
  }

  lemma Extend(ps: seq<Plant>, ops: seq<Op>, op: Op, p: Plant) returns (ps': seq<Plant>, ops': seq<Op>)
    requires Run(ps, ops) && Step(ps[|ops|], op, p)
    ensures ps' == ps + [p] && ops' == ops + [op] && Run(ps', ops')
  {
    ps', ops' := ps + [p], ops + [op];
  }

  lemma FirstSplit(d: Device) returns (ps: seq<Plant>, ops: seq<Op>)
    ensures Run(ps, ops) && |ops| == 2 && ps[2] == PlantOnTheWay(d, 1)
  {
    ps, ops := [Plant(T1, map[], map[])], [];
    ps, ops := Extend(ps, ops, Discover(CARD0, d), PlantOnTheWay(d, 0));
    SplitStep(d, 0);
    ps, ops := Extend(ps, ops, Allocate(SliceName(0, 0), 4, 8), PlantOnTheWay(d, 1));
  }

  lemma Opening(d: Device) returns (ps: seq<Plant>, ops: seq<Op>)
    ensures Run(ps, ops) && |ops| == 4 && ps[4] == PlantOnTheWay(d, 3)
  {
    ps, ops := FirstSplit(d);
    SplitStep(d, 1);
    ps, ops := Extend(ps, ops, Allocate(SliceName(0, 1), 4, 8), PlantOnTheWay(d, 2));
    FirstRelease(d);
    ps, ops := Extend(ps, ops, Release(SliceName(0, 0)), PlantOnTheWay(d, 3));
  }

  lemma HiddenAtEnd(p3: Plant)
    requires p3.cards == map[SliceName(0, 0) := CardOnTheWay(3)]
    ensures var p5 := Synced(p3).(cards := map[SliceName(0, 0) := CardOnTheWay(0)]);
            Live(Synced(p5), SliceName(0, 0)) && !Published(Synced(p5), SliceName(0, 0))
  {
    NameGone(p3);
    var p5 := Synced(p3).(cards := map[SliceName(0, 0) := CardOnTheWay(0)]);
    assert p5.cards[SliceName(0, 0)].available[0].id == SliceName(0, 0);
    assert Carries(p5.cards[SliceName(0, 0)], SliceName(0, 0));
  }

  lemma NameGone(p: Plant)
    requires p.cards == map[SliceName(0, 0) := CardOnTheWay(3)]
    ensures !Live(p, SliceName(0, 0))
  {
    NamesDiffer();
  }
}
