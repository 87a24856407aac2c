/**
  What one allocation and one release give, in plain terms, and what every run keeps of a card that stays split
  (cmd/ascend-dra-kubeletplugin/vnpu.go).
*/
module CardRuns {
  import opened Wrappers
  import opened Decimal
  import opened SliceModel
  import opened PlantModel

  /** The slice a card offers after a split or a release. */
  function Offer(logicID: int, k: int): Slice {
    Slice("npu-" + Itoa(logicID) + "-" + Itoa(k), "", false, VNPU)
  }

  /** The card as discovery builds it. */
  predicate Idle(templates: map<string, Template>, n: string, c: Card) {
    c.available == [Slice(n, "", false, NPU)] && c.held == [] && c.support == templates && c.next == 1
  }

  /**
    The callback publishes the offer with the largest attributes among the supported templates, unless it is published
    already, and no other device changes.
  */
  ghost predicate Publishes(
      t: map<string, Device>, offer: string, info: Info, support: map<string, Template>, t': map<string, Device>)
  {
    && offer in t' && t'.Keys == t.Keys + {offer} && (forall id :: id in t ==> t'[id] == t[id])
    && (offer !in t ==>
          var d := t'[offer];
          && d.name == offer && d.info == info && d.kind == VNPU && d.cores >= 0 && d.memory >= 0
          && (forall n :: n in support ==> support[n].aicore <= d.cores && support[n].memory <= d.memory)
          && (d.cores > 0 ==> exists n :: n in support && support[n].aicore == d.cores)
          && (d.memory > 0 ==> exists n :: n in support && support[n].memory == d.memory))
  }

  lemma AddsPublishes(
      t: map<string, Device>, offer: string, info: Info, support: map<string, Template>, t': map<string, Device>)
    requires Adds(t, offer, info, support, t')
    ensures Publishes(t, offer, info, support, t')
  {
  }

  // ---- Allocation ----

  /** The template serves the request, and the excess stays below the limit of the search. */
  predicate Serves(t: Template, cores: int, memory: int) {
    t.aicore >= cores && t.memory >= memory && (t.aicore - cores) + (t.memory - memory) < 0x7FFF_FFFF
  }

  /** `name` is supported, serves the request, and no supported template that serves it is smaller. */
  ghost predicate ServesBest(support: map<string, Template>, cores: int, memory: int, name: string) {
    name in support && Serves(support[name], cores, memory)
    && forall m :: m in support && Serves(support[m], cores, memory) ==>
         support[name].aicore + support[name].memory <= support[m].aicore + support[m].memory
  }

  lemma BestFitServesBest(support: map<string, Template>, cores: int, memory: int, name: string)
    requires BestFit(support, cores, memory, name)
    ensures ServesBest(support, cores, memory, name)
  {
  }

  /** The one slice on offer, which has the name asked for, is now held; the support stays. */
  predicate TakesOffer(c: Card, id: string, c': Card, s: Slice) {
    |c.available| == 1 && c.available[0].id == id && s.id == id && s.inUse
    && c'.held == c.held + [s] && c'.support == c.support && c'.info == c.info
  }

  /** Taken whole: the slice stays what it was and nothing is on offer any more. */
  predicate GivesWhole(c: Card, c': Card, s: Slice)
    requires |c.available| == 1
  {
    c'.available == [] && c'.next == c.next && s.template == "" && s.kind == c.available[0].kind
  }

  /** Taken by template: named after a best supported template, with the next name on offer and published. */
  ghost predicate GivesByTemplate(
      c: Card, t: map<string, Device>, cores: int, memory: int, c': Card, t': map<string, Device>, s: Slice)
  {
    && c'.available == [Offer(c.info.logicID, c.next)] && c'.next == c.next + 1 && s.kind == VNPU
    && Publishes(t, c'.available[0].id, c.info, c.support, t')
    && exists name :: ServesBest(c.support, cores, memory, name) && s.template == c.support[name].name
  }

  lemma WholeTakeGives(templates: map<string, Template>, c: Card, id: string, c': Card, s: Slice)
    requires CardInv(templates, c) && Allocates(c, id, 0, 0, c', Some(s))
    ensures TakesOffer(c, id, c', s) && GivesWhole(c, c', s)
  {
    CardInvMeans(templates, c);
    assert c' == TakeFull(c, 0);
    OfferHasNoTemplate(templates, c);
  }

  lemma TemplateTaken(
      templates: map<string, Template>, c: Card, id: string, cores: int, memory: int, c': Card, s: Slice)
    returns (name: string)
    requires CardInv(templates, c) && Allocates(c, id, cores, memory, c', Some(s)) && !WholeCard(cores, memory)
    ensures BestFit(c.support, cores, memory, name) && |c.available| == 1 && OffersAt(c, id, 0)
    ensures c' == TakeByTemplate(c, 0, c.support[name].name) && s == c'.held[|c.held|]
  {
    CardInvMeans(templates, c);
    assert TakesBestFit(c, 0, cores, memory, c');
    name :| BestFit(c.support, cores, memory, name) && c' == TakeByTemplate(c, 0, c.support[name].name);
  }

  lemma TemplateTakeGives(
      templates: map<string, Template>, c: Card, t: map<string, Device>, id: string, cores: int, memory: int, c': Card,
      t': map<string, Device>, s: Slice)
    requires CardInv(templates, c) && AllocatesCard(c, t, id, cores, memory, c', t', Some(s))
    requires !(cores == 0 && memory == 0)
    ensures TakesOffer(c, id, c', s) && GivesByTemplate(c, t, cores, memory, c', t', s)
  {
    var name := TemplateTaken(templates, c, id, cores, memory, c', s);
    BestFitServesBest(c.support, cores, memory, name);
    AddsPublishes(t, Remainder(c).id, c.info, c.support, t');
  }

  /**
    An allocation on a card takes its one slice on offer, which has the name asked for; the support stays. A whole
    take leaves no offer; a take by template is named after a best supported template and leaves the next offer.
  */
  lemma AllocationGives(p: Plant, n: string, id: string, cores: int, memory: int, p': Plant, s: Slice)
    requires PlantInv(p) && AllocatesOn(p, n, id, cores, memory, p', Some(s))
    ensures var c, c' := p.cards[n], p'.cards[n];
            && TakesOffer(c, id, c', s)
            && if cores == 0 && memory == 0 then GivesWhole(c, c', s) && p'.table == p.table
               else GivesByTemplate(c, p.table, cores, memory, c', p'.table, s)
  {
    var c, c' := p.cards[n], p'.cards[n];
    assert CardAt(p, n);
    if cores == 0 && memory == 0 {
      WholeTakeGives(p.templates, c, id, c', s);
    } else {
      TemplateTakeGives(p.templates, c, p.table, id, cores, memory, c', p'.table, s);
    }
  }

  lemma OfferHasNoTemplate(templates: map<string, Template>, c: Card)
    requires CardInv(templates, c) && c.available != []
    ensures c.available[0].template == ""
  {
  }

  /** An allocation that gives nothing changes nothing: it was by template and no supported one serves it. */
  lemma RefusalMeans(p: Plant, n: string, id: string, cores: int, memory: int, p': Plant)
    requires AllocatesOn(p, n, id, cores, memory, p', None)
    ensures p' == p && !(cores == 0 && memory == 0)
    ensures forall name :: name in p.cards[n].support ==> !Serves(p.cards[n].support[name], cores, memory)
  {
    forall name | name in p.cards[n].support ensures !Serves(p.cards[n].support[name], cores, memory) {
      assert !Candidate(p.cards[n].support, cores, memory, name);
    }
  }

  // ---- Release ----

  /**
    A release takes one slice off its card. With others still held the card offers the next index and supports
    exactly the templates named "vir01..."; otherwise it is as discovery built it. No other card changes.
  */
  lemma ReleaseGives(p: Plant, n: string, j: nat, id: string, p': Plant)
    requires PlantInv(p) && ReleasesOn(p, n, j, id, p')
    ensures var c, c' := p.cards[n], p'.cards[n];
            && c.held[j].id == id && c'.info == c.info
            && if |c.held| == 1 then Idle(p.templates, n, c') && p'.table == p.table
               else
                 && c'.held == c.held[..j] + c.held[j + 1..]
                 && c'.available == [Offer(c.info.logicID, c.next)] && c'.next == c.next + 1
                 && Publishes(p.table, c'.available[0].id, c.info, c.support, p'.table)
                 && OnlyVir01(p.templates, c'.support)
    ensures forall m :: m in p.cards && m != n ==> m in p'.cards && p'.cards[m] == p.cards[m]
  {
    var c := p.cards[n];
    assert CardAt(p, n);
    CardInvMeans(p.templates, c);
    assert c.held[j] in c.held;
    if |c.held| == 1 {
      assert WithoutAt(c.held, j) == [];
    } else {
      assert |WithoutAt(c.held, j)| == |c.held| - 1;
      NarrowedIsVir01(p.templates);
      AddsPublishes(p.table, Remainder(c).id, c.info, c.support, p'.table);
    }
  }

  // ---- Runs ----

  /** Somebody holds a slice of the card. */
  predicate InUse(p: Plant, n: string) {
    n in p.cards && p.cards[n].held != []
  }

  ghost predicate Narrow(p: Plant, n: string) {
    n in p.cards && OnlyVir01(p.templates, p.cards[n].support)
  }

  lemma AllocateKeepsNarrow(
      p: Plant, m: string, id: string, cores: int, memory: int, p': Plant, got: Option<Slice>, n: string)
    requires PlantInv(p) && AllocatesOn(p, m, id, cores, memory, p', got) && Narrow(p, n)
    ensures Narrow(p', n) && p'.templates == p.templates
  {
    if m == n && got.Some? {
      AllocationGives(p, n, id, cores, memory, p', got.value);
    }
  }

  lemma ReleaseKeepsNarrow(p: Plant, m: string, j: nat, id: string, p': Plant, n: string)
    requires PlantInv(p) && ReleasesOn(p, m, j, id, p') && Narrow(p, n) && InUse(p', n)
    ensures Narrow(p', n) && p'.templates == p.templates
  {
    ReleaseGives(p, m, j, id, p');
  }

  lemma StepKeepsNarrow(p: Plant, op: Op, p': Plant, n: string)
    requires PlantInv(p) && Step(p, op, p') && Narrow(p, n) && InUse(p', n)
    ensures Narrow(p', n) && p'.templates == p.templates
  {
    match op
    case Discover(info, device) =>
    case Allocate(id, cores, memory) =>
      var got :| AllocateStep(p, id, cores, memory, p', got);
      if p' != p {
        var m :| AllocatesOn(p, m, id, cores, memory, p', got);
        AllocateKeepsNarrow(p, m, id, cores, memory, p', got, n);
      }
    case Release(id) =>
      var ok :| ReleaseStep(p, id, p', ok);
      if ok {
        var m, j :| ReleasesOn(p, m, j, id, p');
        ReleaseKeepsNarrow(p, m, j, id, p', n);
      }
    case Sync =>
  }

  lemma EveryStepKeepsNarrow(n: string)
    ensures forall p, op, p' :: PlantInv(p) && Step(p, op, p') && Narrow(p, n) && InUse(p', n) ==>
              Narrow(p', n) && p'.templates == p.templates
  {
    forall p, op, p' | PlantInv(p) && Step(p, op, p') && Narrow(p, n) && InUse(p', n)
      ensures Narrow(p', n) && p'.templates == p.templates
    {
      StepKeepsNarrow(p, op, p', n);
    }
  }

  lemma {:induction false} StaysNarrow(ps: seq<Plant>, ops: seq<Op>, i: nat, k: nat, n: string)
    requires Run(ps, ops) && i <= k < |ps| && Narrow(ps[i], n)
    requires forall x :: i < x <= k ==> InUse(ps[x], n)
    ensures Narrow(ps[k], n) && ps[k].templates == ps[i].templates
  {
    if i < k {
      StaysNarrow(ps, ops, i, k - 1, n);
      RunKeeps(ps, ops, k - 1);
      EveryStepKeepsNarrow(n);
      assert ops[k - 1] in ops;
    }
  }

  predicate StaysInUse(ps: seq<Plant>, i: nat, k: nat, n: string)
    requires k < |ps|
  {
    forall x :: i <= x <= k ==> InUse(ps[x], n)
  }

  /** Of the templates named "vir01..." that serve the request, none is smaller than `name`. */
  ghost predicate BestVir01(templates: map<string, Template>, cores: int, memory: int, name: string) {
    name in templates && Vir01(name) && Serves(templates[name], cores, memory)
    && forall m :: m in templates && Vir01(m) && Serves(templates[m], cores, memory) ==>
         templates[name].aicore + templates[name].memory <= templates[m].aicore + templates[m].memory
  }

  /** The slice is named after such a template, and none is given only if no template "vir01..." serves. */
  ghost predicate GivesVir01(templates: map<string, Template>, cores: int, memory: int, got: Option<Slice>) {
    match got
    case None => forall name :: name in templates && Vir01(name) ==> !Serves(templates[name], cores, memory)
    case Some(s) =>
      exists name :: BestVir01(templates, cores, memory, name) && s.template == templates[name].name
  }

  lemma NarrowCardGivesVir01(
      p: Plant, n: string, id: string, cores: int, memory: int, p': Plant, got: Option<Slice>)
    requires PlantInv(p) && Narrow(p, n) && AllocatesOn(p, n, id, cores, memory, p', got)
    requires !(cores == 0 && memory == 0)
    ensures GivesVir01(p.templates, cores, memory, got)
  {
    match got
    case None => RefusalMeans(p, n, id, cores, memory, p');
    case Some(s) =>
      AllocationGives(p, n, id, cores, memory, p', s);
      var support := p.cards[n].support;
      var name :| ServesBest(support, cores, memory, name) && s.template == support[name].name;
      BestOfNarrow(p.templates, support, cores, memory, name);
  }

  lemma BestOfNarrow(
      templates: map<string, Template>, support: map<string, Template>, cores: int, memory: int, name: string)
    requires OnlyVir01(templates, support) && ServesBest(support, cores, memory, name)
    ensures BestVir01(templates, cores, memory, name) && templates[name] == support[name]
  {
    forall m | m in templates && Vir01(m) && Serves(templates[m], cores, memory)
      ensures templates[name].aicore + templates[name].memory <= templates[m].aicore + templates[m].memory
    {
      assert m in support;
    }
  }

  /** A slice of the card is released while others are held. */
  ghost predicate ReleasesOneOfMany(p: Plant, n: string, p': Plant) {
    n in p.cards && |p.cards[n].held| > 1 && exists j, id :: ReleasesOn(p, n, j, id, p')
  }

  lemma ReleaseNarrows(p: Plant, n: string, p': Plant)
    requires PlantInv(p) && ReleasesOneOfMany(p, n, p')
    ensures Narrow(p', n) && p'.templates == p.templates
  {
    var j, id :| ReleasesOn(p, n, j, id, p');
    ReleaseGives(p, n, j, id, p');
  }

  lemma NarrowAtRelease(ps: seq<Plant>, ops: seq<Op>, i: nat, n: string)
    requires Run(ps, ops) && i < |ops| && ReleasesOneOfMany(ps[i], n, ps[i + 1])
    ensures Narrow(ps[i + 1], n) && ps[i + 1].templates == ps[i].templates
  {
    RunKeeps(ps, ops, i);
    ReleaseNarrows(ps[i], n, ps[i + 1]);
  }

  lemma NarrowAfterRelease(ps: seq<Plant>, ops: seq<Op>, i: nat, k: nat, n: string)
    requires Run(ps, ops) && i < k < |ps| && ReleasesOneOfMany(ps[i], n, ps[i + 1]) && StaysInUse(ps, i + 1, k, n)
    ensures Narrow(ps[k], n) && ps[k].templates == ps[i].templates
  {
    NarrowAtRelease(ps, ops, i, n);
    StaysNarrow(ps, ops, i + 1, k, n);
  }

  /**
    Over every run, from a release that leaves other slices held until nobody holds the card, an allocation by
    template on it is named after the best template "vir01..." that serves it, and fails only when none does.
  */
  lemma SplitCardGivesVir01(
      ps: seq<Plant>, ops: seq<Op>, i: nat, k: nat, n: string, id: string, cores: int, memory: int, got: Option<Slice>)
    requires Run(ps, ops) && i < k < |ops|
    requires ReleasesOneOfMany(ps[i], n, ps[i + 1]) && StaysInUse(ps, i + 1, k, n)
    requires AllocatesOn(ps[k], n, id, cores, memory, ps[k + 1], got) && !(cores == 0 && memory == 0)
    ensures GivesVir01(ps[i].templates, cores, memory, got)
  {
    NarrowAfterRelease(ps, ops, i, k, n);
    RunKeeps(ps, ops, k);
    NarrowCardGivesVir01(ps[k], n, id, cores, memory, ps[k + 1], got);
  }

  // ---- A slice stays with its holder ----

  predicate HoldsSlice(p: Plant, n: string, s: Slice) {
    n in p.cards && s in p.cards[n].held
  }

  lemma HeldIsNotOffered(p: Plant, n: string, s: Slice)
    requires PlantInv(p) && HoldsSlice(p, n, s)
    ensures NoneOffers(p, s.id)
  {
    var j :| 0 <= j < |p.cards[n].held| && p.cards[n].held[j] == s;
    assert HoldsAt(p.cards[n], s.id, j);
    PositionIsUnique(p, n, s.id, j, j);
    forall m | m in p.cards ensures !Offers(p.cards[m], s.id) {
      if Offers(p.cards[m], s.id) {
        OwnerIsUnique(p, m, n, s.id);
      }
    }
  }

  lemma AllocateKeepsHeld(
      p: Plant, m: string, id: string, cores: int, memory: int, p': Plant, got: Option<Slice>, n: string, s: Slice)
    requires PlantInv(p) && AllocatesOn(p, m, id, cores, memory, p', got) && HoldsSlice(p, n, s)
    ensures HoldsSlice(p', n, s)
  {
    if m == n && got.Some? {
      AllocationGives(p, n, id, cores, memory, p', got.value);
    }
  }

  lemma ReleaseKeepsHeld(p: Plant, m: string, j: nat, id: string, p': Plant, n: string, s: Slice)
    requires PlantInv(p) && ReleasesOn(p, m, j, id, p') && HoldsSlice(p, n, s) && id != s.id
    ensures HoldsSlice(p', n, s)
  {
    ReleaseGives(p, m, j, id, p');
    if m == n {
      OthersStay(p.cards[n].held, j, s);
    }
  }

  lemma OthersStay(held: seq<Slice>, j: nat, s: Slice)
    requires j < |held| && s in held && held[j] != s
    ensures |held| > 1 && s in held[..j] + held[j + 1..]
  {
    var k :| 0 <= k < |held| && held[k] == s;
    assert (held[..j] + held[j + 1..])[if k < j then k else k - 1] == s;
  }

  lemma StepKeepsHeld(p: Plant, op: Op, p': Plant, n: string, s: Slice)
    requires PlantInv(p) && Step(p, op, p') && HoldsSlice(p, n, s) && op != Release(s.id)
    ensures HoldsSlice(p', n, s)
  {
    match op
    case Discover(info, device) =>
    case Allocate(id, cores, memory) =>
      var got :| AllocateStep(p, id, cores, memory, p', got);
      if p' != p {
        var m :| AllocatesOn(p, m, id, cores, memory, p', got);
        AllocateKeepsHeld(p, m, id, cores, memory, p', got, n, s);
      }
    case Release(id) =>
      var ok :| ReleaseStep(p, id, p', ok);
      if ok {
        var m, j :| ReleasesOn(p, m, j, id, p');
        ReleaseKeepsHeld(p, m, j, id, p', n, s);
      }
    case Sync =>
  }

  lemma EveryStepKeepsHeld(n: string, s: Slice)
    ensures forall p, op, p' :: PlantInv(p) && Step(p, op, p') && HoldsSlice(p, n, s) && op != Release(s.id) ==>
              HoldsSlice(p', n, s)
  {
    forall p, op, p' | PlantInv(p) && Step(p, op, p') && HoldsSlice(p, n, s) && op != Release(s.id)
      ensures HoldsSlice(p', n, s)
    {
      StepKeepsHeld(p, op, p', n, s);
    }
  }

  /**
    Over every run, a slice stays with its card as it was allocated until it is released itself, whatever is discovered,
    allocated, released or published meanwhile, and until then nobody can be given its name.
  */
  lemma {:induction false} HeldStaysHeld(ps: seq<Plant>, ops: seq<Op>, i: nat, k: nat, n: string, s: Slice)
    requires Run(ps, ops) && i <= k < |ps| && HoldsSlice(ps[i], n, s)
    requires forall x :: i <= x < k ==> ops[x] != Release(s.id)
    ensures HoldsSlice(ps[k], n, s) && NoneOffers(ps[k], s.id)
  {
    RunKeeps(ps, ops, k);
    if i < k {
      HeldStaysHeld(ps, ops, i, k - 1, n, s);
      RunKeeps(ps, ops, k - 1);
      EveryStepKeepsHeld(n, s);
      assert ops[k - 1] in ops;
    }
    HeldIsNotOffered(ps[k], n, s);
  }
}
