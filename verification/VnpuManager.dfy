/**
  The vNPU manager as it works: cards and slices are objects updated in place, and every method is proved
  against the step relations of PlantModel (cmd/ascend-dra-kubeletplugin/vnpu.go and state.go).
*/
module VnpuManager {
  import opened Wrappers
  import opened SliceModel
  import opened PlantModel

  class VNPUSlice {
    var sliceID: string
    var templateName: string
    var inUse: bool
    var kind: SliceType
    // The card whose lists hold this slice.
    ghost var owner: PhysicalNPUState?

    ghost predicate Is(view: Slice)
      reads this
    {
      sliceID == view.id && templateName == view.template && inUse == view.inUse && kind == view.kind
    }

    constructor (view: Slice, ghost owner: PhysicalNPUState?)
      ensures Is(view) && this.owner == owner
    {
      sliceID, templateName, inUse, kind := view.id, view.template, view.inUse, view.kind;
      this.owner := owner;
    }
  }

  ghost predicate Shows(s: seq<VNPUSlice>, views: seq<Slice>)
    reads s
  {
    |s| == |views| && forall i :: 0 <= i < |s| ==> s[i].Is(views[i])
  }

  ghost predicate NoDuplicates(s: seq<VNPUSlice>) {
    forall i, j :: 0 <= i < j < |s| ==> s[i] != s[j]
  }

  class PhysicalNPUState {
    const info: Info
    var availableSlices: seq<VNPUSlice>
    var allocatedSlices: seq<VNPUSlice>
    var supportTemplates: map<string, Template>
    var nextSliceIndex: int
    // The value of the card; Valid ties it to the fields and the slice objects.
    ghost var view: Card
    // Every slice object the card has held.
    ghost var footprint: set<VNPUSlice>

    /** The fields say what `view` says, every slice is held in one place, and the card owns it. */
    ghost predicate Valid()
      reads this, footprint
    {
      view == Card(info, view.available, view.held, supportTemplates, nextSliceIndex)
      && Reaches() && ShowsBoth() && Apart() && forall s :: s in footprint ==> s.owner == this
    }

    ghost predicate Reaches()
      reads this
    {
      (forall s :: s in availableSlices ==> s in footprint) && (forall s :: s in allocatedSlices ==> s in footprint)
    }

    ghost predicate Apart()
      reads this
    {
      |availableSlices| <= 1 && NoDuplicates(allocatedSlices)
      && forall s :: s in availableSlices ==> s !in allocatedSlices
    }

    ghost predicate ShowsBoth()
      requires Reaches()
      reads this, footprint
    {
      Shows(availableSlices, view.available) && Shows(allocatedSlices, view.held)
    }

    /** The card InitPhysicalNPU builds: one slice on offer, the card itself. */
    constructor Fresh(info: Info, templates: map<string, Template>)
      ensures Valid() && view == FreshCard(info, templates) && this.info == info
      ensures forall s :: s in footprint ==> fresh(s)
    {
      this.info := info;
      supportTemplates, nextSliceIndex := templates, 1;
      availableSlices, allocatedSlices := [], [];
      view := FreshCard(info, templates);
      footprint := {};
      new;
      var slice := new VNPUSlice(FullCardSlice(info), this);
      availableSlices, footprint := [slice], {slice};
    }

    /** A card around slices that exist already: what clonePhysicalNPU returns. */
    constructor Copy(src: PhysicalNPUState, available: seq<VNPUSlice>, held: seq<VNPUSlice>)
      requires src.Valid()
      requires Shows(available, src.view.available) && Shows(held, src.view.held)
      ensures info == src.info && availableSlices == available && allocatedSlices == held && view == src.view
      ensures supportTemplates == src.supportTemplates && nextSliceIndex == src.nextSliceIndex
      ensures footprint == set s | s in available + held
    {
      info := src.info;
      availableSlices, allocatedSlices := available, held;
      supportTemplates, nextSliceIndex := src.supportTemplates, src.nextSliceIndex;
      view := src.view;
      footprint := set s | s in available + held;
    }
  }

  /** cloneSlices: fresh objects with the same contents. */
  method CloneSlices(src: seq<VNPUSlice>, ghost views: seq<Slice>) returns (dst: seq<VNPUSlice>)
    requires Shows(src, views)
    ensures Shows(dst, views) && forall i :: 0 <= i < |dst| ==> fresh(dst[i])
  {
    dst := [];
    for i := 0 to |src|
      invariant Shows(dst, views[..i]) && forall k :: 0 <= k < i ==> fresh(dst[k])
    {
      var copy := new VNPUSlice(Slice(src[i].sliceID, src[i].templateName, src[i].inUse, src[i].kind), null);
      dst := dst + [copy];
    }
  }

  /** clonePhysicalNPU: a snapshot sharing no object with the card, so changing either leaves the other alone. */
  method ClonePhysicalNPU(src: PhysicalNPUState) returns (copy: PhysicalNPUState)
    requires src.Valid()
    ensures fresh(copy) && forall s :: s in copy.footprint ==> fresh(s)
    ensures copy.Reaches() && copy.ShowsBoth() && copy.view == src.view
  {
    var available := CloneSlices(src.availableSlices, src.view.available);
    var held := CloneSlices(src.allocatedSlices, src.view.held);
    copy := new PhysicalNPUState.Copy(src, available, held);
  }

  // ---- The table of allocatable devices ----

  /** The type the callback publishes: that of the first available slice of this name, else "NPU". */
  function KindOnOffer(available: seq<Slice>, id: string): SliceType {
    if available == [] then NPU
    else if available[0].id == id then available[0].kind
    else KindOnOffer(available[1..], id)
  }

  class DeviceTable {
    var devices: map<string, Device>

    constructor ()
      ensures devices == map[]
    {
      devices := map[];
    }

    method UpdateAllocatableDevice(deviceName: string, npu: PhysicalNPUState) returns (added: bool)
      requires npu.Reaches() && npu.ShowsBoth()
      modifies this
      ensures added <==> deviceName !in old(devices)
      ensures !added ==> devices == old(devices)
      ensures added ==> deviceName in devices && devices == old(devices)[deviceName := devices[deviceName]]
      ensures added ==> var d := devices[deviceName];
                        d.name == deviceName && d.info == npu.info
                        && d.kind == KindOnOffer(npu.view.available, deviceName)
                        && IsMaxCores(npu.supportTemplates, d.cores) && IsMaxMemory(npu.supportTemplates, d.memory)
    {
      if deviceName in devices {
        return false;
      }
      var kind := NPU;
      ghost var view := npu.view.available;
      var i := 0;
      while i < |npu.availableSlices|
        invariant 0 <= i <= |view|
        invariant KindOnOffer(view, deviceName) == KindOnOffer(view[i..], deviceName)
        invariant kind == NPU
      {
        assert view[i..][1..] == view[i + 1..] && npu.availableSlices[i].Is(view[i..][0]);
        if npu.availableSlices[i].sliceID == deviceName {
          kind := npu.availableSlices[i].kind;
          break;
        }
        i := i + 1;
      }
      assert kind == KindOnOffer(view, deviceName);
      var cores, memory := MaxAttributes(npu.supportTemplates);
      devices := devices[deviceName := Device(deviceName, npu.info, kind, cores, memory)];
      return true;
    }
  }

  method MaxAttributes(support: map<string, Template>) returns (cores: int, memory: int)
    ensures IsMaxCores(support, cores) && IsMaxMemory(support, memory)
  {
    cores, memory := 0, 0;
    var todo := support.Keys;
    while todo != {}
      invariant todo <= support.Keys && cores >= 0 && memory >= 0
      invariant forall n :: n in support && n !in todo ==> support[n].aicore <= cores && support[n].memory <= memory
      invariant cores == 0 || exists n :: n in support && support[n].aicore == cores
      invariant memory == 0 || exists n :: n in support && support[n].memory == memory
    {
      var n :| n in todo;
      if support[n].aicore > cores {
        cores := support[n].aicore;
      }
      if support[n].memory > memory {
        memory := support[n].memory;
      }
      todo := todo - {n};
    }
  }

  // ---- Operations on one card ----

  ghost function Got(slice: VNPUSlice?, view: Slice): Option<Slice> {
    if slice == null then None else Some(view)
  }

  method FirstOffer(npu: PhysicalNPUState, id: string) returns (at: Option<nat>)
    requires npu.Valid()
    ensures at.None? <==> !Offers(npu.view, id)
    ensures at.Some? ==> OffersAt(npu.view, id, at.value)
  {
    for i := 0 to |npu.availableSlices|
      invariant forall k :: 0 <= k < i ==> !OffersAt(npu.view, id, k)
    {
      assert npu.availableSlices[i].Is(npu.view.available[i]);
      if npu.availableSlices[i].sliceID == id && !npu.availableSlices[i].inUse {
        assert OffersAt(npu.view, id, i);
        return Some(i);
      }
    }
    return None;
  }

  method HeldPosition(npu: PhysicalNPUState, id: string) returns (at: Option<nat>)
    requires npu.Valid()
    ensures at.None? <==> !Holds(npu.view, id)
    ensures at.Some? ==> HoldsAt(npu.view, id, at.value)
  {
    for i := 0 to |npu.allocatedSlices|
      invariant forall k :: 0 <= k < i ==> !HoldsAt(npu.view, id, k)
    {
      assert npu.allocatedSlices[i].Is(npu.view.held[i]);
      if npu.allocatedSlices[i].sliceID == id {
        assert HoldsAt(npu.view, id, i);
        return Some(i);
      }
    }
    return None;
  }

  /** Move the only slice on offer to the end of the allocated list, under a template and a type. */
  method TakeOnlyOffer(npu: PhysicalNPUState, template: string, kind: SliceType) returns (slice: VNPUSlice)
    requires npu.Valid() && |npu.availableSlices| == 1
    modifies npu, npu.availableSlices
    ensures npu.Valid() && npu.footprint == old(npu.footprint)
    ensures var c, s := old(npu.view), Slice(old(npu.view).available[0].id, template, true, kind);
            npu.view == c.(available := [], held := c.held + [s]) && slice.Is(s)
  {
    slice := npu.availableSlices[0];
    ghost var held, c := npu.allocatedSlices, npu.view;
    assert slice in npu.availableSlices && slice.Is(c.available[0]);
    slice.templateName, slice.inUse, slice.kind := template, true, kind;
    npu.allocatedSlices := npu.allocatedSlices + [slice];
    npu.availableSlices := [];  // the slice taken was the only one
    ghost var s := Slice(c.available[0].id, template, true, kind);
    npu.view := c.(available := [], held := c.held + [s]);
    OneMore(held, c.held, slice, s);
  }

  lemma OneMore(held: seq<VNPUSlice>, views: seq<Slice>, slice: VNPUSlice, s: Slice)
    requires Shows(held, views) && slice.Is(s) && NoDuplicates(held) && slice !in held
    ensures Shows(held + [slice], views + [s]) && NoDuplicates(held + [slice])
    ensures forall x :: x in held + [slice] ==> x in held || x == slice
  {
  }

  /** Offer one fresh slice and nothing else; hold `held`, which is what is held now or nothing. */
  method OfferOnly(npu: PhysicalNPUState, offer: Slice, held: seq<VNPUSlice>)
    requires npu.Valid() && (held == npu.allocatedSlices || held == [])
    modifies npu`availableSlices, npu`allocatedSlices, npu`view, npu`footprint
    ensures npu.Valid() && fresh(npu.footprint - old(npu.footprint))
    ensures npu.view == old(npu.view).(available := [offer], held := if held == [] then [] else old(npu.view.held))
  {
    var slice := new VNPUSlice(offer, npu);
    npu.availableSlices, npu.allocatedSlices := [slice], held;
    npu.footprint := npu.footprint + {slice};
    npu.view := npu.view.(available := [offer], held := if held == [] then [] else npu.view.held);
  }

  /** Offer a slice under the next name and tell the table about it. */
  method OfferRemainder(npu: PhysicalNPUState, callback: DeviceTable)
    requires npu.Valid()
    modifies npu`availableSlices, npu`allocatedSlices, npu`view, npu`footprint, npu`nextSliceIndex, callback
    ensures npu.Valid() && fresh(npu.footprint - old(npu.footprint))
    ensures var c := old(npu.view);
            npu.view == c.(available := [Remainder(c)], next := c.next + 1)
            && Adds(old(callback.devices), Remainder(c).id, c.info, c.support, callback.devices)
  {
    var newID := SliceName(npu.info.logicID, npu.nextSliceIndex);
    OfferOnly(npu, Slice(newID, "", false, VNPU), npu.allocatedSlices);
    npu.nextSliceIndex := npu.nextSliceIndex + 1;
    npu.view := npu.view.(next := npu.nextSliceIndex);
    var added := callback.UpdateAllocatableDevice(newID, npu);
  }

  /** The template loop of allocateSliceByTemplate, for any order of the map. */
  method ChooseTemplate(support: map<string, Template>, cores: int, memory: int) returns (best: Option<string>)
    ensures best.None? <==> NoFit(support, cores, memory)
    ensures best.Some? ==> BestFit(support, cores, memory, best.value)
  {
    best := None;
    var bestDiff := MAX_INT32;
    var todo := support.Keys;
    while todo != {}
      invariant todo <= support.Keys
      invariant best.None? ==> bestDiff == MAX_INT32
      invariant best.Some? ==> Candidate(support, cores, memory, best.value)
                               && bestDiff == Excess(support[best.value], cores, memory)
      invariant forall m :: m in support && m !in todo && Fits(support[m], cores, memory)
                            ==> bestDiff <= Excess(support[m], cores, memory)
    {
      var n :| n in todo;
      var template := support[n];
      if template.aicore >= cores && template.memory >= memory {
        var diff := (template.aicore - cores) + (template.memory - memory);
        if diff < bestDiff {
          bestDiff, best := diff, Some(n);
        }
      }
      todo := todo - {n};
    }
  }

  /** allocateFullCard. */
  method AllocateFullCard(npu: PhysicalNPUState, deviceName: string) returns (slice: VNPUSlice, ghost got: Slice)
    requires npu.Valid() && Offers(npu.view, deviceName)
    modifies npu, npu.availableSlices
    ensures npu.Valid() && npu.footprint == old(npu.footprint) && slice.Is(got)
    ensures npu.nextSliceIndex == old(npu.nextSliceIndex)
    ensures Allocates(old(npu.view), deviceName, 0, 0, npu.view, Some(got))
  {
    ghost var c := npu.view;
    var first := npu.availableSlices[0];
    assert first.Is(c.available[0]) && OffersAt(c, deviceName, 0);
    slice := TakeOnlyOffer(npu, first.templateName, first.kind);
    got := npu.view.held[|c.held|];
    assert npu.view == TakeFull(c, 0);
  }

  /** allocateSliceByTemplate. */
  method AllocateByTemplate(npu: PhysicalNPUState, callback: DeviceTable, deviceName: string, cores: int, memory: int)
    returns (slice: VNPUSlice?, ghost got: Slice)
    requires npu.Valid() && Offers(npu.view, deviceName) && !WholeCard(cores, memory)
    modifies npu, npu.availableSlices, callback
    ensures npu.Valid() && fresh(npu.footprint - old(npu.footprint))
    ensures slice == null ==> npu.view == old(npu.view) && callback.devices == old(callback.devices)
                              && NoFit(npu.view.support, cores, memory)
    ensures slice != null ==> Allocates(old(npu.view), deviceName, cores, memory, npu.view, Some(got)) && slice.Is(got)
                              && npu.view.next == old(npu.view).next + 1
                              && Adds(old(callback.devices), Remainder(old(npu.view)).id, npu.info,
                                      old(npu.view).support, callback.devices)
  {
    var best := ChooseTemplate(npu.supportTemplates, cores, memory);
    ghost var c := npu.view;
    got := FullCardSlice(npu.info);
    if best.None? {
      return null, got;
    }
    assert OffersAt(c, deviceName, 0);
    var template := npu.supportTemplates[best.value].name;
    var taken := TakeOnlyOffer(npu, template, VNPU);
    slice, got := taken, npu.view.held[|c.held|];
    OfferRemainder(npu, callback);
    TookBestFit(c, deviceName, cores, memory, best.value, npu.view);
  }

  lemma TookBestFit(c: Card, id: string, cores: int, memory: int, n: string, c': Card)
    requires BestFit(c.support, cores, memory, n) && !WholeCard(cores, memory)
    requires |c.available| == 1 && OffersAt(c, id, 0)
    requires c' == Card(c.info, [Remainder(c)], c.held + [Slice(id, c.support[n].name, true, VNPU)],
                        c.support, c.next + 1)
    ensures Allocates(c, id, cores, memory, c', Some(c'.held[|c.held|]))
  {
    assert c' == TakeByTemplate(c, 0, c.support[n].name);
    assert TakesBestFit(c, 0, cores, memory, c');
  }

  /** AllocateSlice once the card is found. */
  method AllocateOnCard(npu: PhysicalNPUState, callback: DeviceTable, deviceName: string, cores: int, memory: int)
    returns (slice: VNPUSlice?, ghost got: Slice)
    requires npu.Valid() && Offers(npu.view, deviceName)
    modifies npu, npu.footprint, callback
    ensures npu.Valid() && fresh(npu.footprint - old(npu.footprint))
    ensures slice != null ==> slice.Is(got)
    ensures AllocatesCard(old(npu.view), old(callback.devices), deviceName, cores, memory,
                          npu.view, callback.devices, Got(slice, got))
  {
    if cores == 0 && memory == 0 {
      slice, got := AllocateFullCard(npu, deviceName);
    } else {
      slice, got := AllocateByTemplate(npu, callback, deviceName, cores, memory);
    }
  }

  /** Take the slice at `at` off the allocated list. */
  method DropHeld(npu: PhysicalNPUState, at: nat) returns (slice: VNPUSlice)
    requires npu.Valid() && at < |npu.allocatedSlices|
    modifies npu`allocatedSlices, npu`view, npu.allocatedSlices
    ensures npu.Valid() && npu.footprint == old(npu.footprint)
    ensures npu.view == old(npu.view).(held := WithoutAt(old(npu.view).held, at))
    ensures slice.kind == old(npu.view).held[at].kind
  {
    slice := npu.allocatedSlices[at];
    ghost var c, held := npu.view, npu.allocatedSlices;
    assert slice in held && slice.Is(c.held[at]);
    DropOne(held, c.held, at);
    slice.inUse := false;
    npu.allocatedSlices := npu.allocatedSlices[..at] + npu.allocatedSlices[at + 1..];
    npu.view := c.(held := WithoutAt(c.held, at));
  }

  lemma DropOne(held: seq<VNPUSlice>, views: seq<Slice>, at: nat)
    requires Shows(held, views) && NoDuplicates(held) && at < |held|
    ensures var rest := held[..at] + held[at + 1..];
            Shows(rest, WithoutAt(views, at)) && NoDuplicates(rest) && held[at] !in rest
            && forall x :: x in rest ==> x in held
  {
    var rest := held[..at] + held[at + 1..];
    assert forall k :: 0 <= k < |rest| ==> rest[k] == held[if k < at then k else k + 1];
    assert forall k :: 0 <= k < |rest| ==> WithoutAt(views, at)[k] == views[if k < at then k else k + 1];
  }

  /** updateSupportTemplates. */
  method UpdateSupportTemplates(npu: PhysicalNPUState, templates: map<string, Template>)
    requires npu.Valid()
    modifies npu`supportTemplates, npu`view
    ensures npu.Valid()
    ensures npu.view == old(npu.view).(support := if npu.view.held == [] then templates else Narrowed(templates))
    ensures npu.allocatedSlices != [] ==> OnlyVir01(templates, npu.supportTemplates)
  {
    if |npu.allocatedSlices| == 0 {
      npu.supportTemplates := templates;
    } else {
      var kept: map<string, Template> := map[];
      var todo := templates.Keys;
      while todo != {}
        invariant todo <= templates.Keys
        invariant kept == map n | n in templates && n !in todo && "vir01" <= n :: templates[n]
      {
        var n :| n in todo;
        if "vir01" <= n {
          kept := kept[n := templates[n]];
        }
        todo := todo - {n};
      }
      npu.supportTemplates := kept;
      NarrowedIsVir01(templates);
    }
    npu.view := npu.view.(support := npu.supportTemplates);
  }

  /** ReleaseSlice once the slice is found. */
  method ReleaseOnCard(npu: PhysicalNPUState, callback: DeviceTable, at: nat, templates: map<string, Template>)
    requires npu.Valid() && at < |npu.allocatedSlices|
    modifies npu, npu.footprint, callback
    ensures npu.Valid() && fresh(npu.footprint - old(npu.footprint))
    ensures ReleasesCard(templates, old(npu.view), old(callback.devices), at, npu.view, callback.devices)
  {
    ghost var c := npu.view;
    var slice := DropHeld(npu, at);
    if slice.kind == NPU {
      ResetToFullCard(npu, []);
      return;
    }
    if |npu.allocatedSlices| == 0 {
      ResetToFullCard(npu, npu.allocatedSlices);
    } else {
      OfferRemainder(npu, callback);
    }
    UpdateSupportTemplates(npu, templates);
  }

  method ResetToFullCard(npu: PhysicalNPUState, held: seq<VNPUSlice>)
    requires npu.Valid() && held == []
    modifies npu`availableSlices, npu`allocatedSlices, npu`view, npu`footprint, npu`nextSliceIndex
    ensures npu.Valid() && fresh(npu.footprint - old(npu.footprint))
    ensures npu.view == Card(npu.info, [FullCardSlice(npu.info)], [], npu.supportTemplates, 1)
  {
    OfferOnly(npu, FullCardSlice(npu.info), held);
    npu.nextSliceIndex := 1;
    npu.view := npu.view.(next := 1);
  }

  // ---- The manager ----

  class VNPUManager {
    var physicalNPUs: map<string, PhysicalNPUState>
    const templates: map<string, Template>
    const callback: DeviceTable
    ghost var Repr: set<object>

    ghost predicate Valid()
      reads this, Repr
    {
      this in Repr && callback !in Repr && forall n :: n in physicalNPUs ==> CardValid(n)
    }

    ghost predicate CardValid(n: string)
      requires n in physicalNPUs
      reads this, Repr
    {
      var npu := physicalNPUs[n];
      npu in Repr && npu.info.deviceName == n && npu.footprint <= Repr && npu.Valid()
    }

    ghost function Cards(): map<string, Card>
      reads this, physicalNPUs.Values
    {
      map n | n in physicalNPUs :: physicalNPUs[n].view
    }

    ghost function View(): Plant
      reads this, physicalNPUs.Values, callback
    {
      Plant(templates, Cards(), callback.devices)
    }

    constructor (templates: map<string, Template>, callback: DeviceTable)
      ensures Valid() && View() == Plant(templates, map[], callback.devices)
      ensures this.callback == callback && fresh(Repr)
    {
      physicalNPUs := map[];
      this.templates, this.callback := templates, callback;
      Repr := {this};
    }

    method InitPhysicalNPU(deviceName: string, logicID: int, phyID: int, model: string, uuid: string)
      requires Valid()
      modifies this
      ensures Valid() && fresh(Repr - old(Repr))
      ensures deviceName in old(physicalNPUs) ==> Cards() == old(Cards())
      ensures deviceName !in old(physicalNPUs) ==>
                Cards()
                == old(Cards())[deviceName := FreshCard(Info(deviceName, logicID, phyID, uuid, model), templates)]
    {
      if deviceName in physicalNPUs {
        return;
      }
      var npu := new PhysicalNPUState.Fresh(Info(deviceName, logicID, phyID, uuid, model), templates);
      AddCard(npu);
    }

    /** A new card joins the map under its own name. */
    method AddCard(npu: PhysicalNPUState)
      requires Valid() && npu.Valid() && npu.info.deviceName !in physicalNPUs
      modifies this
      ensures Valid() && Repr == old(Repr) + {npu} + npu.footprint
      ensures Cards() == old(Cards())[npu.info.deviceName := npu.view]
    {
      physicalNPUs := physicalNPUs[npu.info.deviceName := npu];
      Repr := Repr + {npu} + npu.footprint;
      OneMoreCard(npu);
      OneViewChanged(npu.info.deviceName);
    }

    /** The cards' values when only the card of this name is new or changed. */
    twostate lemma OneViewChanged(n: string)
      requires n in physicalNPUs && physicalNPUs == old(physicalNPUs)[n := physicalNPUs[n]] && SameViewsBut(n)
      ensures Cards() == old(Cards())[n := physicalNPUs[n].view]
    {
      assert Cards().Keys == old(Cards()).Keys + {n};
    }

    twostate predicate SameViewsBut(n: string)
      reads this, physicalNPUs.Values
    {
      forall m | m in old(physicalNPUs) && m != n ::
        m in physicalNPUs && physicalNPUs[m].view == old(physicalNPUs[m].view)
    }

    twostate lemma OneMoreCard(npu: PhysicalNPUState)
      requires old(Valid()) && npu.Valid() && npu.info.deviceName !in old(physicalNPUs)
      requires physicalNPUs == old(physicalNPUs)[npu.info.deviceName := npu]
      requires Repr == old(Repr) + {npu} + npu.footprint
      requires forall c: PhysicalNPUState :: c in old(Repr) ==> unchanged(c)
      requires forall s: VNPUSlice :: s in old(Repr) ==> unchanged(s)
      ensures Valid() && SameViewsBut(npu.info.deviceName)
    {
      assert CardValid(npu.info.deviceName);
      forall n | n in old(physicalNPUs) ensures CardValid(n) && physicalNPUs[n].view == old(physicalNPUs[n].view) {
        assert old(CardValid(n));
        CardKept(n);
      }
    }

    /** A card that nobody wrote to stays valid while the manager gets more cards. */
    twostate lemma CardKept(n: string)
      requires n in old(physicalNPUs) && old(CardValid(n)) && old(Repr) <= Repr
      requires n in physicalNPUs && physicalNPUs[n] == old(physicalNPUs[n]) && unchanged(physicalNPUs[n])
      requires forall s :: s in physicalNPUs[n].footprint ==> unchanged(s)
      ensures CardValid(n) && physicalNPUs[n].view == old(physicalNPUs[n].view)
    {
    }

    /** findPhysicalNPUByAvailableSlice: the cards are tried in any order. */
    method FindByAvailableSlice(id: string) returns (npu: PhysicalNPUState?, ghost name: string)
      requires Valid()
      ensures npu == null ==> NoneOffers(View(), id)
      ensures npu != null ==> name in physicalNPUs && physicalNPUs[name] == npu && Offers(npu.view, id)
    {
      var todo := physicalNPUs.Keys;
      while todo != {}
        invariant todo <= physicalNPUs.Keys
        invariant forall n :: n in physicalNPUs && n !in todo ==> !Offers(physicalNPUs[n].view, id)
      {
        var n :| n in todo;
        assert CardValid(n);
        var found := FirstOffer(physicalNPUs[n], id);
        if found.Some? {
          return physicalNPUs[n], n;
        }
        todo := todo - {n};
      }
      return null, "";
    }

    /** findAllocatedSlice: cards in any order, slices in list order. */
    method FindAllocatedSlice(id: string) returns (npu: PhysicalNPUState?, ghost name: string, at: nat)
      requires Valid()
      ensures npu == null ==> NoneHolds(View(), id)
      ensures npu != null ==> name in physicalNPUs && physicalNPUs[name] == npu && HoldsAt(npu.view, id, at)
    {
      var todo := physicalNPUs.Keys;
      while todo != {}
        invariant todo <= physicalNPUs.Keys
        invariant forall n :: n in physicalNPUs && n !in todo ==> !Holds(physicalNPUs[n].view, id)
      {
        var n :| n in todo;
        assert CardValid(n);
        var found := HeldPosition(physicalNPUs[n], id);
        if found.Some? {
          return physicalNPUs[n], n, found.value;
        }
        todo := todo - {n};
      }
      return null, "", 0;
    }

    /** One card was changed in place by its own method; every other card is as it was. */
    twostate lemma OthersUntouched(n: string)
      requires old(Valid()) && physicalNPUs == old(physicalNPUs) && n in physicalNPUs
      requires Repr >= old(Repr) && this in Repr && callback !in Repr
      requires forall c: PhysicalNPUState :: c in old(Repr) && c != physicalNPUs[n] ==> unchanged(c)
      requires forall s: VNPUSlice :: s in old(Repr) && s !in old(physicalNPUs[n].footprint) ==> unchanged(s)
      requires physicalNPUs[n].Valid() && physicalNPUs[n].footprint <= Repr
      ensures Valid() && SameViewsBut(n)
    {
      assert old(CardValid(n));
      forall m | m in physicalNPUs && m != n
        ensures CardValid(m) && physicalNPUs[m].view == old(physicalNPUs[m].view)
      {
        assert old(CardValid(m));
        assert physicalNPUs[m] != physicalNPUs[n];
        forall s | s in old(physicalNPUs[m].footprint) ensures unchanged(s) {
          assert old(s.owner) == physicalNPUs[m];
        }
      }
      assert CardValid(n);
    }

    method AllocateSlice(deviceName: string, cores: int, memory: int) returns (slice: VNPUSlice?, ghost got: Slice)
      requires Valid()
      modifies Repr, callback
      ensures Valid() && fresh(Repr - old(Repr))
      ensures slice != null ==> slice.Is(got)
      ensures AllocateStep(old(View()), deviceName, cores, memory, View(), Got(slice, got))
    {
      var npu, n := FindByAvailableSlice(deviceName);
      ghost var p := View();
      if npu == null {
        NothingAllocated(p, deviceName, cores, memory);
        return null, FullCardSlice(Info("", 0, 0, "", ""));
      }
      slice, got := AllocateOn(n, npu, deviceName, cores, memory);
      AllocatedOn(p, n, deviceName, cores, memory, View(), npu.view, Got(slice, got));
    }

    method AllocateOn(ghost n: string, npu: PhysicalNPUState, deviceName: string, cores: int, memory: int)
      returns (slice: VNPUSlice?, ghost got: Slice)
      requires Valid() && n in physicalNPUs && physicalNPUs[n] == npu && Offers(npu.view, deviceName)
      modifies Repr, callback
      ensures Valid() && fresh(Repr - old(Repr))
      ensures Cards() == old(Cards())[n := npu.view]
      ensures slice != null ==> slice.Is(got)
      ensures AllocatesCard(old(npu.view), old(callback.devices), deviceName, cores, memory,
                            npu.view, callback.devices, Got(slice, got))
    {
      assert CardValid(n);
      slice, got := AllocateOnCard(npu, callback, deviceName, cores, memory);
      Repr := Repr + npu.footprint;
      OthersUntouched(n);
      OneViewChanged(n);
    }

    method ReleaseSlice(sliceID: string) returns (ok: bool)
      requires Valid()
      modifies Repr, callback
      ensures Valid() && fresh(Repr - old(Repr))
      ensures ReleaseStep(old(View()), sliceID, View(), ok)
    {
      var npu, n, at := FindAllocatedSlice(sliceID);
      ghost var p := View();
      if npu == null {
        return false;
      }
      ReleaseOn(n, npu, at);
      ReleasedOn(p, n, at, sliceID, View(), npu.view);
      return true;
    }

    method ReleaseOn(ghost n: string, npu: PhysicalNPUState, at: nat)
      requires Valid() && n in physicalNPUs && physicalNPUs[n] == npu && at < |npu.view.held|
      modifies Repr, callback
      ensures Valid() && fresh(Repr - old(Repr))
      ensures Cards() == old(Cards())[n := npu.view]
      ensures ReleasesCard(templates, old(npu.view), old(callback.devices), at, npu.view, callback.devices)
    {
      assert CardValid(n);
      ReleaseOnCard(npu, callback, at, templates);
      Repr := Repr + npu.footprint;
      OthersUntouched(n);
      OneViewChanged(n);
    }
  }

  // ---- Publication ----

  /** getAvailableDeviceNames: the whole table in core mode or without a manager, else the live slices. */
  method GetAvailableDeviceNames(core: bool, table: DeviceTable, m: VNPUManager?) returns (names: seq<string>)
    requires m != null ==> m.Valid() && m.callback == table
    ensures core || m == null ==> forall id :: id in names <==> id in table.devices
    ensures !core && m != null ==> forall id :: id in names <==> Live(m.View(), id)
  {
    if core || m == null {
      names := [];
      var todo := table.devices.Keys;
      while todo != {}
        invariant todo <= table.devices.Keys && forall id :: id in names <==> id in table.devices && id !in todo
      {
        var id :| id in todo;
        names := names + [id];
        todo := todo - {id};
      }
      return;
    }
    names := LiveNames(m);
  }

  /** The names of every slice in a snapshot of the card. */
  method CardNames(npu: PhysicalNPUState) returns (names: seq<string>)
    requires npu.Valid()
    ensures forall id :: id in names <==> Carries(npu.view, id)
  {
    var snapshot := ClonePhysicalNPU(npu);
    names := SliceNames(snapshot);
  }

  method LiveNames(m: VNPUManager) returns (names: seq<string>)
    requires m.Valid()
    ensures forall id :: id in names <==> Live(m.View(), id)
  {
    names := [];
    ghost var p := m.View();
    var todo := m.physicalNPUs.Keys;
    while todo != {}
      invariant todo <= m.physicalNPUs.Keys && m.Valid() && m.View() == p
      invariant forall id :: id in names <==> exists n :: n in p.cards && n !in todo && Carries(p.cards[n], id)
    {
      var n :| n in todo;
      assert m.CardValid(n) && p.cards[n] == m.physicalNPUs[n].view;
      var more := CardNames(m.physicalNPUs[n]);
      names := names + more;
      todo := todo - {n};
    }
  }

  method SliceNames(npu: PhysicalNPUState) returns (names: seq<string>)
    requires npu.Reaches() && npu.ShowsBoth()
    ensures forall id :: id in names <==> Carries(npu.view, id)
  {
    names := [];
    ghost var c := npu.view;
    ghost var n := |c.available|;
    for i := 0 to |npu.availableSlices|
      invariant |names| == i && forall k :: 0 <= k < i ==> names[k] == c.available[k].id
    {
      assert npu.availableSlices[i].Is(c.available[i]);
      names := names + [npu.availableSlices[i].sliceID];
    }
    for i := 0 to |npu.allocatedSlices|
      invariant |names| == n + i
      invariant forall k :: 0 <= k < n ==> names[k] == c.available[k].id
      invariant forall k :: 0 <= k < i ==> names[n + k] == c.held[k].id
    {
      assert npu.allocatedSlices[i].Is(c.held[i]);
      names := names + [npu.allocatedSlices[i].sliceID];
    }
    forall id ensures id in names <==> Carries(c, id) {
      if id in names {
        var k :| 0 <= k < |names| && names[k] == id;
        assert if k < n then c.available[k].id == id else HoldsAt(c, id, k - n);
      }
      if Holds(c, id) {
        var k :| 0 <= k < |c.held| && HoldsAt(c, id, k);
        assert names[n + k] == id;
      }
    }
  }

  /** syncAllocatable: prune the table to available names and publish every device left, in map order. */
  method SyncAllocatable(core: bool, table: DeviceTable, m: VNPUManager?) returns (published: seq<Device>)
    requires m != null ==> m.Valid() && m.callback == table
    modifies table
    ensures core || m == null ==> table.devices == old(table.devices)
    ensures !core && m != null ==> m.Valid() && m.View() == Synced(old(m.View()))
    ensures Lists(published, table.devices)
  {
    var names := GetAvailableDeviceNames(core, table, m);
    if core || m == null {
      Prune(table, names);
      assert table.devices == old(table.devices);
    } else {
      PruneToLive(m, names);
    }
    published := Listed(table.devices);
  }

  method PruneToLive(m: VNPUManager, names: seq<string>)
    requires m.Valid() && forall id :: id in names <==> Live(m.View(), id)
    modifies m.callback
    ensures m.Valid() && m.View() == Synced(old(m.View()))
  {
    ghost var p := m.View();
    ghost var kept := Synced(p).table;
    assert kept == map id | id in p.table && id in names :: p.table[id];
    Prune(m.callback, names);
  }

  method Prune(table: DeviceTable, names: seq<string>)
    modifies table
    ensures table.devices == map id | id in old(table.devices) && id in names :: old(table.devices)[id]
  {
    var todo := table.devices.Keys;
    while todo != {}
      invariant todo <= old(table.devices).Keys
      invariant table.devices == map id | id in old(table.devices) && (id in todo || id in names) ::
                old(table.devices)[id]
    {
      var id :| id in todo;
      if id !in names {
        table.devices := table.devices - {id};
      }
      todo := todo - {id};
    }
  }

  ghost predicate Lists(devices: seq<Device>, table: map<string, Device>) {
    |devices| == |table| && forall d :: d in devices <==> exists id :: id in table && table[id] == d
  }

  method Listed(table: map<string, Device>) returns (devices: seq<Device>)
    ensures Lists(devices, table)
  {
    devices := [];
    var todo := table.Keys;
    assert |table| == |table.Keys|;
    while todo != {}
      invariant todo <= table.Keys && |devices| + |todo| == |table|
      invariant forall d :: d in devices <==> exists id :: id in table && id !in todo && table[id] == d
    {
      var id :| id in todo;
      devices := devices + [table[id]];
      todo := todo - {id};
    }
  }
}
