/** The query for the ports that could be patched, against the guard that decides whether they may be. */
module CandidatePorts {
  import opened Sequences
  import opened Universes
  import opened PortManagers

  /** What the reply says of one device. */
  datatype Offer = Offer(inputs: seq<Port>, outputs: seq<Port>)

  /** The unbound ports of a list, in order. */
  function Unbound(list: seq<Port>): (r: seq<Port>)
    reads (set p | p in list)`universe
    ensures forall p :: p in r ==> p in list && p.universe == null
    ensures forall p :: p in list && p.universe == null ==> p in r
  {
    if list == [] then []
    else
      var rest := Unbound(list[..|list| - 1]);
      var last := list[|list| - 1];
      assert list == list[..|list| - 1] + [last];
      if last.universe == null then rest + [last] else rest
  }

  /** `at` are the positions of the unbound ports of a list, in order. */
  ghost predicate UnboundAt(list: seq<Port>, at: seq<nat>)
    reads (set p | p in list)`universe
  {
    && (forall k :: 0 <= k < |at| ==> at[k] < |list| && list[at[k]].universe == null && forall j :: 0 <= j < k ==> at[j] < at[k])
    && forall i: nat :: i < |list| && list[i].universe == null ==> i in at
  }

  /** `offered` is all unbound ports of a list, each as often as it is listed, in order. */
  ghost predicate AllUnbound(list: seq<Port>, offered: seq<Port>)
    reads (set p | p in list)`universe
  {
    exists at: seq<nat> :: UnboundAt(list, at) && |at| == |offered| && forall k :: 0 <= k < |at| ==> at[k] < |list| && offered[k] == list[at[k]]
  }

  /** `offered` is the first unbound port of a list, or nothing if there is none. */
  ghost predicate FirstUnboundOnly(list: seq<Port>, offered: seq<Port>)
    reads (set p | p in list)`universe
  {
    || (offered == [] && forall p :: p in list ==> p.universe != null)
    || exists i :: 0 <= i < |list| && offered == [list[i]] && list[i].universe == null && forall j :: 0 <= j < i ==> list[j].universe != null
  }

  lemma {:induction false} Positions(list: seq<Port>) returns (at: seq<nat>)
    ensures UnboundAt(list, at) && |at| == |Unbound(list)|
    ensures forall k :: 0 <= k < |at| ==> at[k] < |list| && Unbound(list)[k] == list[at[k]]
  {
    at := [];
    if list != [] {
      var n := |list| - 1;
      at := Positions(list[..n]);
      forall i: nat | i < n && list[i].universe == null
        ensures i in at
      {
        assert list[..n][i] == list[i];
      }
      if list[n].universe == null {
        at := at + [n];
      }
    }
  }

  lemma UnboundIsAll(list: seq<Port>)
    ensures AllUnbound(list, Unbound(list))
    ensures FirstUnboundOnly(list, if Unbound(list) == [] then [] else [Unbound(list)[0]])
  {
    var at := Positions(list);
    hide Unbound;
    if at == [] {
      forall p | p in list
        ensures p.universe != null
      {
        var i: nat :| i < |list| && list[i] == p;
        assert i !in at;
      }
    } else {
      forall j: nat | j < at[0]
        ensures list[j].universe != null
      {
        assert j !in at;
      }
    }
  }

  /** Whether some port of the list is bound to `universe`, and how many are unbound. */
  method Survey(list: seq<Port>, universe: Universe) returns (seen: bool, unpatched: nat)
    ensures seen <==> exists p :: p in list && p.universe == universe
    ensures unpatched == |Unbound(list)|
  {
    seen, unpatched := false, 0;
    for i := 0 to |list|
      invariant seen <==> exists p :: p in list[..i] && p.universe == universe
      invariant unpatched == |Unbound(list[..i])|
    {
      assert list[..i + 1][..i] == list[..i] && list[..i + 1] == list[..i] + [list[i]];
      if list[i].universe == universe {
        seen := true;
      } else if list[i].universe == null {
        unpatched := unpatched + 1;
      }
    }
    assert list[..|list|] == list;
  }

  /** What is offered of a list: nothing if no port of it may join, else its unbound ports, or just the first of them. */
  function Selection(list: seq<Port>, canBind: bool, multi: bool): seq<Port>
    reads (set p | p in list)`universe
  {
    if !canBind || Unbound(list) == [] then [] else if multi then Unbound(list) else [Unbound(list)[0]]
  }

  method Select(list: seq<Port>, canBind: bool, multi: bool) returns (offered: seq<Port>)
    ensures offered == Selection(list, canBind, multi)
  {
    offered := [];
    if !canBind {
      return;
    }
    for i := 0 to |list|
      invariant offered == Unbound(list[..i])
      invariant multi || offered == []
    {
      assert list[..i + 1][..i] == list[..i] && list[..i + 1] == list[..i] + [list[i]];
      if list[i].universe == null {
        offered := offered + [list[i]];
        if !multi {
          FirstUnbound(list, i);
          return;
        }
      }
    }
    assert list[..|list|] == list;
  }

  /** If nothing before position `i` is unbound, the unbound ports start with the one at `i`. */
  lemma {:induction false} FirstUnbound(list: seq<Port>, i: nat)
    requires i < |list| && Unbound(list[..i]) == [] && list[i].universe == null
    ensures Unbound(list) != [] && Unbound(list)[0] == list[i]
  {
    if i == |list| - 1 {
    } else {
      assert list[..|list| - 1][..i] == list[..i];
      FirstUnbound(list[..|list| - 1], i);
    }
  }

  /** Being bound to the stored universe `u` is the same as being bound to a universe with its id. */
  lemma SameUniverse(manager: PortManager, device: Device, u: Universe, direction: Direction)
    requires manager.Valid() && device in manager.devices && manager.store.Stores(u)
    ensures Matches(device.Ports(direction), u.id) <==> exists p :: p in device.Ports(direction) && p.universe == u
  {
    hide PortManager.Legal;
    hide UniverseStore.EachSound;
    hide ById;
    assert manager.ListsOwn(device);
    forall p | p in device.Ports(direction) && p.universe != null && p.universe.id == u.id
      ensures p.universe == u
    {
      assert p in manager.ports && manager.store.Stores(p.universe);
    }
  }

  /** The query's flag for one direction is the guard's verdict on every unbound port of that direction. */
  lemma FlagIsGuard(manager: PortManager, device: Device, u: Universe, port: Port)
    requires manager.Valid() && device in manager.devices && manager.store.Stores(u)
    requires port in device.Ports(port.direction) && port.universe == null
    ensures manager.Refused(port, u.id) <==>
              || (!device.allowLooping && exists p :: p in device.Ports(Opposite(port.direction)) && p.universe == u)
              || (!device.allowMultiPortPatching && exists p :: p in device.Ports(port.direction) && p.universe == u)
  {
    hide PortManager.Linked;
    hide PortManager.Legal;
    hide UniverseStore.EachSound;
    hide UniverseStore.Filed;
    hide Matches;
    assert manager.ListsOwn(device);
    SameUniverse(manager, device, u, port.direction);
    SameUniverse(manager, device, u, Opposite(port.direction));
  }

  /** The two flags the query computes for a device are the guard's verdicts on all its unbound ports. */
  lemma FlagsAreGuards(manager: PortManager, device: Device, u: Universe, canBindInputs: bool, canBindOutputs: bool)
    requires manager.Valid() && device in manager.devices && manager.store.Stores(u)
    requires canBindInputs <==> (device.allowLooping || forall p :: p in device.outputs ==> p.universe != u)
                                && (device.allowMultiPortPatching || forall p :: p in device.inputs ==> p.universe != u)
    requires canBindOutputs <==> (device.allowLooping || forall p :: p in device.inputs ==> p.universe != u)
                                 && (device.allowMultiPortPatching || forall p :: p in device.outputs ==> p.universe != u)
    ensures forall p :: p in device.inputs && p.universe == null ==> (manager.Refused(p, u.id) <==> !canBindInputs)
    ensures forall p :: p in device.outputs && p.universe == null ==> (manager.Refused(p, u.id) <==> !canBindOutputs)
  {
    hide PortManager.Refused;
    hide PortManager.Linked;
    hide PortManager.Legal;
    hide UniverseStore.EachSound;
    hide UniverseStore.Filed;
    hide ById;
    assert manager.ListsOwn(device);
    forall p | p in device.inputs + device.outputs && p.universe == null
      ensures manager.Refused(p, u.id) <==> !(if p.direction.Input? then canBindInputs else canBindOutputs)
    {
      FlagIsGuard(manager, device, u, p);
    }
  }

  /** Some unbound port of the list would be accepted on universe `id`. */
  ghost predicate SomeAccepted(manager: PortManager, list: seq<Port>, id: nat)
    reads *
  {
    exists p :: p in list && p.universe == null && !manager.Refused(p, id)
  }

  /**
   * `offered` holds only unbound ports of `list` that would be accepted; if there is any, it holds all unbound ports, in
   * order, on a device that allows multi-port patching, and just the first on another.
   */
  ghost predicate RightlyOffered(manager: PortManager, list: seq<Port>, offered: seq<Port>, multi: bool, id: nat)
    reads *
  {
    && (forall p :: p in offered ==> p in list && p.universe == null && !manager.Refused(p, id))
    && if SomeAccepted(manager, list, id) then if multi then AllUnbound(list, offered) else FirstUnboundOnly(list, offered)
       else offered == []
  }

  /** If the flag of a direction is the guard's verdict, the ports selected by the flag are rightly offered. */
  lemma SelectionIsRight(manager: PortManager, list: seq<Port>, canBind: bool, multi: bool, id: nat)
    requires forall p :: p in list && p.universe == null ==> (manager.Refused(p, id) <==> !canBind)
    ensures RightlyOffered(manager, list, Selection(list, canBind, multi), multi, id)
    ensures SomeAccepted(manager, list, id) <==> canBind && Unbound(list) != []
  {
    hide PortManager.Refused;
    hide AllUnbound;
    hide FirstUnboundOnly;
    UnboundIsAll(list);
    if Unbound(list) != [] {
      var first := Unbound(list)[0];
      assert first in Unbound(list);
    }
  }

  /**
   * The offer for one device and one stored universe, or none if the device is not listed. It is listed exactly when
   * PatchPort would accept some unbound port of it.
   */
  method OfferFor(manager: PortManager, device: Device, universe: Universe) returns (offer: Option<Offer>)
    requires manager.Valid() && device in manager.devices && manager.store.Stores(universe)
    ensures offer.Some? <==> SomeAccepted(manager, device.inputs, universe.id) || SomeAccepted(manager, device.outputs, universe.id)
    ensures offer.Some? ==>
              && RightlyOffered(manager, device.inputs, offer.value.inputs, device.allowMultiPortPatching, universe.id)
              && RightlyOffered(manager, device.outputs, offer.value.outputs, device.allowMultiPortPatching, universe.id)
  {
    hide PortManager.Valid;
    hide PortManager.Refused;
    hide Unbound;
    hide SomeAccepted;
    hide RightlyOffered;
    var seenInput, unpatchedInputs := Survey(device.inputs, universe);
    var seenOutput, unpatchedOutputs := Survey(device.outputs, universe);
    var canBindInputs := (!seenOutput || device.allowLooping) && (!seenInput || device.allowMultiPortPatching);
    var canBindOutputs := (!seenInput || device.allowLooping) && (!seenOutput || device.allowMultiPortPatching);
    FlagsAreGuards(manager, device, universe, canBindInputs, canBindOutputs);
    SelectionIsRight(manager, device.inputs, canBindInputs, device.allowMultiPortPatching, universe.id);
    SelectionIsRight(manager, device.outputs, canBindOutputs, device.allowMultiPortPatching, universe.id);
    if (unpatchedInputs == 0 || !canBindInputs) && (unpatchedOutputs == 0 || !canBindOutputs) {
      return None;
    }
    var inputs := Select(device.inputs, canBindInputs, device.allowMultiPortPatching);
    var outputs := Select(device.outputs, canBindOutputs, device.allowMultiPortPatching);
    return Some(Offer(inputs, outputs));
  }

  /** A device in the reply, with its offer. */
  datatype Listing = Listing(device: Device, offer: Offer)

  /** Whether the query is to list a device: without a universe, whenever it has a port, bound or not. */
  ghost predicate Listable(manager: PortManager, device: Device, request: Option<nat>)
    reads *
  {
    match request
    case None => device.inputs + device.outputs != []
    case Some(id) => SomeAccepted(manager, device.inputs, id) || SomeAccepted(manager, device.outputs, id)
  }

  /** `at` are the positions of the devices to list, in order. */
  ghost predicate ListableAt(manager: PortManager, devices: seq<Device>, request: Option<nat>, at: seq<nat>)
    reads *
  {
    && (forall k :: 0 <= k < |at| ==> at[k] < |devices| && Listable(manager, devices[at[k]], request) && forall j :: 0 <= j < k ==> at[j] < at[k])
    && forall i: nat :: i < |devices| && Listable(manager, devices[i], request) ==> i in at
  }

  lemma ListableOneMore(manager: PortManager, devices: seq<Device>, request: Option<nat>, at: seq<nat>, i: nat)
    requires i < |devices| && ListableAt(manager, devices[..i], request, at)
    ensures Listable(manager, devices[i], request) ==> ListableAt(manager, devices[..i + 1], request, at + [i])
    ensures !Listable(manager, devices[i], request) ==> ListableAt(manager, devices[..i + 1], request, at)
    ensures Listable(manager, devices[i], request) <==>
              match request
              case None => devices[i].inputs + devices[i].outputs != []
              case Some(id) => SomeAccepted(manager, devices[i].inputs, id) || SomeAccepted(manager, devices[i].outputs, id)
  {
    hide SomeAccepted;
    forall k: nat | k < i
      ensures devices[..i + 1][k] == devices[..i][k] == devices[k]
    {
    }
  }

  /** What a listing must offer. Without a universe there is no guard to ask: the unbound ports are offered as they are. */
  ghost predicate RightListing(manager: PortManager, listing: Listing, request: Option<nat>)
    reads *
  {
    var device, offer := listing.device, listing.offer;
    match request
    case None =>
      && (if device.allowMultiPortPatching then AllUnbound(device.inputs, offer.inputs) else FirstUnboundOnly(device.inputs, offer.inputs))
      && (if device.allowMultiPortPatching then AllUnbound(device.outputs, offer.outputs) else FirstUnboundOnly(device.outputs, offer.outputs))
    case Some(id) =>
      && RightlyOffered(manager, device.inputs, offer.inputs, device.allowMultiPortPatching, id)
      && RightlyOffered(manager, device.outputs, offer.outputs, device.allowMultiPortPatching, id)
  }

  /** The listing for one device, or none if it is not to be listed. */
  method ListingFor(manager: PortManager, device: Device, universe: Universe?, request: Option<nat>) returns (listing: Option<Listing>)
    requires manager.Valid() && device in manager.devices
    requires if universe == null then request == None else request == Some(universe.id) && manager.store.Stores(universe)
    ensures listing.Some? <==> Listable(manager, device, request)
    ensures listing.Some? ==> listing.value.device == device && RightListing(manager, listing.value, request)
  {
    hide PortManager.Valid;
    hide Selection;
    hide SomeAccepted;
    hide RightlyOffered;
    hide AllUnbound;
    hide FirstUnboundOnly;
    if universe != null {
      var offer := OfferFor(manager, device, universe);
      return if offer.Some? then Some(Listing(device, offer.value)) else None;
    }
    if device.inputs == [] && device.outputs == [] {
      return None;
    }
    var inputs := Select(device.inputs, true, device.allowMultiPortPatching);
    var outputs := Select(device.outputs, true, device.allowMultiPortPatching);
    AllIsRight(device.inputs, device.allowMultiPortPatching);
    AllIsRight(device.outputs, device.allowMultiPortPatching);
    return Some(Listing(device, Offer(inputs, outputs)));
  }

  /** The whole query: an error for a universe that does not exist, else every listable device with its offer. */
  method GetCandidatePorts(manager: PortManager, devices: seq<Device>, request: Option<nat>) returns (reply: Option<seq<Listing>>, ghost at: seq<nat>)
    requires manager.Valid() && forall d :: d in devices ==> d in manager.devices
    ensures reply.None? <==> request.Some? && request.value !in manager.store.universes
    ensures reply.Some? ==> ListableAt(manager, devices, request, at)
    ensures reply.Some? ==> |reply.value| == |at| && forall k :: 0 <= k < |at| ==> at[k] < |devices| && reply.value[k].device == devices[at[k]]
    ensures reply.Some? ==> forall l :: l in reply.value ==> RightListing(manager, l, request)
  {
    hide PortManager.Valid;
    hide Selection;
    hide SomeAccepted;
    hide RightlyOffered;
    hide AllUnbound;
    hide FirstUnboundOnly;
    var universe: Universe? := null;
    if request.Some? {
      if request.value !in manager.store.universes {
        return None, [];
      }
      universe := manager.store.universes[request.value];
      StoredUnderItsId(manager, universe, request.value);
    }
    hide Listable;
    hide RightListing;
    assert ListableAt(manager, devices[..0], request, []);
    hide ListableAt;
    var listings: seq<Listing> := [];
    at := [];
    for i := 0 to |devices|
      invariant ListableAt(manager, devices[..i], request, at)
      invariant |listings| == |at| && forall k :: 0 <= k < |at| ==> at[k] < i && listings[k].device == devices[at[k]]
      invariant forall l :: l in listings ==> RightListing(manager, l, request)
    {
      ListableOneMore(manager, devices, request, at, i);
      var listing := ListingFor(manager, devices[i], universe, request);
      if listing.Some? {
        listings, at := listings + [listing.value], at + [i];
      }
    }
    assert devices[..|devices|] == devices;
    return Some(listings), at;
  }

  lemma AllIsRight(list: seq<Port>, multi: bool)
    ensures var offered := Selection(list, true, multi); if multi then AllUnbound(list, offered) else FirstUnboundOnly(list, offered)
  {
    UnboundIsAll(list);
  }

  lemma StoredUnderItsId(manager: PortManager, u: Universe, id: nat)
    requires manager.Valid() && id in manager.store.universes && manager.store.universes[id] == u
    ensures manager.store.Stores(u) && u.id == id
  {
    hide PortManager.Linked;
    hide PortManager.Legal;
    hide PortManager.Owned;
    hide UniverseStore.EachSound;
  }

  /** Without a universe in the request a device that has ports is listed, with nothing to offer exactly if all are bound. */
  lemma BoundDeviceListedInVain(manager: PortManager, l: Listing)
    requires RightListing(manager, l, None)
    ensures Listable(manager, l.device, None) <==> l.device.inputs + l.device.outputs != []
    ensures l.offer == Offer([], []) <==> forall p :: p in l.device.inputs + l.device.outputs ==> p.universe != null
  {
    NoneOffered(l.device.inputs, l.offer.inputs, l.device.allowMultiPortPatching);
    NoneOffered(l.device.outputs, l.offer.outputs, l.device.allowMultiPortPatching);
    assert forall p :: p in l.device.inputs + l.device.outputs <==> p in l.device.inputs || p in l.device.outputs;
  }

  lemma NoneOffered(list: seq<Port>, offered: seq<Port>, multi: bool)
    requires if multi then AllUnbound(list, offered) else FirstUnboundOnly(list, offered)
    ensures offered == [] <==> forall p :: p in list ==> p.universe != null
  {
    if multi {
      var at: seq<nat> :| UnboundAt(list, at) && |at| == |offered|;
      if offered != [] {
        assert list[at[0]] in list;
      }
    }
  }

  /**
   * Patching the ports offered for one direction of a multi-patch device, one after another, to the universe they were
   * offered for: none is refused, so the offer does not spoil itself as it is taken up.
   */
  method PatchAll(manager: PortManager, offered: seq<Port>, device: Device, universe: Universe)
    requires manager.Valid() && manager.store.Stores(universe)
    requires device.allowMultiPortPatching
    requires forall p :: p in offered ==> p in manager.ports && p.device == device && p.universe == null
    requires forall p, q :: p in offered && q in offered ==> p.direction == q.direction
    requires forall p :: p in offered ==> !manager.Refused(p, universe.id)
    modifies manager.broker, manager.store, (set p | p in offered)`universe
    modifies universe`inputs, universe`outputs, universe`inputCount, universe`outputCount
    modifies universe`uids, universe`uidCount, universe`notifiedPorts, universe`bound, universe`touched
    ensures manager.Valid()
    ensures forall p :: p in offered ==> p.universe == universe
  {
    hide PortManager.Owned;
    hide PortManager.Linked;
    hide PortManager.Legal;
    hide PortManager.Refused;
    hide UniverseStore.EachSound;
    hide UniverseStore.Filed;
    for i := 0 to |offered|
      invariant manager.Valid() && manager.store.Stores(universe)
      invariant forall p :: p in offered[..i] ==> p.universe == universe
      invariant forall p :: p in offered[i..] ==> p.universe == null || p.universe == universe
      invariant forall p :: p in offered ==> !manager.Refused(p, universe.id)
    {
      label before:
      var port := offered[i];
      assert offered[..i + 1] == offered[..i] + [port];
      var ok := manager.PatchPort(port, universe.id, true);
      manager.SpoilsNoSibling@before(port);
    }
  }
}
