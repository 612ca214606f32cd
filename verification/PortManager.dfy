/** Patching: which port is bound to which universe. */
module PortManagers {
  import opened Sequences
  import opened Dmx
  import opened Universes

  /** The ports that may receive RDM replies. */
  class PortBroker {
    var ports: set<Port>

    constructor ()
      ensures ports == {}
    {
      ports := {};
    }

    method AddPort(port: Port)
      modifies this
      ensures ports == old(ports) + {port}
    {
      ports := ports + {port};
    }

    method RemovePort(port: Port)
      modifies this
      ensures ports == old(ports) - {port}
    {
      ports := ports - {port};
    }
  }

  /** Some port of the list is bound to universe `id`. */
  ghost predicate Matches(ports: seq<Port>, id: nat)
    reads (set p | p in ports)`universe
  {
    exists p :: p in ports && p.universe != null && p.universe.id == id
  }

  function Opposite(direction: Direction): Direction {
    if direction.Input? then Output else Input
  }

  class PortManager {
    const store: UniverseStore
    const broker: PortBroker
    /** Every port and every device that exists. */
    var ports: set<Port>
    var devices: set<Device>

    constructor (store: UniverseStore, broker: PortBroker)
      ensures this.store == store && this.broker == broker && ports == {} && devices == {}
    {
      this.store, this.broker := store, broker;
      ports, devices := {}, {};
    }

    // ---------- the invariants ----------

    /**
     * A port points to a universe exactly when that universe is stored and lists the port, and exactly then the broker
     * knows the port. `loose` is a port in transit: nothing lists it, and its pointer does not count.
     */
    ghost predicate Linked(loose: Port?)
      reads this`ports, store`universes, broker, ports`universe, store.universes.Values`bound
    {
      && (forall id, p :: id in store.universes && p in store.universes[id].bound ==>
            p in ports && p != loose && p.universe == store.universes[id])
      && (forall p :: p in ports && p != loose && p.universe != null ==> store.Stores(p.universe) && p in p.universe.bound)
      && (forall p :: p in ports && p != loose ==> (p in broker.ports <==> p.universe != null))
      && (loose != null ==> loose !in broker.ports)
    }

    /** Each device lists exactly its own ports, by direction and in the order of their ids. */
    ghost predicate Owned()
      reads this, devices
    {
      && (forall d :: d in devices ==> ListsOwn(d))
      && (forall p :: p in ports && p.device != null ==> p.device in devices && p in p.device.Ports(p.direction))
    }

    ghost predicate ListsOwn(d: Device)
      reads this`ports, d
    {
      && ById(d.inputs) && ById(d.outputs)
      && (forall p :: p in d.inputs ==> p in ports && p.device == d && p.direction.Input?)
      && (forall p :: p in d.outputs ==> p in ports && p.device == d && p.direction.Output?)
    }

    /**
     * No device that forbids looping has an input and an output on one universe, and none that forbids multi-port
     * patching has two ports of one direction on one universe.
     */
    ghost predicate Legal()
      reads this`ports, ports`universe
    {
      forall p, q :: p in ports && q in ports && p != q && p.device != null && p.device == q.device
                     && p.universe != null && p.universe == q.universe ==>
        if p.direction == q.direction then p.device.allowMultiPortPatching else p.device.allowLooping
    }

    ghost predicate Valid()
      reads this, store, broker, ports`universe, devices, store.universes.Values
      reads (set u, p | u in store.universes.Values && p in u.notifiedPorts :: p)`written
      reads (set u, c | u in store.universes.Values && c in u.notifiedClients :: c)`received
    {
      store.Filed() && store.EachSound() && Linked(null) && Owned() && Legal()
    }

    // ---------- taking a port off its universe ----------

    /** The port left the universe it points to and the broker; no other list changed, and no pointer. */
    twostate predicate Detached(port: Port)
      reads this, store`universes, broker, ports`universe, port`universe, store.universes.Values`bound
    {
      && unchanged(this, store`universes) && (forall p :: p in ports ==> unchanged(p`universe))
      && broker.ports == old(broker.ports) - {port}
      && forall id :: id in store.universes ==> var u := store.universes[id];
           u.bound == if u == port.universe then old(u.bound) - {port} else old(u.bound)
    }

    twostate lemma DetachedIsLinked(port: Port)
      requires old(Linked(null)) && old(port in ports) && Detached(port)
      ensures Linked(port)
    {
      forall id, p | id in store.universes && p in store.universes[id].bound
        ensures p in ports && p != port && p.universe == store.universes[id]
      {
        assert p in old(store.universes[id].bound);
      }
    }

    lemma PortIsStored(port: Port)
      requires Linked(null) && store.EachSound() && port in ports && port.universe != null
      ensures store.Stores(port.universe) && port.universe.store == store && port.universe.Sound() && port.universe.PortsWf()
      ensures port in port.universe.bound && port in port.universe.Ports(port.direction)
    {
    }

    lemma ListedPortsExist(id: nat)
      requires Linked(null) && id in store.universes
      ensures store.universes[id].bound <= ports
    {
    }

    /** The universe of a port drops it. */
    method Drop(port: Port)
      requires store.Filed() && store.EachSound() && Linked(null) && port in ports && port.universe != null
      modifies store`candidates, port.universe`inputs, port.universe`outputs, port.universe`inputCount
      modifies port.universe`outputCount, port.universe`uids, port.universe`uidCount, port.universe`notifiedPorts, port.universe`bound
      ensures store.Filed() && store.EachSound() && port.universe.bound == old(port.universe.bound) - {port}
      ensures port.universe.uids == var owners := old(port.universe.uids); map u | u in owners && owners[u] != port :: owners[u]
    {
      hide Universe.Sound;
      hide Universe.PortsWf;
      hide Universe.IsActive;
      hide Universe.Synced;
      hide Universe.Collectable;
      hide Universe.ClientsWf;
      hide UniverseStore.EachSound;
      hide Linked;
      hide Erase;
      var universe := port.universe;
      PortIsStored(port);
      universe.RemovePort(port);
      universe.PortLeftStaysSound(port);
      store.OthersStaySound(universe);
    }

    method Detach(port: Port)
      requires store.Filed() && store.EachSound() && Linked(null) && port in ports && port.universe != null
      modifies broker, store`candidates, port.universe`inputs, port.universe`outputs, port.universe`inputCount
      modifies port.universe`outputCount, port.universe`uids, port.universe`uidCount, port.universe`notifiedPorts, port.universe`bound
      ensures store.Filed() && store.EachSound() && Linked(port) && Detached(port)
      ensures port.universe.bound == old(port.universe.bound) - {port}
      ensures port.universe.uids == var owners := old(port.universe.uids); map u | u in owners && owners[u] != port :: owners[u]
    {
      hide UniverseStore.EachSound;
      hide UniverseStore.Filed;
      hide Linked;
      Drop(port);
      broker.RemovePort(port);
      DetachedIsLinked(port);
    }

    // ---------- putting a port on a universe ----------

    /** The port joined the universe it points to, and the broker; no other list and no other pointer changed. */
    twostate predicate Attached(port: Port)
      reads this, store`universes, broker, ports`universe, port`universe, store.universes.Values`bound
    {
      && unchanged(this, store`universes) && (forall p :: p in ports && p != port ==> unchanged(p`universe))
      && port.universe != null && store.Stores(port.universe)
      && broker.ports == old(broker.ports) + {port}
      && forall id :: id in store.universes ==> var v := store.universes[id];
           v.bound == if v == port.universe then old(v.bound) + {port} else old(v.bound)
    }

    twostate lemma AttachedIsLinked(port: Port)
      requires old(Linked(port)) && old(port in ports) && Attached(port)
      ensures Linked(null)
    {
      forall id, p | id in store.universes && p in store.universes[id].bound
        ensures p in ports && p.universe == store.universes[id]
      {
        assert p == port || p in old(store.universes[id].bound);
      }
    }

    method Attach(port: Port, universe: Universe)
      requires store.Filed() && store.EachSound() && Linked(port) && port in ports && store.Stores(universe)
      requires port.universe == universe
      modifies broker, universe`inputs, universe`outputs, universe`inputCount, universe`outputCount, universe`bound, universe`touched
      ensures store.Filed() && store.EachSound() && Linked(null) && Attached(port) && universe.touched
    {
      hide Universe.Sound;
      hide Universe.PortsWf;
      hide Universe.IsActive;
      hide UniverseStore.EachSound;
      hide Linked;
      StoredIsSound(universe);
      broker.AddPort(port);
      universe.AddPort(port);
      universe.PortJoinedStaysSound(port);
      store.OthersStaySound(universe);
      AttachedIsLinked(port);
    }

    lemma StoredIsSound(u: Universe)
      requires store.EachSound() && store.Stores(u)
      ensures u.store == store && u.Sound() && u.PortsWf()
    {
    }

    // ---------- the guards ----------

    /** The device of `port` forbids it to join universe `id`. */
    ghost predicate Refused(port: Port, id: nat)
      reads port`universe, port.device
      reads if port.device == null then {} else (set p | p in port.device.inputs + port.device.outputs)`universe
    {
      && !(port.universe != null && port.universe.id == id)
      && port.device != null
      && (|| (!port.device.allowLooping && Matches(port.device.Ports(Opposite(port.direction)), id))
          || (!port.device.allowMultiPortPatching && Matches(port.device.Ports(port.direction), id)))
    }

    method CheckForPortMatchingUniverse(list: seq<Port>, id: nat) returns (found: bool)
      ensures found <==> Matches(list, id)
    {
      for i := 0 to |list|
        invariant forall j :: 0 <= j < i ==> list[j].universe == null || list[j].universe.id != id
      {
        if list[i].universe != null && list[i].universe.id == id {
          return true;
        }
      }
      return false;
    }

    method CheckGuards(port: Port, id: nat) returns (refused: bool)
      requires !(port.universe != null && port.universe.id == id)
      ensures refused <==> Refused(port, id)
    {
      if port.device == null {
        return false;
      }
      if !port.device.allowLooping {
        refused := CheckForPortMatchingUniverse(port.device.Ports(Opposite(port.direction)), id);
        if refused {
          return;
        }
      }
      if !port.device.allowMultiPortPatching {
        refused := CheckForPortMatchingUniverse(port.device.Ports(port.direction), id);
        return;
      }
      return false;
    }

    /** Only the pointer of `port` has changed, to a universe that the guards allow. */
    twostate lemma AllowedMoveIsLegal(port: Port)
      requires old(Owned() && Legal()) && old(port in ports)
      requires unchanged(this) && forall p :: p in ports && p != port ==> unchanged(p`universe)
      requires port.universe != null
      requires var id := port.universe.id; !old(Refused(port, id)) && !old(port.universe != null && port.universe.id == id)
      ensures Legal()
    {
      var id := port.universe.id;
      forall q | q in ports && q != port && port.device != null && q.device == port.device && q.universe == port.universe
        ensures q.direction == port.direction ==> port.device.allowMultiPortPatching
        ensures q.direction != port.direction ==> port.device.allowLooping
      {
        assert old(q in port.device.Ports(q.direction));
        assert old(Matches(port.device.Ports(q.direction), id));
        assert q.direction != port.direction ==> q.direction == Opposite(port.direction);
      }
    }

    // ---------- patching ----------

    lemma UnboundIsLoose(port: Port)
      requires Linked(null) && port in ports && port.universe == null
      ensures Linked(port) && port !in broker.ports
    {
    }

    twostate lemma CreatedIsLinked(port: Port?)
      requires old(Linked(port))
      requires unchanged(this, broker) && forall p :: p in ports ==> unchanged(p`universe)
      requires forall id :: id in old(store.universes) ==>
                 id in store.universes && store.universes[id] == old(store.universes)[id] && store.universes[id].bound == old(store.universes[id].bound)
      requires forall id :: id in store.universes && id !in old(store.universes) ==> store.universes[id].bound == {}
      ensures Linked(port)
    {
      forall id, p | id in store.universes && p in store.universes[id].bound
        ensures p in ports && p != port && p.universe == store.universes[id]
      {
        assert id in old(store.universes);
      }
      forall p | p in ports && p != port && p.universe != null
        ensures store.Stores(p.universe) && p in p.universe.bound
      {
        assert old(store.Stores(p.universe));
      }
    }

    lemma LooseAndUnbound(port: Port)
      requires Linked(port) && port in ports && port.universe == null
      ensures Linked(null)
    {
    }

    /** A port whose veto kept its old pointer after its universe had already dropped it. */
    lemma LooseAndPointing(port: Port)
      requires Linked(port) && port in ports && port.universe != null
      ensures !Linked(null)
    {
    }

    /** The universes a patch can touch: the one the port is on, and the one it goes to. */
    ghost function Reach(port: Port, id: nat): set<Universe>
      reads port`universe, store`universes
    {
      (if port.universe == null then {} else {port.universe}) + (if id in store.universes then {store.universes[id]} else {})
    }

    /** The pointer of the loose port does not matter. */
    twostate lemma PointerIsIgnored(port: Port)
      requires old(Linked(port)) && unchanged(this, store`universes, broker)
      requires forall p :: p in ports && p != port ==> unchanged(p`universe)
      requires forall id :: id in store.universes ==> unchanged(store.universes[id])
      ensures Linked(port)
    {
    }

    /** Bind a loose port to `universe`, unless the port vetoes it. */
    method Bind(port: Port, universe: Universe, accepts: bool)
      requires store.Filed() && store.EachSound() && Linked(port) && port in ports && store.Stores(universe)
      requires port.universe != universe
      modifies broker, store`candidates, port`universe
      modifies universe`inputs, universe`outputs, universe`inputCount, universe`outputCount, universe`bound, universe`touched
      ensures store.Filed() && store.EachSound()
      ensures port.universe == if accepts then universe else old(port.universe)
      ensures if accepts then Linked(null) else Linked(port)
      ensures universe.bound == if accepts then old(universe.bound) + {port} else old(universe.bound)
      ensures broker.ports == if accepts then old(broker.ports) + {port} else old(broker.ports)
      ensures universe.touched
    {
      hide Universe.Sound;
      hide Universe.PortsWf;
      hide Universe.IsActive;
      hide UniverseStore.EachSound;
      hide Linked;
      StoredIsSound(universe);
      var ok := port.SetUniverse(universe, accepts);
      PointerIsIgnored(port);
      if ok {
        Attach(port, universe);
      } else {
        universe.NotePortRefusal();
        store.OthersStaySound(universe);
      }
    }

    /** The lists, the store and the broker after `port` has moved to universe `id`, or has vetoed the move. */
    twostate predicate Moved(port: Port, id: nat, accepts: bool)
      reads store`universes, broker, port`universe
      reads store.universes.Values`bound, store.universes.Values`sources, store.universes.Values`sinks
    {
      && store.universes.Keys == old(store.universes).Keys + {id}
      && port.universe == (if accepts then store.universes[id] else old(port.universe))
      && broker.ports == (if accepts then old(broker.ports) + {port} else old(broker.ports) - {port})
      && (forall i :: i in old(store.universes) ==>
            var u := store.universes[i];
            && u == old(store.universes)[i]
            && u.bound == if u == old(port.universe) then old(u.bound) - {port} else if i == id && accepts then old(u.bound) + {port} else old(u.bound))
      && (id !in old(store.universes) ==> var u := store.universes[id];
            u.sources.Keys == {} && u.sinks == {} && u.bound == if accepts then {port} else {})
    }

    /** Find or create the universe with this id, and bind the loose port to it unless the port vetoes. */
    method Place(port: Port, id: UniverseId, accepts: bool)
      requires store.Filed() && store.EachSound() && Linked(port) && port in ports
      requires !(port.universe != null && port.universe.id == id)
      modifies broker, store, port`universe
      modifies Reach(port, id)`inputs, Reach(port, id)`outputs, Reach(port, id)`inputCount, Reach(port, id)`outputCount
      modifies Reach(port, id)`bound, Reach(port, id)`touched
      ensures store.Filed() && store.EachSound()
      ensures if accepts then Linked(null) else Linked(port)
      ensures store.universes.Keys == old(store.universes).Keys + {id}
      ensures id !in old(store.universes) ==> fresh(store.universes[id]) && store.universes[id].uids == map[]
      ensures store.universes[id].touched
      ensures port.universe == (if accepts then store.universes[id] else old(port.universe))
      ensures broker.ports == if accepts then old(broker.ports) + {port} else old(broker.ports)
      ensures forall i :: i in old(store.universes) ==>
                var u := store.universes[i];
                u == old(store.universes)[i] && u.bound == if i == id && accepts then old(u.bound) + {port} else old(u.bound)
      ensures id !in old(store.universes) ==> var u := store.universes[id];
        u.sources.Keys == {} && u.sinks == {} && u.bound == if accepts then {port} else {}
    {
      hide Universe.IsActive;
      hide Universe.Sound;
      hide UniverseStore.EachSound;
      hide Linked;
      var universe := store.GetUniverseOrCreate(id);
      CreatedIsLinked(port);
      Bind(port, universe, accepts);
    }

    /** Take a port off its universe, if it is on one. */
    method Release(port: Port)
      requires store.Filed() && store.EachSound() && Linked(null) && port in ports
      modifies broker, store`candidates, On(port)`inputs, On(port)`outputs, On(port)`inputCount, On(port)`outputCount
      modifies On(port)`uids, On(port)`uidCount, On(port)`notifiedPorts, On(port)`bound
      ensures store.Filed() && store.EachSound() && Linked(port) && broker.ports == old(broker.ports) - {port}
      ensures forall u :: u in On(port) ==> u.bound == old(u.bound) - {port}
      ensures forall u :: u in On(port) ==> u.uids == map w | w in old(u.uids) && old(u.uids)[w] != port :: old(u.uids)[w]
    {
      hide UniverseStore.EachSound;
      hide UniverseStore.Filed;
      hide Linked;
      if port.universe != null {
        Detach(port);
      } else {
        UnboundIsLoose(port);
      }
    }

    /** Unpatch if required, then bind. */
    method Move(port: Port, id: UniverseId, accepts: bool)
      requires store.Filed() && store.EachSound() && Linked(null) && port in ports
      requires !(port.universe != null && port.universe.id == id)
      modifies broker, store, port`universe
      modifies Reach(port, id)`inputs, Reach(port, id)`outputs, Reach(port, id)`inputCount, Reach(port, id)`outputCount
      modifies Reach(port, id)`bound, Reach(port, id)`touched, On(port)`uids, On(port)`uidCount, On(port)`notifiedPorts
      ensures store.Filed() && store.EachSound()
      ensures if accepts then Linked(null) else Linked(port)
      ensures Moved(port, id, accepts)
      ensures id !in old(store.universes) ==> fresh(store.universes[id]) && store.universes[id].uids == map[]
      ensures store.universes[id].touched
      ensures forall u :: u in old(On(port)) ==> u.uids == map w | w in old(u.uids) && old(u.uids)[w] != port :: old(u.uids)[w]
    {
      hide Universe.IsActive;
      hide Universe.Sound;
      hide UniverseStore.EachSound;
      hide Linked;
      Release(port);
      Place(port, id, accepts);
    }

    /** Move a port to where the guards allow it to go. */
    method MoveAllowed(port: Port, id: UniverseId, accepts: bool)
      requires Valid() && port in ports
      requires !(port.universe != null && port.universe.id == id) && !Refused(port, id)
      modifies broker, store, port`universe
      modifies Reach(port, id)`inputs, Reach(port, id)`outputs, Reach(port, id)`inputCount, Reach(port, id)`outputCount
      modifies Reach(port, id)`bound, Reach(port, id)`touched, On(port)`uids, On(port)`uidCount, On(port)`notifiedPorts
      ensures Moved(port, id, accepts)
      ensures id !in old(store.universes) ==> fresh(store.universes[id]) && store.universes[id].uids == map[]
      ensures store.universes[id].touched
      ensures forall u :: u in old(On(port)) ==> u.uids == map w | w in old(u.uids) && old(u.uids)[w] != port :: old(u.uids)[w]
      ensures Valid() <==> accepts || old(port.universe) == null
    {
      hide Universe.Sound;
      hide UniverseStore.EachSound;
      hide Linked;
      hide Legal;
      hide Owned;
      hide Matches;
      hide ListsOwn;
      hide Universe.IsActive;
      hide Refused;
      Move(port, id, accepts);
      if accepts {
        AllowedMoveIsLegal(port);
      } else if port.universe == null {
        LooseAndUnbound(port);
      } else {
        LooseAndPointing(port);
      }
    }

    /**
     * Patch a port. The guards decide alone whether the request is refused, and a refused request changes nothing. The
     * invariants survive exactly unless a port that was bound elsewhere vetoes the move, which leaves it pointing to a
     * universe that no longer lists it. A port that moves loses the UIDs that led to it, and no other UID goes. The
     * universe counts as used from then on, so one that was made for a port that vetoes it is queued for deletion.
     */
    method PatchPort(port: Port, id: UniverseId, accepts: bool) returns (ok: bool)
      requires Valid() && port in ports
      modifies broker, store, port`universe
      modifies Reach(port, id)`inputs, Reach(port, id)`outputs, Reach(port, id)`inputCount, Reach(port, id)`outputCount
      modifies Reach(port, id)`bound, Reach(port, id)`touched, On(port)`uids, On(port)`uidCount, On(port)`notifiedPorts
      ensures ok == !old(Refused(port, id))
      ensures forall i :: i in store.universes && i !in old(store.universes) ==> fresh(store.universes[i]) && store.universes[i].uids == map[]
      ensures ok && !old(port.universe != null && port.universe.id == id) ==> forall u :: u in old(On(port)) ==>
                u.uids == map w | w in old(u.uids) && old(u.uids)[w] != port :: old(u.uids)[w]
      ensures ok && !old(port.universe != null && port.universe.id == id) ==>
                id in store.universes && store.universes[id].touched
      ensures if ok && !old(port.universe != null && port.universe.id == id) then Moved(port, id, accepts)
              else unchanged(broker, store, port) && forall u :: u in old(Reach(port, id)) ==> unchanged(u)
      ensures Valid() <==> accepts || !ok || old(port.universe == null || port.universe.id == id)
    {
      hide Valid;
      hide Matches;
      hide Universe.IsActive;
      if port.universe != null && port.universe.id == id {
        return true;
      }
      var refused := CheckGuards(port, id);
      if refused {
        return false;
      }
      hide Refused;
      MoveAllowed(port, id, accepts);
      return true;
    }

    /** On a multi-patch device a port that joins a universe leaves it open to the other ports of its direction. */
    twostate lemma SpoilsNoSibling(port: Port)
      requires old(Owned()) && old(port in ports) && port.universe != null
      requires port.device != null && port.device.allowMultiPortPatching
      requires unchanged(this) && (forall d :: d in devices ==> unchanged(d)) && forall p :: p in ports && p != port ==> unchanged(p`universe)
      ensures var id := port.universe.id;
              forall p :: p in ports && p.device == port.device && p.direction == port.direction && !old(Refused(p, id)) ==> !Refused(p, id)
    {
      var device := port.device;
      assert old(device in devices && ListsOwn(device));
      assert device in devices && unchanged(device);
      forall p | p in device.Ports(Opposite(port.direction))
        ensures p in ports && p != port && p.universe == old(p.universe)
      {
        assert p in old(device.Ports(Opposite(port.direction)));
      }
    }

    /** Only the pointer of `port` has changed, to none. */
    twostate lemma UnboundIsLegal(port: Port)
      requires old(Legal()) && ports <= old(ports)
      requires forall p :: p in ports && p != port ==> unchanged(p`universe)
      requires port in ports ==> port.universe == null
      ensures Legal()
    {
    }

    /** Unpatch a port; the invariants survive unless a bound port vetoes it. */
    method UnPatchPort(port: Port, accepts: bool) returns (ok: bool)
      requires Valid() && port in ports
      modifies broker, store`candidates, port`universe
      modifies On(port)`inputs, On(port)`outputs, On(port)`inputCount, On(port)`outputCount
      modifies On(port)`uids, On(port)`uidCount, On(port)`notifiedPorts, On(port)`bound
      ensures ok && broker.ports == old(broker.ports) - {port}
      ensures port.universe == if accepts then null else old(port.universe)
      ensures forall u :: u in old(On(port)) ==> u.bound == old(u.bound) - {port}
      ensures forall u :: u in old(On(port)) ==> u.uids == map w | w in old(u.uids) && old(u.uids)[w] != port :: old(u.uids)[w]
      ensures Valid() <==> accepts || old(port.universe) == null
    {
      hide Universe.Sound;
      hide UniverseStore.EachSound;
      hide Linked;
      hide Legal;
      hide Owned;
      if port.universe == null {
        UnboundIsLoose(port);
        assert broker.ports == broker.ports - {port};
        return true;
      }
      Detach(port);
      label detached:
      var cleared := port.SetUniverse(null, accepts);
      if cleared {
        PointerIsIgnored@detached(port);
        LooseAndUnbound(port);
        UnboundIsLegal(port);
      } else {
        LooseAndPointing(port);
      }
      return true;
    }

    /** The universe a port is on, if any. */
    ghost function On(port: Port): set<Universe>
      reads port`universe
    {
      if port.universe == null then {} else {port.universe}
    }

    // ---------- priorities ----------

    /** What the setters keep: a port has no priority or mode that its capability does not let it have. */
    static ghost predicate Configured(port: Port)
      reads port`priority, port`mode
    {
      MayHave(port.capability, port.priority, port.mode)
    }

    /** No existing port has a priority or mode that it may not have. */
    ghost predicate AllConfigured()
      reads this`ports, ports`priority, ports`mode
    {
      forall p :: p in ports ==> Configured(p)
    }

    static method SetPriorityInherit(port: Port)
      modifies port`mode
      ensures port.mode == if port.capability.CapabilityNone? then old(port.mode) else Inherit
      ensures old(Configured(port)) ==> Configured(port)
    {
      if port.capability.CapabilityNone? {
        return;
      }
      port.mode := Inherit;
    }

    static method SetPriorityOverride(port: Port, value: byte)
      modifies port`mode, port`priority
      ensures port.mode == if port.capability.CapabilityFull? then Override else old(port.mode)
      ensures port.priority ==
              if port.capability.CapabilityNone? then old(port.priority)
              else if value > SOURCE_PRIORITY_MAX then SOURCE_PRIORITY_MAX else value
      ensures old(Configured(port)) ==> Configured(port)
    {
      if port.capability.CapabilityNone? {
        return;
      }
      if port.capability.CapabilityFull? {
        port.mode := Override;
      }
      port.priority := if value > SOURCE_PRIORITY_MAX then SOURCE_PRIORITY_MAX else value;
    }

    // ---------- deleting ports ----------

    /** The port left its universe and ceased to exist; the broker was not told. */
    twostate predicate Gone(port: Port)
      reads this, store`universes, broker, (ports + {port})`universe, store.universes.Values`bound
    {
      && ports == old(ports) - {port} && unchanged(store`universes, broker) && (forall p :: p in old(ports) ==> unchanged(p`universe))
      && forall id :: id in store.universes ==> var u := store.universes[id];
           u.bound == if u == port.universe then old(u.bound) - {port} else old(u.bound)
    }

    twostate lemma GoneIsLinked(port: Port)
      requires old(Linked(null)) && old(port in ports) && Gone(port)
      ensures Linked(null)
    {
      forall id, p | id in store.universes && p in store.universes[id].bound
        ensures p in ports && p.universe == store.universes[id]
      {
        assert p in old(store.universes[id].bound);
      }
    }

    /** The owner of a UID exists, and points to the universe that holds the UID. */
    lemma OwnersExist(id: nat)
      requires store.Filed() && store.EachSound() && Linked(null) && id in store.universes
      ensures var w := store.universes[id]; forall u :: u in w.uids ==> w.uids[u] in ports && w.uids[u].universe == w
    {
      hide Universe.Sound;
      hide Universe.PortsWf;
      var w := store.universes[id];
      StoredIsSound(w);
      w.OwnersAreInBound();
    }

    method DeletePort(port: Port)
      requires store.Filed() && store.EachSound() && Linked(null) && Legal() && port in ports
      modifies this`ports, store`candidates
      modifies On(port)`inputs, On(port)`outputs, On(port)`inputCount, On(port)`outputCount
      modifies On(port)`uids, On(port)`uidCount, On(port)`notifiedPorts, On(port)`bound
      ensures store.Filed() && store.EachSound() && Linked(null) && Legal()
      ensures ports == old(ports) - {port}
      ensures port.universe != null ==> port !in port.universe.bound
      ensures forall id :: id in store.universes ==>
                var w := store.universes[id]; w.uids == map u | u in old(w.uids) && old(w.uids)[u] != port :: old(w.uids)[u]
    {
      hide UniverseStore.EachSound;
      hide UniverseStore.Filed;
      hide Linked;
      hide Legal;
      forall id | id in store.universes
        ensures var w := store.universes[id]; w == port.universe || forall u :: u in w.uids ==> w.uids[u] != port
      {
        OwnersExist(id);
      }
      if port.universe != null {
        Drop(port);
      }
      ports := ports - {port};
      GoneIsLinked(port);
      UnboundIsLegal(port);
    }

    /** Delete the ports of `list`, one after another. */
    method DeletePorts(list: seq<Port>)
      requires store.Filed() && store.EachSound() && Linked(null) && Legal()
      requires NoDup(list) && Elements(list) <= ports
      modifies this`ports, store`candidates
      modifies Hosts(list)`inputs, Hosts(list)`outputs, Hosts(list)`inputCount, Hosts(list)`outputCount
      modifies Hosts(list)`uids, Hosts(list)`uidCount, Hosts(list)`notifiedPorts, Hosts(list)`bound
      ensures store.Filed() && store.EachSound() && Linked(null) && Legal()
      ensures ports == old(ports) - Elements(list)
      ensures forall id :: id in store.universes ==>
                var w := store.universes[id]; w.uids == map u | u in old(w.uids) && old(w.uids)[u] !in list :: old(w.uids)[u]
    {
      hide UniverseStore.EachSound;
      hide UniverseStore.Filed;
      hide Linked;
      hide Legal;
      for i := 0 to |list|
        invariant store.Filed() && store.EachSound() && Linked(null) && Legal()
        invariant ports == old(ports) - Elements(list[..i])
        invariant forall id :: id in store.universes ==>
                    var w := store.universes[id]; w.uids == map u | u in old(w.uids) && old(w.uids)[u] !in list[..i] :: old(w.uids)[u]
      {
        assert list[..i + 1] == list[..i] + [list[i]];
        DeletePort(list[i]);
      }
      assert list[..|list|] == list;
    }

    /** The universes the ports of a list are on. */
    ghost function Hosts(list: seq<Port>): set<Universe>
      reads (set p | p in list)`universe
    {
      set p | p in list && p.universe != null :: p.universe
    }

    /** Stop a device: every port of it is taken off its universe and deleted. */
    method DeleteAllPorts(device: Device)
      requires Valid() && device in devices
      modifies this`ports, store`candidates, device`inputs, device`outputs
      modifies Hosts(device.inputs + device.outputs)`inputs, Hosts(device.inputs + device.outputs)`outputs
      modifies Hosts(device.inputs + device.outputs)`inputCount, Hosts(device.inputs + device.outputs)`outputCount
      modifies Hosts(device.inputs + device.outputs)`uids, Hosts(device.inputs + device.outputs)`uidCount
      modifies Hosts(device.inputs + device.outputs)`notifiedPorts, Hosts(device.inputs + device.outputs)`bound
      ensures Valid() && device.inputs == device.outputs == []
      ensures ports == old(ports) - old(Elements(device.inputs + device.outputs))
      ensures forall p :: p in ports ==> p.device != device
      ensures forall id :: id in store.universes ==>
                var w := store.universes[id]; w.uids == map u | u in old(w.uids) && old(w.uids)[u].device != device :: old(w.uids)[u]
    {
      hide UniverseStore.EachSound;
      hide UniverseStore.Filed;
      hide Linked;
      hide Legal;
      hide Owned;
      hide ById;
      OwnListsAreExact(device);
      OwnersOnDevice(device);
      DeletePorts(device.inputs);
      DeletePorts(device.outputs);
      device.inputs, device.outputs := [], [];
      StoppedIsOwned(device);
    }

    /** A UID leads to a port of the device exactly if the device lists the owner. */
    lemma OwnersOnDevice(device: Device)
      requires store.Filed() && store.EachSound() && Linked(null) && Owned() && device in devices
      ensures forall id :: id in store.universes ==>
                var w := store.universes[id];
                forall u :: u in w.uids ==> (w.uids[u].device == device <==> w.uids[u] in device.inputs || w.uids[u] in device.outputs)
    {
      hide UniverseStore.EachSound;
      hide UniverseStore.Filed;
      hide Linked;
      OwnListsAreExact(device);
      hide Owned;
      forall id | id in store.universes
        ensures var w := store.universes[id];
                forall u :: u in w.uids ==> (w.uids[u].device == device <==> w.uids[u] in device.inputs || w.uids[u] in device.outputs)
      {
        OwnersExist(id);
      }
    }

    lemma OwnListsAreExact(device: Device)
      requires Owned() && device in devices
      ensures NoDup(device.inputs) && NoDup(device.outputs)
      ensures Elements(device.inputs) <= ports && Elements(device.outputs) <= ports && Elements(device.inputs) !! Elements(device.outputs)
      ensures forall p :: p in ports ==> (p.device == device <==> p in device.inputs || p in device.outputs)
    {
    }

    twostate lemma StoppedIsOwned(device: Device)
      requires old(Owned()) && old(device in devices) && devices == old(devices)
      requires ports == old(ports) - old(Elements(device.inputs)) - old(Elements(device.outputs))
      requires device.inputs == device.outputs == []
      requires forall d :: d in devices && d != device ==> unchanged(d)
      ensures Owned() && forall p :: p in ports ==> p.device != device
    {
      hide ById;
      forall d | d in devices
        ensures ListsOwn(d)
      {
        if d == device {
          NothingById();
        } else {
          assert old(ListsOwn(d));
        }
      }
    }

    lemma NothingById()
      ensures ById([])
    {
    }

    // ---------- new ports and devices ----------

    method AddDevice(device: Device)
      requires Valid() && device !in devices && device.inputs == device.outputs == []
      requires forall p :: p in ports ==> p.device != device
      modifies this`devices
      ensures Valid() && devices == old(devices) + {device}
    {
      hide UniverseStore.EachSound;
      hide UniverseStore.Filed;
      hide Linked;
      hide Legal;
      devices := devices + {device};
    }

    /** A new, unbound port; if its id is taken the device does not list it and nobody can reach it. */
    method AddPort(device: Device, port: Port)
      requires Valid() && device in devices && port !in ports && port.device == device && port.universe == null
      requires port !in broker.ports
      modifies this`ports, device
      ensures Valid()
      ensures if forall p :: p in old(device.Ports(port.direction)) ==> p.portId != port.portId
              then && ports == old(ports) + {port}
                   && Inserted(old(device.Ports(port.direction)), port, device.Ports(port.direction))
                   && device.Ports(Opposite(port.direction)) == old(device.Ports(Opposite(port.direction)))
              else ports == old(ports) && unchanged(device`inputs, device`outputs)
    {
      hide UniverseStore.EachSound;
      hide UniverseStore.Filed;
      hide Linked;
      hide Legal;
      hide Owned;
      hide ById;
      hide Inserted;
      assert ListsOwn(device) by { DeviceListsOwn(device); }
      var added := device.AddPort(port);
      if added {
        ports := ports + {port};
        NewPortIsUnbound(port);
        NewPortIsOwned(port);
      } else {
        NoNewPortIsOwned(device);
      }
    }

    lemma DeviceListsOwn(device: Device)
      requires Owned() && device in devices
      ensures ListsOwn(device)
    {
    }

    twostate lemma NoNewPortIsOwned(device: Device)
      requires old(Owned()) && unchanged(this`ports, this`devices) && unchanged(device`inputs, device`outputs)
      requires forall d :: d in devices && d != device ==> unchanged(d)
      ensures Owned()
    {
    }

    twostate lemma NewPortIsOwned(port: Port)
      requires old(Owned()) && port.device != null && port.device in devices && devices == old(devices)
      requires ports == old(ports) + {port}
      requires forall d :: d in devices && d != port.device ==> unchanged(d)
      requires ById(port.device.inputs) && ById(port.device.outputs)
      requires if port.direction.Input?
               then Inserted(old(port.device.inputs), port, port.device.inputs) && port.device.outputs == old(port.device.outputs)
               else Inserted(old(port.device.outputs), port, port.device.outputs) && port.device.inputs == old(port.device.inputs)
      ensures Owned() && port in port.device.Ports(port.direction)
    {
      hide ById;
      hide Inserted;
      var device := port.device;
      assert old(ListsOwn(device));
      if port.direction.Input? {
        InsertedMembers(old(device.inputs), port, device.inputs);
      } else {
        InsertedMembers(old(device.outputs), port, device.outputs);
      }
    }

    lemma InsertedMembers(list: seq<Port>, port: Port, longer: seq<Port>)
      requires Inserted(list, port, longer)
      ensures port in longer && (forall p :: p in list ==> p in longer) && (forall p :: p in longer ==> p in list || p == port)
    {
      var i :| 0 <= i <= |list| && longer == list[..i] + [port] + list[i..];
      assert list == list[..i] + list[i..];
    }

    twostate lemma NewPortIsUnbound(port: Port)
      requires old(Linked(null) && Legal()) && ports == old(ports) + {port} && unchanged(store`universes, broker)
      requires forall p :: p in old(ports) ==> unchanged(p`universe)
      requires forall id :: id in store.universes ==> unchanged(store.universes[id])
      requires port.universe == null && old(port !in ports) && port !in broker.ports
      ensures Linked(null) && Legal()
    {
    }

    // ---------- garbage collection ----------

    /** A bound port keeps its universe from being collected. */
    lemma BoundMeansActive(port: Port)
      requires store.EachSound() && Linked(null) && port in ports && port.universe != null
      ensures port.universe.IsActive()
    {
      hide Split;
      hide Universe.IsActive;
      port.universe.BoundIsActive(port);
    }

    twostate lemma CollectedIsLinked()
      requires old(Linked(null)) && unchanged(this`ports, broker) && forall p :: p in ports ==> unchanged(p`universe)
      requires forall p :: p in ports && p.universe != null ==> p.universe.IsActive()
      requires forall id :: id in store.universes ==>
                 id in old(store.universes) && store.universes[id] == old(store.universes)[id] && store.universes[id].bound == old(store.universes[id].bound)
      requires forall id :: id in old(store.universes) && old(store.universes)[id].IsActive() ==> id in store.universes
      ensures Linked(null)
    {
      forall id, p | id in store.universes && p in store.universes[id].bound
        ensures p in ports && p.universe == store.universes[id]
      {
        assert id in old(store.universes) && p in old(store.universes[id].bound);
      }
      forall p | p in ports && p.universe != null
        ensures store.Stores(p.universe) && p in p.universe.bound
      {
        assert old(store.Stores(p.universe));
      }
    }

    /** Housekeeping's collection, in a whole server: no port is left pointing to a deleted universe. */
    method CollectGarbage()
      requires Valid()
      modifies store
      ensures Valid() && store.candidates == {}
      ensures forall id :: id in store.universes <==>
                id in old(store.universes) && (old(store.universes)[id].IsActive() || !old(store.universes)[id].touched)
      ensures forall id :: id in store.universes ==> store.universes[id] == old(store.universes)[id]
      ensures store.ModesSaved()
    {
      hide Universe.IsActive;
      hide UniverseStore.EachSound;
      hide UniverseStore.Filed;
      hide Linked;
      hide Owned;
      hide Legal;
      forall p | p in ports && p.universe != null
        ensures p.universe.IsActive()
      {
        BoundMeansActive(p);
      }
      store.GarbageCollectUniverses();
      CollectedIsLinked();
    }

    // ---------- what the invariants mean ----------

    /** A port points to a stored universe exactly when that universe lists it, and then it lists it once, on its own side. */
    lemma LinkIsExact(port: Port, id: nat)
      requires Valid() && port in ports && id in store.universes
      ensures var u := store.universes[id];
        && (port.universe == u <==> port in u.Ports(port.direction))
        && (port.universe == u <==> multiset(u.Ports(port.direction))[port] == 1)
        && port !in u.Ports(Opposite(port.direction))
    {
      hide Legal;
      hide Owned;
      hide Universe.Collectable;
      hide Universe.Synced;
      var u := store.universes[id];
      assert u.Sound();
      OnceEach(u.Ports(port.direction), port);
    }

    lemma {:induction false} OnceEach(list: seq<Port>, port: Port)
      requires NoDup(list)
      ensures multiset(list)[port] == if port in list then 1 else 0
    {
      if list != [] {
        assert list == [list[0]] + list[1..];
        OnceEach(list[1..], port);
      }
    }

    /** No port points to a universe that has been collected: what a port points to is stored, under its own id, and in use. */
    lemma NoDanglingPort(port: Port)
      requires Valid() && port in ports && port.universe != null
      ensures port.universe.id in store.universes && store.universes[port.universe.id] == port.universe && port.universe.IsActive()
    {
      hide Legal;
      hide Owned;
      hide UniverseStore.EachSound;
      BoundMeansActive(port);
    }
  }
}
