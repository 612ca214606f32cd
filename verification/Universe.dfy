/** The objects of the server core: ports, devices, clients, universes and the store that owns the universes. */
module Universes {
  import opened Sequences
  import opened Dmx
  import opened Merging
  import opened Discovery
  import SourceClients

  /** An `unsigned int`. */
  type UniverseId = n: nat | n < 0x1_0000_0000

  datatype Direction = Input | Output
  datatype Capability = CapabilityNone | CapabilityStatic | CapabilityFull
  datatype PriorityMode = Inherit | Override

  /** A port with this capability may have this priority and mode. */
  predicate MayHave(capability: Capability, priority: byte, mode: PriorityMode) {
    && priority <= SOURCE_PRIORITY_MAX
    && (!capability.CapabilityFull? ==> mode == Inherit)
    && (capability.CapabilityNone? ==> priority == SOURCE_PRIORITY_DEFAULT)
  }

  /** A connected client: the data it last sent for each universe, and the frame it was last sent for each universe. */
  class Client {
    var dataMap: map<nat, DmxSource>
    var received: map<nat, Frame>

    constructor ()
      ensures dataMap == map[] && received == map[]
    {
      dataMap, received := map[], map[];
    }

    method DmxReceived(universe: nat, source: DmxSource)
      modifies this`dataMap
      ensures dataMap == old(dataMap)[universe := source]
    {
      dataMap := dataMap[universe := source];
    }

    function SourceData(universe: nat): DmxSource
      reads this`dataMap
    {
      if universe in dataMap then dataMap[universe] else NoSource
    }

    method SendDmx(universe: nat, priority: byte, buffer: DmxBuffer)
      modifies this`received
      ensures received == old(received)[universe := Frame(buffer, priority)]
    {
      received := received[universe := Frame(buffer, priority)];
    }
  }

  /** A device: its ports, each direction in the order of the port ids, and what may be patched together. */
  class Device {
    const uniqueId: string
    const allowLooping: bool
    const allowMultiPortPatching: bool
    var inputs: seq<Port>
    var outputs: seq<Port>

    constructor (uniqueId: string, allowLooping: bool, allowMultiPortPatching: bool)
      ensures this.uniqueId == uniqueId
      ensures this.allowLooping == allowLooping && this.allowMultiPortPatching == allowMultiPortPatching
      ensures inputs == outputs == []
    {
      this.uniqueId, this.allowLooping, this.allowMultiPortPatching := uniqueId, allowLooping, allowMultiPortPatching;
      inputs, outputs := [], [];
    }

    function Ports(direction: Direction): seq<Port>
      reads this
    {
      if direction.Input? then inputs else outputs
    }

    /** Add a port, unless its id is taken; `added` tells which (the caller is told that all is well either way). */
    method AddPort(port: Port) returns (added: bool)
      requires ById(inputs) && ById(outputs)
      modifies this
      ensures ById(inputs) && ById(outputs)
      ensures added <==> forall p :: p in old(Ports(port.direction)) ==> p.portId != port.portId
      ensures if added && port.direction.Input? then Inserted(old(inputs), port, inputs) else inputs == old(inputs)
      ensures if added && port.direction.Output? then Inserted(old(outputs), port, outputs) else outputs == old(outputs)
    {
      var list := Ports(port.direction);
      var i := 0;
      while i < |list| && list[i].portId < port.portId
        invariant i <= |list|
        invariant forall j :: 0 <= j < i ==> list[j].portId < port.portId
      {
        i := i + 1;
      }
      if i < |list| && list[i].portId == port.portId {
        return false;
      }
      var longer := list[..i] + [port] + list[i..];
      InsertedById(list, port, i);
      assert Inserted(list, port, longer);
      if port.direction.Input? {
        inputs := longer;
      } else {
        outputs := longer;
      }
      return true;
    }
  }

  /** The ports of a list, as a set. */
  ghost function Elements(list: seq<Port>): set<Port> {
    set p | p in list
  }

  /** In strictly increasing order of port id. */
  ghost predicate ById(list: seq<Port>) {
    forall i, j :: 0 <= i < j < |list| ==> list[i].portId < list[j].portId
  }

  /** `longer` is `list` with `port` put in somewhere. */
  ghost predicate Inserted(list: seq<Port>, port: Port, longer: seq<Port>) {
    exists i :: 0 <= i <= |list| && longer == list[..i] + [port] + list[i..]
  }

  lemma InsertedById(list: seq<Port>, port: Port, i: nat)
    requires ById(list) && i <= |list|
    requires forall j :: 0 <= j < i ==> list[j].portId < port.portId
    requires i < |list| ==> port.portId < list[i].portId
    ensures ById(list[..i] + [port] + list[i..])
    ensures forall p :: p in list ==> p.portId != port.portId
  {
    var longer := list[..i] + [port] + list[i..];
    assert forall k :: i < k < |longer| ==> longer[k] == list[k - 1];
    assert forall k :: i <= k < |list| ==> port.portId < list[k].portId;
  }

  /** An input port supplies `source`; an output port was last told `written`. */
  class Port {
    const direction: Direction
    const portId: nat
    const device: Device?
    const capability: Capability
    const supportsTimeCode: bool
    var universe: Universe?
    var priority: byte
    var mode: PriorityMode
    var source: DmxSource
    var written: Option<Frame>

    constructor (direction: Direction, portId: nat, device: Device?, capability: Capability, supportsTimeCode: bool)
      ensures this.direction == direction && this.portId == portId && this.device == device
      ensures this.capability == capability && this.supportsTimeCode == supportsTimeCode
      ensures universe == null && priority == 100 && mode == Inherit
      ensures source == DmxSource([], 0, 0) && written == None
    {
      this.direction, this.portId, this.device, this.capability := direction, portId, device, capability;
      this.supportsTimeCode := supportsTimeCode;
      universe, priority, mode, source, written := null, SOURCE_PRIORITY_DEFAULT, Inherit, NoSource, None;
    }

    /** `accepts` is the verdict of the port's own veto hook. */
    method SetUniverse(u: Universe?, accepts: bool) returns (ok: bool)
      modifies this`universe
      ensures ok == (old(universe) == u || accepts)
      ensures universe == if ok then u else old(universe)
    {
      if universe == u {
        return true;
      }
      if accepts {
        universe := u;
        return true;
      }
      return false;
    }

    method WriteDmx(buffer: DmxBuffer, priority: byte)
      modifies this`written
      ensures written == Some(Frame(buffer, priority))
    {
      written := Some(Frame(buffer, priority));
    }
  }

  /** Universes by id, those that may be deletable, and the merge modes kept in preferences for universes to come. */
  class UniverseStore {
    var universes: map<nat, Universe>
    var candidates: set<Universe>
    var saved: map<nat, MergeMode>

    constructor (saved: map<nat, MergeMode>)
      ensures universes == map[] && candidates == {} && this.saved == saved
    {
      universes, candidates, this.saved := map[], {}, saved;
    }

    /** The merge mode a universe starts with: the one saved for its id, if any. */
    function SavedMode(id: nat): MergeMode
      reads this`saved
    {
      if id in saved then saved[id] else MergeLtp
    }

    ghost predicate Stores(u: Universe)
      reads this`universes
    {
      u.id in universes && universes[u.id] == u
    }

    /** Universes are filed under their own ids, and every deletion candidate is a stored universe. */
    ghost predicate Filed()
      reads this
    {
      && (forall id :: id in universes ==> universes[id].id == id && universes[id].store == this)
      && (forall u :: u in candidates ==> Stores(u))
    }

    /** Every stored universe keeps its own invariants. */
    ghost predicate EachSound()
      reads this, universes.Values
      reads (set u, p | u in universes.Values && p in u.notifiedPorts :: p)`written
      reads (set u, c | u in universes.Values && c in u.notifiedClients :: c)`received
    {
      forall id :: id in universes ==> universes[id].store == this && universes[id].Sound()
    }

    /** A step on one universe that leaves the others alone. */
    twostate lemma OthersStaySound(u: Universe)
      requires old(EachSound()) && universes == old(universes)
      requires u.store == this && u.Sound()
      requires forall id :: id in universes && universes[id] != u ==> universes[id].Untouched()
      ensures EachSound()
    {
      forall id | id in universes
        ensures universes[id].Sound()
      {
        if universes[id] != u {
          universes[id].UntouchedStaysSound();
        }
      }
    }

    method GetUniverseOrCreate(id: UniverseId) returns (u: Universe)
      requires Filed() && EachSound()
      modifies this`universes
      ensures Filed() && EachSound() && Stores(u) && u.id == id
      ensures if id in old(universes) then universes == old(universes)
              else fresh(u) && u.Pristine() && u.mergeMode == SavedMode(id) && universes == old(universes)[id := u]
    {
      hide Universe.Sound;
      if id in universes {
        return universes[id];
      }
      u := new Universe(id, this);
      if id in saved {
        u.mergeMode := saved[id];
      }
      universes := universes[id := u];
      u.PristineIsSound();
      NewcomerIsSound(u);
    }

    /** A new and sound universe has joined; the others stay sound. */
    twostate lemma NewcomerIsSound(new u: Universe)
      requires old(EachSound()) && u.store == this && u.Sound()
      requires u.id !in old(universes) && universes == old(universes)[u.id := u]
      requires forall id :: id in old(universes) ==> old(universes)[id].Untouched()
      ensures EachSound()
    {
      forall id | id in universes && id != u.id
        ensures universes[id].Sound()
      {
        old(universes)[id].UntouchedStaysSound();
      }
    }

    /** The merge modes of the universes that went are saved, and no other saved mode has changed. */
    twostate predicate ModesSaved()
      reads this
    {
      forall id :: SavedMode(id) ==
        if id in old(universes) && id !in universes then old(universes[id].mergeMode) else old(SavedMode(id))
    }

    method AddUniverseGarbageCollection(u: Universe)
      modifies this`candidates
      ensures candidates == old(candidates) + {u}
    {
      candidates := candidates + {u};
    }

    /**
     * Delete the candidates that are not in use. The universes that remain are exactly those with a port or client now,
     * and those that never had one (nor had a port refuse them) since they were created.
     */
    method GarbageCollectUniverses()
      requires Filed() && EachSound()
      modifies this
      ensures Filed() && EachSound() && candidates == {}
      ensures forall id :: id in universes <==>
                id in old(universes) && (old(universes)[id].IsActive() || !old(universes)[id].touched)
      ensures forall id :: id in universes ==> universes[id] == old(universes)[id]
      ensures ModesSaved()
    {
      hide EachSound;
      hide Universe.Sound;
      hide Universe.IsActive;
      var todo := candidates;
      while todo != {}
        invariant todo <= candidates == old(candidates)
        invariant forall id :: id in universes ==> id in old(universes) && universes[id] == old(universes)[id]
        invariant forall id :: id in old(universes) ==> var u := old(universes)[id];
                    (id in universes <==> u !in candidates || u in todo || u.IsActive())
        invariant ModesSaved()
      {
        var u :| u in todo;
        todo := todo - {u};
        if !u.IsActive() {
          saved := saved[u.id := u.mergeMode];
          universes := map id | id in universes && id != u.id :: universes[id];
        }
      }
      candidates := {};
      CollectedStaysSound();
    }

    twostate lemma CollectedStaysSound()
      requires old(Filed() && EachSound()) && candidates == {}
      requires forall id :: id in universes ==> id in old(universes) && universes[id] == old(universes)[id]
      requires forall id :: id in old(universes) ==> var u := old(universes)[id];
                 (id in universes <==> u !in old(candidates) || u.IsActive())
      requires forall id :: id in old(universes) ==> var u := old(universes)[id];
                 && unchanged(u) && (forall p :: p in u.notifiedPorts ==> unchanged(p)) && (forall c :: c in u.notifiedClients ==> unchanged(c))
      ensures Filed() && EachSound()
      ensures forall id :: id in old(universes) ==> var u := old(universes)[id];
                (id in universes <==> u.IsActive() || !u.touched)
    {
      hide Universe.PortsWf;
      hide Universe.ClientsWf;
      forall id | id in old(universes)
        ensures var u := old(universes)[id]; (id in universes <==> u.IsActive() || !u.touched)
        ensures id in universes ==> universes[id].Sound()
      {
        old(universes)[id].CollectedStaysSound();
      }
    }
  }

  /** One universe of DMX data, its ports and clients, and the index of its RDM responders. */
  class Universe {
    const id: UniverseId
    const store: UniverseStore
    var mergeMode: MergeMode
    var activePriority: byte
    var buffer: DmxBuffer
    var inputs: seq<Port>
    var outputs: seq<Port>
    var sinks: set<Client>
    var sources: map<Client, bool>
    var uids: Owners<Port>

    // the exported counters
    var inputCount: int
    var outputCount: int
    var sinkCount: int
    var sourceCount: int
    var uidCount: int

    /** A port or client has been bound to this universe, or a port has refused to be. */
    ghost var touched: bool
    /** The ports listed in `inputs` and `outputs`. */
    ghost var bound: set<Port>
    /** The dependants still bound since the last fan-out. */
    ghost var notifiedPorts: set<Port>
    ghost var notifiedClients: set<Client>
    /** What has happened to the source clients. */
    ghost var history: seq<SourceClients.Event<Client>>

    constructor (id: UniverseId, store: UniverseStore)
      ensures this.id == id && this.store == store && Pristine() && mergeMode == MergeLtp
    {
      this.id, this.store := id, store;
      mergeMode, activePriority, buffer := MergeLtp, SOURCE_PRIORITY_MIN, [];
      inputs, outputs, sinks, sources, uids := [], [], {}, map[], map[];
      inputCount, outputCount, sinkCount, sourceCount, uidCount := 0, 0, 0, 0, 0;
      touched, bound, notifiedPorts, notifiedClients, history := false, {}, {}, {}, [];
    }

    ghost predicate Pristine()
      reads this
    {
      && activePriority == SOURCE_PRIORITY_MIN && buffer == []
      && inputs == [] && outputs == [] && sinks == {} && sources == map[] && uids == map[]
      && inputCount == outputCount == sinkCount == sourceCount == uidCount == 0
      && !touched && bound == notifiedPorts == {} && notifiedClients == {} && history == []
    }

    lemma PristineIsSound()
      requires Pristine() && this !in store.candidates
      ensures Sound()
    {
    }

    /** Whether any port or client uses this universe. */
    predicate IsActive()
      reads this`inputs, this`outputs, this`sources, this`sinks
    {
      |outputs| != 0 || |inputs| != 0 || |sources| != 0 || |sinks| != 0
    }

    ghost function Ports(direction: Direction): seq<Port>
      reads this
    {
      if direction.Input? then inputs else outputs
    }

    // ---------- what every method keeps ----------

    /** No port is listed twice, every UID's owner is bound, and the exported counters are the sizes they stand for. */
    ghost predicate PortsWf()
      reads this`inputs, this`outputs, this`bound, this`uids, this`inputCount, this`outputCount, this`uidCount
    {
      && Split(inputs, outputs, bound)
      && OwnersBound()
      && inputCount == |inputs| && outputCount == |outputs| && uidCount == |uids|
    }

    ghost predicate OwnersBound()
      reads this`uids, this`outputs
    {
      OwnersAmong(uids, outputs)
    }

    /** The counters are right, and the source clients are those that the history leaves. */
    ghost predicate ClientsWf()
      reads this`sources, this`sinks, this`sourceCount, this`sinkCount, this`history
    {
      sinkCount == |sinks| && sourceCount == |sources| && Recorded()
    }

    ghost predicate Recorded()
      reads this`sources, this`history
    {
      sources == SourceClients.Replay(history)
    }

    /** In use implies touched; touched but not in use implies queued for collection; queued implies touched. */
    ghost predicate Collectable()
      reads this`inputs, this`outputs, this`sources, this`sinks, this`touched, store`candidates
    {
      && (IsActive() ==> touched)
      && (touched && !IsActive() ==> this in store.candidates)
      && (this in store.candidates ==> touched)
    }

    /** Every dependant bound since the last fan-out holds the current buffer. */
    ghost predicate Synced()
      reads this`bound, this`sinks, this`buffer, this`notifiedPorts, this`notifiedClients
      reads notifiedPorts`written, notifiedClients`received
    {
      && notifiedPorts <= bound && notifiedClients <= sinks
      && (forall p :: p in notifiedPorts ==> p.written.Some? && p.written.value.data == buffer)
      && (forall c :: c in notifiedClients ==> id in c.received && c.received[id].data == buffer)
    }

    /** All of the above. */
    ghost predicate Sound()
      reads this, store`candidates, notifiedPorts`written, notifiedClients`received
    {
      PortsWf() && ClientsWf() && Collectable() && Synced()
    }

    /** Nothing about this universe has changed, whatever else has. */
    twostate predicate Untouched()
      reads this, store`candidates, notifiedPorts`written, notifiedClients`received
    {
      && unchanged(this)
      && (this in store.candidates <==> this in old(store.candidates))
      && (forall p :: p in old(notifiedPorts) ==> p.written == old(p.written))
      && (forall c :: c in old(notifiedClients) ==>
            (id in c.received <==> id in old(c.received)) && (id in c.received ==> c.received[id] == old(c.received)[id]))
    }

    /** The port left, and the universe was queued if that was its last dependant. */
    twostate predicate PortLeft(port: Port)
      reads this, store`candidates
    {
      && PortsWf() && unchanged(this`sources, this`sinks, this`sourceCount, this`sinkCount, this`history)
      && unchanged(this`touched, this`buffer, this`notifiedClients)
      && bound == old(bound) - {port}
      && notifiedPorts == old(notifiedPorts) - {port}
      && (IsActive() ==> old(IsActive()))
      && store.candidates == if old(IsActive()) && !IsActive() then old(store.candidates) + {this} else old(store.candidates)
    }

    twostate lemma PortLeftStaysSound(port: Port)
      requires old(Sound()) && PortLeft(port)
      requires forall p :: p in notifiedPorts ==> p.written == old(p.written)
      requires forall c :: c in notifiedClients ==> c.received == old(c.received)
      ensures Sound()
    {
      hide PortsWf;
      hide IsActive;
    }

    /** A collection leaves this universe, if it is active or was never queued, sound. */
    twostate lemma CollectedStaysSound()
      requires old(Sound()) && unchanged(this) && store.candidates == {}
      requires forall p :: p in notifiedPorts ==> unchanged(p)
      requires forall c :: c in notifiedClients ==> unchanged(c)
      ensures this !in old(store.candidates) || IsActive() <==> IsActive() || !touched
      ensures IsActive() || !touched ==> Sound()
    {
      hide PortsWf;
      hide ClientsWf;
    }

    /** The port is listed. */
    twostate predicate PortJoined(port: Port)
      reads this, store`candidates
    {
      && PortsWf() && unchanged(this`sources, this`sinks, this`sourceCount, this`sinkCount, this`history)
      && unchanged(this`buffer, this`notifiedClients, this`notifiedPorts, store`candidates)
      && touched && bound == old(bound) + {port}
    }

    twostate lemma PortJoinedStaysSound(port: Port)
      requires old(Sound()) && PortJoined(port)
      requires IsActive()
      requires forall p :: p in notifiedPorts ==> p.written == old(p.written)
      requires forall c :: c in notifiedClients ==> c.received == old(c.received)
      ensures Sound()
    {
      hide PortsWf;
    }

    /** A port has refused this universe: it may be deleted unless something else uses it. */
    method NotePortRefusal()
      requires Sound()
      modifies this`touched, store`candidates
      ensures Sound()
      ensures touched && store.candidates == if IsActive() then old(store.candidates) else old(store.candidates) + {this}
    {
      if !IsActive() {
        store.AddUniverseGarbageCollection(this);
      }
      touched := true;
    }

    /** Clients came or went, nothing else changed, and the universe was queued if that left it unused. */
    twostate predicate ClientsChanged()
      reads this, store`candidates
    {
      && ClientsWf() && notifiedClients <= sinks && notifiedClients <= old(notifiedClients)
      && inputs == old(inputs) && outputs == old(outputs) && bound == old(bound) && uids == old(uids) && uidCount == old(uidCount)
      && inputCount == old(inputCount) && outputCount == old(outputCount)
      && buffer == old(buffer) && notifiedPorts == old(notifiedPorts)
      && (old(touched) || IsActive() <==> touched)
      && store.candidates == if old(IsActive()) && !IsActive() then old(store.candidates) + {this} else old(store.candidates)
    }

    twostate lemma ClientsChangedStaysSound()
      requires old(Sound()) && ClientsChanged()
      requires forall p :: p in notifiedPorts ==> p.written == old(p.written)
      requires forall c :: c in notifiedClients ==> c.received == old(c.received)
      ensures Sound()
    {
      hide Split;
      hide IsActive;
    }

    /** Nothing has changed that the invariants depend on, but for the UID index, whose owners are bound. */
    twostate lemma QuietChangeStaysSound()
      requires old(Sound()) && OwnersBound() && uidCount == |uids|
      requires inputs == old(inputs) && outputs == old(outputs) && bound == old(bound) && sinks == old(sinks) && sources == old(sources) && history == old(history)
      requires inputCount == old(inputCount) && outputCount == old(outputCount) && sinkCount == old(sinkCount)
      requires sourceCount == old(sourceCount) && touched == old(touched) && store.candidates == old(store.candidates)
      requires buffer == old(buffer) && notifiedPorts == old(notifiedPorts) && notifiedClients == old(notifiedClients)
      requires forall p :: p in notifiedPorts ==> p.written == old(p.written)
      requires forall c :: c in notifiedClients ==> c.received == old(c.received)
      ensures Sound()
    {
      hide Split;
    }

    twostate lemma UntouchedStaysSound()
      requires old(Sound()) && Untouched()
      ensures Sound()
    {
    }

    // ---------- ports ----------

    method AddPort(port: Port)
      requires PortsWf()
      modifies this`inputs, this`outputs, this`inputCount, this`outputCount, this`touched, this`bound
      ensures PortJoined(port) && IsActive()
      ensures inputs == if port.direction.Input? && port !in old(inputs) then old(inputs) + [port] else old(inputs)
      ensures outputs == if port.direction.Output? && port !in old(outputs) then old(outputs) + [port] else old(outputs)
    {
      hide Split;
      hide OwnersAmong;
      OwnersWith(uids, outputs, port);
      SplitAppend(inputs, outputs, bound, port);
      touched, bound := true, bound + {port};
      if port.direction.Input? {
        if port !in inputs {
          inputs := inputs + [port];
          inputCount := inputCount + 1;
        }
      } else {
        if port !in outputs {
          outputs := outputs + [port];
          outputCount := outputCount + 1;
        }
      }
    }

    method RemovePort(port: Port)
      requires PortsWf()
      modifies this`inputs, this`outputs, this`inputCount, this`outputCount, this`uids, this`uidCount
      modifies this`notifiedPorts, this`bound, store`candidates
      ensures PortLeft(port)
      ensures inputs == if port.direction.Input? then Erase(old(inputs), port) else old(inputs)
      ensures outputs == if port.direction.Output? then Erase(old(outputs), port) else old(outputs)
      ensures forall u :: u in uids <==> u in old(uids) && old(uids)[u] != port
      ensures forall u :: u in uids ==> uids[u] == old(uids)[u]
    {
      hide Split;
      hide OwnersAmong;
      hide Erase;
      hide IsActive;
      OwnersWithout(uids, inputs, outputs, bound, port);
      notifiedPorts := notifiedPorts - {port};
      if port.direction.Input? {
        EraseInput(port);
      } else {
        EraseOutput(port);
        ForgetUids(port);
      }
    }

    method EraseInput(port: Port)
      requires port.direction.Input? && Split(inputs, outputs, bound) && inputCount == |inputs|
      modifies this`inputs, this`inputCount, this`bound, store`candidates
      ensures Split(inputs, outputs, bound) && inputCount == |inputs|
      ensures inputs == Erase(old(inputs), port) && bound == old(bound) - {port}
      ensures IsActive() ==> old(IsActive())
      ensures store.candidates == if old(IsActive()) && !IsActive() then old(store.candidates) + {this} else old(store.candidates)
    {
      hide Split;
      SplitErase(inputs, outputs, bound, port);
      bound := bound - {port};
      if port !in inputs {
        return;
      }
      inputs := Erase(inputs, port);
      inputCount := inputCount - 1;
      if !IsActive() {
        store.AddUniverseGarbageCollection(this);
      }
    }

    method EraseOutput(port: Port)
      requires port.direction.Output? && Split(inputs, outputs, bound) && outputCount == |outputs|
      modifies this`outputs, this`outputCount, this`bound, store`candidates
      ensures Split(inputs, outputs, bound) && outputCount == |outputs|
      ensures outputs == Erase(old(outputs), port) && bound == old(bound) - {port}
      ensures IsActive() ==> old(IsActive())
      ensures store.candidates == if old(IsActive()) && !IsActive() then old(store.candidates) + {this} else old(store.candidates)
    {
      hide Split;
      SplitErase(inputs, outputs, bound, port);
      bound := bound - {port};
      if port !in outputs {
        return;
      }
      outputs := Erase(outputs, port);
      outputCount := outputCount - 1;
      if !IsActive() {
        store.AddUniverseGarbageCollection(this);
      }
    }

    /** Drop the UIDs that lead to `port`. */
    method ForgetUids(port: Port)
      modifies this`uids, this`uidCount
      ensures forall u :: u in uids <==> u in old(uids) && old(uids)[u] != port
      ensures forall u :: u in uids ==> uids[u] == old(uids)[u]
      ensures uidCount == |uids|
    {
      var todo := uids.Keys;
      while todo != {}
        invariant todo <= uids.Keys
        invariant forall u :: u in uids ==> u in old(uids) && uids[u] == old(uids)[u]
        invariant forall u :: u in old(uids) && u !in todo ==> (u in uids <==> old(uids)[u] != port)
      {
        var u :| u in todo;
        todo := todo - {u};
        if uids[u] == port {
          uids := map v | v in uids && v != u :: uids[v];
        }
      }
      uidCount := |uids|;
    }

    // ---------- clients ----------

    method AddSourceClient(client: Client)
      requires ClientsWf()
      modifies this`sources, this`sourceCount, this`history, this`touched
      ensures ClientsWf() && touched && client in sources
      ensures sources == old(sources)[client := false] && history == old(history) + [SourceClients.Data(client)]
    {
      SourceClients.ReplayAppend(history, SourceClients.Data(client));
      history := history + [SourceClients.Data(client)];
      touched := true;
      if client !in sources {
        sourceCount := sourceCount + 1;
      }
      sources := sources[client := false];
    }

    method RemoveSourceClient(client: Client) returns (removed: bool)
      requires ClientsWf() && notifiedClients <= sinks && (IsActive() ==> touched)
      modifies this`sources, this`sourceCount, this`history, store`candidates
      ensures ClientsChanged() && removed == (client in old(sources))
      ensures sources == map c | c in old(sources) && c != client :: old(sources)[c]
      ensures history == old(history) + [SourceClients.Remove(client)]
      ensures old(store.candidates) <= store.candidates <= old(store.candidates) + {this}
    {
      SourceClients.ReplayAppend(history, SourceClients.Remove(client));
      history := history + [SourceClients.Remove(client)];
      if client !in sources {
        assert sources == SourceClients.Removed(sources, client);
        return false;
      }
      hide IsActive;
      ActiveWithSource(client);
      EraseSource(client);
      return true;
    }

    lemma ActiveWithSource(client: Client)
      requires client in sources
      ensures IsActive()
    {
    }

    method AddSinkClient(client: Client) returns (added: bool)
      requires ClientsWf() && notifiedClients <= sinks && (IsActive() ==> touched)
      modifies this`sinks, this`sinkCount, this`touched
      ensures ClientsChanged() && IsActive()
      ensures added == (client !in old(sinks)) && sinks == old(sinks) + {client}
    {
      touched := true;
      if client in sinks {
        assert sinks == sinks + {client};
        return false;
      }
      sinks := sinks + {client};
      sinkCount := sinkCount + 1;
      return true;
    }

    method RemoveSinkClient(client: Client) returns (removed: bool)
      requires ClientsWf() && notifiedClients <= sinks && (IsActive() ==> touched)
      modifies this`sinks, this`sinkCount, this`notifiedClients, store`candidates
      ensures ClientsChanged() && removed == (client in old(sinks)) && sinks == old(sinks) - {client}
      ensures notifiedClients == old(notifiedClients) - {client}
      ensures old(store.candidates) <= store.candidates <= old(store.candidates) + {this}
    {
      hide IsActive;
      hide Recorded;
      notifiedClients := notifiedClients - {client};
      removed := EraseSink(client);
    }

    method EraseSink(client: Client) returns (removed: bool)
      requires ClientsWf()
      modifies this`sinks, this`sinkCount, store`candidates
      ensures ClientsWf() && removed == (client in old(sinks)) && sinks == old(sinks) - {client}
      ensures IsActive() ==> old(IsActive())
      ensures store.candidates == if old(IsActive()) && !IsActive() then old(store.candidates) + {this} else old(store.candidates)
    {
      if client !in sinks {
        return false;
      }
      sinks := sinks - {client};
      sinkCount := sinkCount - 1;
      if !IsActive() {
        store.AddUniverseGarbageCollection(this);
      }
      return true;
    }

    /** Walk the source clients, in any order: drop the stale ones, and flag the rest. */
    method CleanStaleSourceClients()
      requires ClientsWf() && notifiedClients <= sinks && (IsActive() ==> touched)
      modifies this`sources, this`sourceCount, this`history, store`candidates
      ensures ClientsChanged()
      ensures sources == map c | c in old(sources) && !old(sources)[c] :: true
      ensures history == old(history) + [SourceClients.Sweep]
      ensures old(store.candidates) <= store.candidates <= old(store.candidates) + {this}
    {
      SourceClients.ReplayAppend(history, SourceClients.Sweep);
      SweepSources();
      history := history + [SourceClients.Sweep];
    }

    method SweepSources()
      requires sourceCount == |sources|
      modifies this`sources, this`sourceCount, store`candidates
      ensures sources == (map c | c in old(sources) && !old(sources)[c] :: true) && sourceCount == |sources|
      ensures store.candidates == if old(IsActive()) && !IsActive() then old(store.candidates) + {this} else old(store.candidates)
    {
      var todo := sources.Keys;
      while todo != {}
        invariant todo <= sources.Keys <= old(sources.Keys)
        invariant forall c :: c in todo ==> sources[c] == old(sources)[c]
        invariant forall c :: c in old(sources) && c !in todo ==> (c in sources <==> !old(sources)[c]) && (c in sources ==> sources[c])
        invariant sourceCount == |sources|
        invariant store.candidates == if old(IsActive()) && !IsActive() then old(store.candidates) + {this} else old(store.candidates)
      {
        var c :| c in todo;
        todo := todo - {c};
        if sources[c] {
          EraseSource(c);
        } else {
          sources := sources[c := true];
        }
      }
    }

    /** A client is a source exactly when it sent data, was not removed since, and at most one sweep has run since. */
    lemma SourcesAreRecent(client: Client)
      requires ClientsWf()
      ensures client in sources <==> exists i: nat, n: nat :: n <= 1 && SourceClients.LastHeard(history, client, i, n)
      ensures client in sources ==> forall i: nat, n: nat :: SourceClients.LastHeard(history, client, i, n) ==> sources[client] == (n == 1)
    {
      SourceClients.SourceIffHeardRecently(history, client);
    }

    method EraseSource(c: Client)
      requires c in sources && sourceCount == |sources|
      modifies this`sources, this`sourceCount, store`candidates
      ensures sources == SourceClients.Removed(old(sources), c) && sourceCount == |sources|
      ensures store.candidates == if !IsActive() then old(store.candidates) + {this} else old(store.candidates)
    {
      assert SourceClients.Removed(sources, c).Keys == sources.Keys - {c};
      sources := SourceClients.Removed(sources, c);
      sourceCount := sourceCount - 1;
      if !IsActive() {
        store.AddUniverseGarbageCollection(this);
      }
    }

    // ---------- DMX data ----------

    /** The output ports, as the set of objects a fan-out writes to. */
    ghost function OutputSet(): set<Port>
      reads this`outputs
    {
      Elements(outputs)
    }

    /** The buffer and the active priority have reached every port and client. */
    ghost predicate Delivered()
      reads this`outputs, this`sinks, this`buffer, this`activePriority, this`notifiedPorts, this`notifiedClients
      reads OutputSet()`written, sinks`received
    {
      && (forall p :: p in outputs ==> p.written == Some(Frame(buffer, activePriority)))
      && (forall c :: c in sinks ==> id in c.received && c.received[id] == Frame(buffer, activePriority))
      && notifiedPorts == OutputSet() && notifiedClients == sinks
    }

    /** The universe shows the outcome of a merge, and an accepted outcome has been delivered. */
    ghost predicate MergedTo(r: Outcome)
      reads this`outputs, this`sinks, this`buffer, this`activePriority, this`notifiedPorts, this`notifiedClients
      reads OutputSet()`written, sinks`received
    {
      activePriority == r.priority && buffer == r.buffer && (r.accepted ==> Delivered())
    }

    method UpdateDependants()
      requires Split(inputs, outputs, bound)
      modifies OutputSet()`written, sinks`received, this`notifiedPorts, this`notifiedClients
      ensures Delivered() && Synced()
      ensures forall c :: c in sinks ==> c.received == old(c.received)[id := Frame(buffer, activePriority)]
    {
      for i := 0 to |outputs|
        invariant forall j :: 0 <= j < i ==> outputs[j].written == Some(Frame(buffer, activePriority))
        modifies OutputSet()`written
      {
        outputs[i].WriteDmx(buffer, activePriority);
      }
      var todo := sinks;
      while todo != {}
        invariant todo <= sinks
        invariant forall c :: c in todo ==> c.received == old(c.received)
        invariant forall c :: c in sinks && c !in todo ==> c.received == old(c.received)[id := Frame(buffer, activePriority)]
        modifies sinks`received
      {
        var c :| c in todo;
        todo := todo - {c};
        c.SendDmx(id, activePriority, buffer);
      }
      notifiedPorts, notifiedClients := OutputSet(), sinks;
    }

    /** Override the data of this universe; an empty frame is ignored. */
    method SetDmx(data: DmxBuffer) returns (ok: bool)
      requires Sound()
      modifies this`buffer, OutputSet()`written, sinks`received, this`notifiedPorts, this`notifiedClients
      ensures ok && Sound()
      ensures |data| == 0 ==> buffer == old(buffer) && NothingSent(OutputSet(), sinks)
      ensures |data| != 0 ==> buffer == data && Delivered()
      ensures OnlyFor(id, sinks)
    {
      hide PortsWf;
      hide Collectable;
      hide Split;
      hide ClientsWf;
      SoundParts();
      if |data| == 0 {
        return true;
      }
      buffer := data;
      UpdateDependants();
      return true;
    }

    // ---------- merging ----------

    /** What the input ports supply. */
    ghost predicate FedByPort(f: Feed, port: Port?)
      reads this`inputs, (set p | p in inputs)`source
    {
      exists p :: p in inputs && f == Feed(p.source, p == port)
    }

    /** What the clients in `clients` supply. */
    ghost predicate FedByClient(f: Feed, clients: set<Client>, client: Client?)
      reads clients`dataMap
    {
      exists c :: c in clients && f == Feed(if id in c.dataMap then c.dataMap[id] else DmxSource([], 0, 0), c == client)
    }

    /** `feeds` lists what the ports and clients of this universe supply, in some order. */
    ghost predicate IsFeeds(feeds: seq<Feed>, port: Port?, client: Client?)
      reads this`inputs, this`sources, (set p | p in inputs)`source, sources.Keys`dataMap
    {
      forall f :: f in feeds <==> FedByPort(f, port) || FedByClient(f, sources.Keys, client)
    }

    /**
     * One turn of either scan: a live source above the priority so far restarts the list, one at that priority joins it.
     */
    method Consider(source: DmxSource, isChanged: bool, now: nat, active: seq<DmxSource>, changedActive: bool, ghost feeds: seq<Feed>)
        returns (active': seq<DmxSource>, changedActive': bool)
      requires activePriority == TopPriority(feeds, now)
      requires active == Sources(Winners(feeds, now)) && changedActive == ChangedWins(feeds, now)
      modifies this`activePriority
      ensures activePriority == TopPriority(feeds + [Feed(source, isChanged)], now)
      ensures active' == Sources(Winners(feeds + [Feed(source, isChanged)], now))
      ensures changedActive' == ChangedWins(feeds + [Feed(source, isChanged)], now)
    {
      active', changedActive' := active, changedActive;
      ScanEffect(feeds, Feed(source, isChanged), now);
      if !source.IsSet() || !source.IsActive(now) || |source.data| == 0 {
        return;
      }
      if source.priority > activePriority {
        changedActive' := false;
        active' := [];
        activePriority := source.priority;
      }
      if source.priority == activePriority {
        active' := active' + [source];
        if isChanged {
          changedActive' := true;
        }
      }
    }

    lemma FedByOneMore(clients: set<Client>, c: Client, client: Client?)
      ensures forall f :: FedByClient(f, clients + {c}, client) <==> FedByClient(f, clients, client) || f == Feed(c.SourceData(id), c == client)
    {
    }

    method ScanPorts(port: Port?, now: nat) returns (active: seq<DmxSource>, changedActive: bool, ghost feeds: seq<Feed>)
      requires activePriority == SOURCE_PRIORITY_MIN
      modifies this`activePriority
      ensures forall f :: f in feeds <==> FedByPort(f, port)
      ensures activePriority == TopPriority(feeds, now)
      ensures active == Sources(Winners(feeds, now)) && changedActive == ChangedWins(feeds, now)
    {
      active, changedActive, feeds := [], false, [];
      for i := 0 to |inputs|
        invariant forall f :: f in feeds <==> exists j :: 0 <= j < i && f == Feed(inputs[j].source, inputs[j] == port)
        invariant activePriority == TopPriority(feeds, now)
        invariant active == Sources(Winners(feeds, now)) && changedActive == ChangedWins(feeds, now)
      {
        active, changedActive := Consider(inputs[i].source, inputs[i] == port, now, active, changedActive, feeds);
        feeds := feeds + [Feed(inputs[i].source, inputs[i] == port)];
      }
    }

    /** Continue the scan over the source clients, in whatever order the container yields them. */
    method ScanClients(client: Client?, now: nat, active: seq<DmxSource>, changedActive: bool, ghost feeds: seq<Feed>)
        returns (active': seq<DmxSource>, changedActive': bool, ghost feeds': seq<Feed>)
      requires activePriority == TopPriority(feeds, now)
      requires active == Sources(Winners(feeds, now)) && changedActive == ChangedWins(feeds, now)
      modifies this`activePriority
      ensures forall f :: f in feeds' <==> f in feeds || FedByClient(f, sources.Keys, client)
      ensures activePriority == TopPriority(feeds', now)
      ensures active' == Sources(Winners(feeds', now)) && changedActive' == ChangedWins(feeds', now)
    {
      active', changedActive', feeds' := active, changedActive, feeds;
      var todo := sources.Keys;
      while todo != {}
        invariant todo <= sources.Keys
        invariant forall f :: f in feeds' <==> f in feeds || FedByClient(f, sources.Keys - todo, client)
        invariant activePriority == TopPriority(feeds', now)
        invariant active' == Sources(Winners(feeds', now)) && changedActive' == ChangedWins(feeds', now)
      {
        var c :| c in todo;
        FedByOneMore(sources.Keys - todo, c, client);
        todo := todo - {c};
        assert sources.Keys - todo == old(sources.Keys) - todo;
        active', changedActive' := Consider(c.SourceData(id), c == client, now, active', changedActive', feeds');
        feeds' := feeds' + [Feed(c.SourceData(id), c == client)];
      }
      assert sources.Keys - todo == sources.Keys;
    }

    /** The source whose change triggered a merge. */
    function ChangedSource(port: Port?, client: Client?): DmxSource
      reads this, port, client
    {
      if port != null then port.source else if client != null then client.SourceData(id) else NoSource
    }

    /**
     * Merge all sources. The outcome is the declarative one; `feeds` is some listing of the ports and clients, and
     * every other listing gives the same outcome (lemma AnyListing).
     */
    method MergeAll(port: Port?, client: Client?, now: nat) returns (accepted: bool, ghost feeds: seq<Feed>)
      requires (port != null && port in inputs && client == null) || (port == null && client != null && client in sources)
      modifies this`activePriority, this`buffer
      ensures IsFeeds(feeds, port, client)
      ensures Outcome(activePriority, accepted, buffer) == Merge(mergeMode, feeds, ChangedSource(port, client), now, old(buffer))
      ensures !accepted ==> buffer == old(buffer)
    {
      activePriority := SOURCE_PRIORITY_MIN;
      var active, changedActive;
      active, changedActive, feeds := ScanPorts(port, now);
      active, changedActive, feeds := ScanClients(client, now, active, changedActive, feeds);
      accepted := Settle(active, changedActive, ChangedSource(port, client), now, feeds);
    }

    lemma AnyListing(xs: seq<Feed>, ys: seq<Feed>, port: Port?, client: Client?, changed: DmxSource, now: nat, before: DmxBuffer)
      requires IsFeeds(xs, port, client) && IsFeeds(ys, port, client)
      ensures Merge(mergeMode, xs, changed, now, before) == Merge(mergeMode, ys, changed, now, before)
    {
      OrderIsIrrelevant(mergeMode, xs, ys, changed, now, before);
    }

    /** Decide the merge, given what the scan kept. */
    method Settle(active: seq<DmxSource>, changedActive: bool, changed: DmxSource, now: nat, ghost feeds: seq<Feed>)
        returns (accepted: bool)
      requires activePriority == TopPriority(feeds, now)
      requires active == Sources(Winners(feeds, now)) && changedActive == ChangedWins(feeds, now)
      requires forall f :: f in feeds && f.changed ==> f.source == changed
      modifies this`buffer
      ensures Outcome(activePriority, accepted, buffer) == Merge(mergeMode, feeds, changed, now, old(buffer))
    {
      ghost var winners := Winners(feeds, now);
      AtPriorityIsFilter(feeds, now, TopPriority(feeds, now));
      if |active| == 0 || !changedActive {
        return false;
      }
      if |active| == 1 {
        SoleWinner(winners, changed);
        buffer := active[0].data;
      } else if mergeMode == MergeLtp {
        for i := 0 to |active|
          invariant forall j :: 0 <= j < i ==> active[j].timestamp <= changed.timestamp
        {
          if changed.timestamp < active[i].timestamp {
            assert winners[i] in winners;
            return false;
          }
        }
        buffer := changed.data;
      } else {
        HtpMergeSources(active);
      }
      return true;
    }

    method HtpMergeSources(sources: seq<DmxSource>)
      modifies this`buffer
      ensures buffer == HtpAll(sources)
    {
      buffer := [];
      for i := 0 to |sources|
        invariant buffer == HtpAll(sources[..i])
      {
        assert sources[..i + 1][..i] == sources[..i];
        buffer := HtpMerge(buffer, sources[i].data);
      }
      assert sources[..|sources|] == sources;
    }

    /** Merge, and fan out if the merge was accepted: the common part of the two entry points below. */
    method MergeAndNotify(port: Port?, client: Client?, now: nat) returns (ghost feeds: seq<Feed>)
      requires (port != null && port in inputs && client == null) || (port == null && client != null && client in sources)
      requires Split(inputs, outputs, bound) && Synced()
      modifies this`buffer, this`activePriority, OutputSet()`written, sinks`received, this`notifiedPorts, this`notifiedClients
      ensures Synced() && OnlyFor(id, sinks)
      ensures IsFeeds(feeds, port, client)
      ensures var r := Merge(mergeMode, feeds, ChangedSource(port, client), now, old(buffer));
        MergedTo(r) && (!r.accepted ==> NothingSent(OutputSet(), sinks))
    {
      hide Split;
      hide Merge;
      hide IsFeeds;
      hide Delivered;
      var accepted;
      accepted, feeds := MergeAll(port, client, now);
      if accepted {
        UpdateDependants();
      }
    }

    method PortDataChanged(port: Port, now: nat) returns (ok: bool, ghost feeds: seq<Feed>)
      requires Sound()
      modifies this`buffer, this`activePriority, OutputSet()`written, sinks`received, this`notifiedPorts, this`notifiedClients
      ensures Sound() && OnlyFor(id, sinks)
      ensures ok == (port in inputs)
      ensures !ok ==> unchanged(this) && NothingSent(OutputSet(), sinks)
      ensures ok ==> IsFeeds(feeds, port, null)
      ensures ok ==> var r := Merge(mergeMode, feeds, port.source, now, old(buffer));
        MergedTo(r) && (!r.accepted ==> NothingSent(OutputSet(), sinks))
    {
      hide PortsWf;
      hide Collectable;
      hide Synced;
      hide Merge;
      hide IsFeeds;
      SoundParts();
      if port !in inputs {
        return false, [];
      }
      feeds := MergeAndNotify(port, null, now);
      return true, feeds;
    }

    method SourceClientDataChanged(client: Client, now: nat) returns (ghost feeds: seq<Feed>)
      requires Sound()
      modifies this`sources, this`sourceCount, this`history, this`touched
      modifies this`buffer, this`activePriority, OutputSet()`written, sinks`received, this`notifiedPorts, this`notifiedClients
      ensures Sound() && OnlyFor(id, sinks)
      ensures sources == old(sources)[client := false] && history == old(history) + [SourceClients.Data(client)]
      ensures IsFeeds(feeds, null, client)
      ensures var changed := if id in client.dataMap then client.dataMap[id] else DmxSource([], 0, 0);
        var r := Merge(mergeMode, feeds, changed, now, old(buffer));
        MergedTo(r) && (!r.accepted ==> NothingSent(OutputSet(), sinks))
    {
      hide Split;
      hide Merge;
      hide Synced;
      hide Delivered;
      hide IsFeeds;
      hide PortsWf;
      hide Collectable;
      hide ClientsWf;
      hide MergedTo;
      SoundParts();
      AddSourceClient(client);  // always, since this may be the first data
      feeds := MergeAndNotify(null, client, now);
      InUseIsCollectable(client);
    }

    lemma BoundIsActive(port: Port)
      requires Split(inputs, outputs, bound) && port in bound
      ensures IsActive()
    {
    }

    lemma OwnersAreInBound()
      requires PortsWf()
      ensures forall u :: u in uids ==> uids[u] in bound
    {
    }

    lemma OutputsAreBound()
      requires Split(inputs, outputs, bound)
      ensures OutputSet() <= bound
    {
    }

    lemma SoundParts()
      requires Sound()
      ensures Split(inputs, outputs, bound)
    {
    }

    lemma InUseIsCollectable(client: Client)
      requires client in sources && touched
      ensures Collectable()
    {
    }

    // ---------- RDM discovery ----------

    /**
     * Take in one port's UIDs: first drop those it owned and no longer reports, then add those nobody owns.
     * The owners stay bound exactly when the port is bound or reports nothing new.
     */
    method NewUidList(port: Port, found: set<Uid>)
      requires OwnersBound()
      modifies this`uids, this`uidCount
      ensures uids == NewUids(old(uids), Report(port, found)) && uidCount == |uids|
      ensures forall u :: u in uids <==> u in found || (u in old(uids) && old(uids)[u] != port)
      ensures forall u :: u in uids ==> uids[u] == if u in old(uids) then old(uids)[u] else port
      ensures OwnersBound() <==> port in outputs || found <= old(uids).Keys
    {
      OneReport(uids, port, found);
      hide DropLost;
      hide AddFound;
      OwnersStayBound(uids, Report(port, found), outputs);
      DropLostUids(port, found);
      AddFoundUids(port, found);
      uidCount := |uids|;
    }

    /** The answers of one discovery round: each output port answers once, in the order in which they complete. */
    ghost predicate IsRound(reports: seq<Report<Port>>)
      reads this`outputs
    {
      && DistinctPorts(reports) && |reports| == |outputs|
      && (forall r :: r in reports ==> r.port in outputs)
      && (forall p :: p in outputs ==> InRound(p, reports))
    }

    /**
     * Run discovery on every output port. `reports` are the answers in completion order; the caller's callback runs
     * once, when the last port completes (at once if there is none), with every UID then in the index.
     */
    method RunRdmDiscovery(reports: seq<Report<Port>>) returns (round: DiscoveryRound)
      requires PortsWf() && IsRound(reports)
      modifies this`uids, this`uidCount
      ensures PortsWf() && uids == Round(old(uids), reports) && Complete(old(uids), reports)
      ensures round.answers == [uids.Keys]
    {
      hide PortsWf;
      hide OwnersBound;
      hide IsRound;
      hide Complete;
      hide DistinctPorts;
      hide PortsOf;
      hide Round;
      hide NoDup;
      RoundIsReady(reports);
      round := new DiscoveryRound(this);
      for i := 0 to |reports|
        invariant OwnersBound() && uidCount == |uids| && round.Valid() && round.universe == this && fresh(round)
        invariant Round(uids, reports[i..]) == Round(old(uids), reports) && DistinctPorts(reports[i..])
        invariant round.waiting == PortsOf(reports[i..]) && (round.waiting == {} ==> round.answers == [uids.Keys])
      {
        assert reports[i..][1..] == reports[i + 1..] && reports[i..][0] == reports[i] && reports[i] in reports;
        NextOfRound(uids, reports[i..]);
        round.PortDiscoveryComplete(reports[i].port, reports[i].uids);
      }
      EndOfRound(uids);
      OnlyUidsChanged();
    }

    twostate lemma OnlyUidsChanged()
      requires old(PortsWf()) && unchanged(this`inputs, this`outputs, this`bound, this`inputCount, this`outputCount)
      requires OwnersBound() && uidCount == |uids|
      ensures PortsWf()
    {
    }

    /**
     * Two rounds in which each port gives the same answer leave exactly the union of all answers, each UID with a port
     * that reported it, whatever was in the index, and in whatever order the ports complete.
     */
    method RunRdmDiscoveryTwice(first: seq<Report<Port>>, second: seq<Report<Port>>)
      requires PortsWf() && IsRound(first) && IsRound(second) && forall r :: r in first <==> r in second
      modifies this`uids, this`uidCount
      ensures PortsWf()
      ensures forall u :: u in uids <==> Reported(u, second)
      ensures forall u :: u in uids ==> Reports(uids[u], u, second)
    {
      hide PortsWf;
      hide Round;
      RoundIsReady(second);
      hide IsRound;
      var _ := RunRdmDiscovery(first);
      var _ := RunRdmDiscovery(second);
      forall u: Uid
        ensures u in uids <==> Reported(u, second)
        ensures u in uids ==> Reports(uids[u], u, second)
      {
        TwoRoundsConverge(old(uids), first, second, u);
      }
    }

    lemma RoundIsReady(reports: seq<Report<Port>>)
      requires PortsWf() && IsRound(reports)
      ensures OwnersBound() && uidCount == |uids| && NoDup(outputs) && Complete(uids, reports) && DistinctPorts(reports)
      ensures PortsOf(reports) == OutputSet() && reports[0..] == reports && forall r :: r in reports ==> r.port in outputs
    {
    }

    lemma EndOfRound(uids: Owners<Port>)
      ensures PortsOf([]) == {} && Round(uids, []) == uids
    {
    }

    method DropLostUids(port: Port, found: set<Uid>)
      modifies this`uids
      ensures uids == DropLost(old(uids), Report(port, found))
    {
      var todo := uids.Keys;
      while todo != {}
        invariant todo <= uids.Keys
        invariant forall u :: u in uids ==> u in old(uids) && uids[u] == old(uids)[u]
        invariant forall u :: u in old(uids) && u !in todo ==> (u in uids <==> old(uids)[u] != port || u in found)
      {
        var u :| u in todo;
        todo := todo - {u};
        if uids[u] == port && u !in found {
          uids := map v | v in uids && v != u :: uids[v];
        }
      }
    }

    method AddFoundUids(port: Port, found: set<Uid>)
      modifies this`uids
      ensures uids == AddFound(old(uids), Report(port, found))
    {
      var todo := found;
      while todo != {}
        invariant todo <= found
        invariant forall u :: u in uids <==> u in old(uids) || (u in found && u !in todo)
        invariant forall u :: u in uids ==> uids[u] == if u in old(uids) then old(uids)[u] else port
      {
        var u :| u in todo;
        todo := todo - {u};
        if u !in uids {
          uids := uids[u := port];
        }
      }
    }
  }

  /** The ports that report in a round. */
  ghost function PortsOf(reports: seq<Report<Port>>): set<Port> {
    set r | r in reports :: r.port
  }

  lemma NextOfRound(uids: Owners<Port>, reports: seq<Report<Port>>)
    requires DistinctPorts(reports) && reports != []
    ensures reports[0].port in PortsOf(reports) && PortsOf(reports[1..]) == PortsOf(reports) - {reports[0].port}
    ensures DistinctPorts(reports[1..])
    ensures Round(uids, reports) == Round(NewUids(uids, Report(reports[0].port, reports[0].uids)), reports[1..])
  {
    assert Report(reports[0].port, reports[0].uids) == reports[0];
  }

  /**
   * A round of discovery under way on a universe. Between two completions anything may happen to the universe that keeps
   * its owners bound.
   */
  class DiscoveryRound {
    const universe: Universe
    const limit: nat
    var count: nat
    /** What the caller's callback has been run with. */
    var answers: seq<set<Uid>>
    /** The ports that have not completed yet. */
    ghost var waiting: set<Port>

    constructor (universe: Universe)
      requires NoDup(universe.outputs)
      ensures Valid() && this.universe == universe && waiting == universe.OutputSet()
      ensures answers == if waiting == {} then [universe.uids.Keys] else []
    {
      SizeOfList(universe.outputs);
      this.universe, limit, count := universe, |universe.outputs|, 0;
      waiting := universe.OutputSet();
      answers := if |universe.outputs| == 0 then [universe.uids.Keys] else [];
    }

    ghost predicate Valid()
      reads this
    {
      count + |waiting| == limit && |answers| == if waiting == {} then 1 else 0
    }

    /**
     * One port is done. The callback runs exactly on the last completion, with the index of that moment; the owners stay
     * bound exactly if the port is still bound or reports nothing that is new.
     */
    method PortDiscoveryComplete(port: Port, found: set<Uid>)
      requires Valid() && port in waiting && universe.OwnersBound()
      modifies this, universe`uids, universe`uidCount
      ensures Valid() && waiting == old(waiting) - {port}
      ensures universe.uids == NewUids(old(universe.uids), Report(port, found)) && universe.uidCount == |universe.uids|
      ensures universe.OwnersBound() <==> port in universe.outputs || found <= old(universe.uids).Keys
      ensures answers == if waiting == {} then [universe.uids.Keys] else []
    {
      hide NewUids;
      hide Universe.OwnersBound;
      universe.NewUidList(port, found);
      assert |waiting - {port}| == |waiting| - 1;
      waiting := waiting - {port};
      count := count + 1;
      if count == limit {
        answers := answers + [universe.uids.Keys];
      }
    }
  }

  lemma {:induction false} SizeOfList(list: seq<Port>)
    requires NoDup(list)
    ensures |Elements(list)| == |list|
  {
    if list != [] {
      SizeOfList(list[1..]);
      assert Elements(list) == Elements(list[1..]) + {list[0]};
      assert list[0] !in list[1..];
    }
  }

  /** `inputs` and `outputs` list, once each, the ports of `bound` of their direction. */
  ghost predicate Split(inputs: seq<Port>, outputs: seq<Port>, bound: set<Port>) {
    && NoDup(inputs) && NoDup(outputs)
    && (forall p :: p in inputs ==> p in bound && p.direction.Input?)
    && (forall p :: p in outputs ==> p in bound && p.direction.Output?)
    && (forall p :: p in bound ==> p in if p.direction.Input? then inputs else outputs)
  }

  /** Every owner is one of `outputs`. */
  ghost predicate OwnersAmong(uids: Owners<Port>, outputs: seq<Port>) {
    forall u :: u in uids ==> uids[u] in outputs
  }

  lemma OwnersWith(uids: Owners<Port>, outputs: seq<Port>, port: Port)
    requires OwnersAmong(uids, outputs)
    ensures OwnersAmong(uids, outputs + [port])
  {
  }

  /** An input port owns nothing, and without the UIDs of an output port the others' owners stay bound when it goes. */
  lemma OwnersWithout(uids: Owners<Port>, inputs: seq<Port>, outputs: seq<Port>, bound: set<Port>, port: Port)
    requires OwnersAmong(uids, outputs) && Split(inputs, outputs, bound)
    ensures port.direction.Input? ==> forall u :: u in uids ==> uids[u] != port
    ensures forall fewer: Owners<Port> :: (forall u :: u in fewer ==> u in uids && uids[u] != port && fewer[u] == uids[u]) ==>
              OwnersAmong(fewer, Erase(outputs, port))
  {
  }

  lemma SplitErase(inputs: seq<Port>, outputs: seq<Port>, bound: set<Port>, port: Port)
    requires Split(inputs, outputs, bound)
    ensures port.direction.Input? ==> Split(Erase(inputs, port), outputs, bound - {port})
    ensures port.direction.Output? ==> Split(inputs, Erase(outputs, port), bound - {port})
    ensures port in inputs || port in outputs <==> port in bound
  {
    EraseNoDup(inputs, port);
    EraseNoDup(outputs, port);
  }

  lemma SplitAppend(inputs: seq<Port>, outputs: seq<Port>, bound: set<Port>, port: Port)
    requires Split(inputs, outputs, bound)
    ensures port.direction.Input? && port !in inputs ==> Split(inputs + [port], outputs, bound + {port})
    ensures port.direction.Output? && port !in outputs ==> Split(inputs, outputs + [port], bound + {port})
    ensures port in inputs || port in outputs ==> bound + {port} == bound
  {
  }

  /** No frame has gone out to these ports and clients. */
  twostate predicate NothingSent(ports: set<Port>, clients: set<Client>)
    reads ports`written, clients`received
  {
    && (forall p :: p in ports ==> unchanged(p`written))
    && (forall c :: c in clients ==> unchanged(c`received))
  }

  /** What these clients were sent for universes other than `id` is as it was. */
  twostate predicate OnlyFor(id: nat, clients: set<Client>)
    reads clients`received
  {
    forall c, u :: c in clients && u != id ==>
      (u in c.received <==> u in old(c.received)) && (u in c.received ==> c.received[u] == old(c.received)[u])
  }
}
