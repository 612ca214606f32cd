/** The server: data from ports and clients, housekeeping, and whole runs of it. */
module Servers {
  import opened Sequences
  import opened Dmx
  import opened Merging
  import opened Discovery
  import opened Universes
  import opened PortManagers
  import SourceClients

  class OlaServer {
    const manager: PortManager
    /** Every connected client. */
    var clients: set<Client>

    constructor (manager: PortManager)
      requires manager.Valid() && manager.AllConfigured() && manager.store.universes == map[]
      ensures Valid() && this.manager == manager && clients == {}
    {
      this.manager := manager;
      clients := {};
    }

    /** Universes only know connected clients. */
    ghost predicate ClientsKnown()
      reads this, manager.store`universes, manager.store.universes.Values`sources, manager.store.universes.Values`sinks
    {
      forall id :: id in manager.store.universes ==>
        manager.store.universes[id].sources.Keys <= clients && manager.store.universes[id].sinks <= clients
    }

    ghost predicate Valid()
      reads this, manager, manager.store, manager.broker, manager.ports, manager.devices, manager.store.universes.Values
      reads (set u, p | u in manager.store.universes.Values && p in u.notifiedPorts :: p)`written
      reads (set u, c | u in manager.store.universes.Values && c in u.notifiedClients :: c)`received
    {
      manager.Valid() && manager.AllConfigured() && ClientsKnown()
    }

    // ---------- one universe at a time ----------

    /** Nothing another universe watches over is among the outputs of universe `id`. */
    ghost predicate Apart(id: nat)
      requires id in manager.store.universes
      reads this, manager, manager.store, manager.store.universes.Values
    {
      forall i :: i in manager.store.universes && i != id ==> var v := manager.store.universes[i];
        && v.id != id && v.store == manager.store && v.notifiedClients <= clients && v.notifiedPorts <= manager.ports
        && forall p :: p in v.notifiedPorts ==> p !in manager.store.universes[id].outputs
    }

    lemma StoredUniverse(id: nat)
      requires Valid() && id in manager.store.universes
      ensures Apart(id) && manager.store.Filed()
      ensures var u := manager.store.universes[id];
        && u.id == id && u.store == manager.store && u.Sound() && u.sinks <= clients
        && u.PortsWf() && Split(u.inputs, u.outputs, u.bound) && u.ClientsWf() && u.Collectable() && u.Synced()
        && u.notifiedClients <= u.sinks && (u.IsActive() ==> u.touched)
    {
      var u := manager.store.universes[id];
      forall i, p | i in manager.store.universes && i != id && p in manager.store.universes[i].notifiedPorts
        ensures p in manager.ports && p !in u.outputs
      {
        var v := manager.store.universes[i];
        assert v.Sound() && p in v.bound && p.universe == v;
      }
      forall i | i in manager.store.universes && i != id
        ensures manager.store.universes[i].notifiedClients <= clients
      {
        assert manager.store.universes[i].Sound();
      }
    }

    lemma StoredIsSound(id: nat)
      requires Valid() && id in manager.store.universes
      ensures Apart(id) && forall i :: i in manager.store.universes ==> manager.store.universes[i].id == i
      ensures var u := manager.store.universes[id]; u.store == manager.store && u.Sound() && u.sinks <= clients
    {
      hide PortManager.Valid;
      hide Apart;
      hide ClientsKnown;
      StoredUniverse(id);
      FiledById();
    }

    /** Frames have gone out for universe `id` alone, and no other universe has changed. */
    twostate predicate OnlyData(id: nat)
      reads manager, manager.store, manager.store.universes.Values, manager.ports, this, clients
    {
      && id in manager.store.universes && manager.store.universes == old(manager.store.universes)
      && manager.store.candidates == old(manager.store.candidates)
      && manager.ports == old(manager.ports) && clients == old(clients)
      && (forall i :: i in manager.store.universes && i != id ==> unchanged(manager.store.universes[i]))
      && var u := manager.store.universes[id];
      && u.outputs == old(u.outputs) && u.sinks == old(u.sinks)
      && (forall p :: p in manager.ports && p !in u.outputs ==> unchanged(p`written))
      && (forall c :: c in clients && c !in u.sinks ==> unchanged(c`received))
      && u.sinks <= clients && OnlyFor(id, u.sinks)
    }

    twostate lemma OthersUntouched(id: nat)
      requires old(id in manager.store.universes && Apart(id)) && OnlyData(id)
      ensures forall i :: i in manager.store.universes && i != id ==> manager.store.universes[i].Untouched()
    {
      forall i | i in manager.store.universes && i != id
        ensures manager.store.universes[i].Untouched()
      {
        var v := manager.store.universes[i];
        forall p | p in old(v.notifiedPorts)
          ensures p.written == old(p.written)
        {
          assert old(p !in manager.store.universes[id].outputs);
        }
      }
    }

    twostate lemma DataStepIsSound(id: nat)
      requires old(manager.store.EachSound()) && OnlyData(id) && old(Apart(id))
      requires manager.store.universes[id].store == manager.store && manager.store.universes[id].Sound()
      ensures manager.store.EachSound()
    {
      hide Universe.Sound;
      hide Universe.Untouched;
      OthersUntouched(id);
      manager.store.OthersStaySound(manager.store.universes[id]);
    }

    /** Frames have gone out, and no port has moved. */
    twostate predicate DataStep(id: nat)
      reads manager, manager.store, manager.broker, manager.store.universes.Values, manager.ports, manager.devices, this, clients
    {
      && OnlyData(id) && unchanged(manager, manager.broker)
      && (forall p :: p in manager.ports ==> unchanged(p`universe)) && (forall d :: d in manager.devices ==> unchanged(d))
      && manager.store.universes[id].bound == old(manager.store.universes[id].bound)
      && manager.store.universes[id].store == manager.store
    }

    twostate lemma DataStepIsValid(id: nat)
      requires old(manager.Valid() && id in manager.store.universes && Apart(id)) && DataStep(id)
      requires manager.store.universes[id].Sound()
      ensures manager.Valid()
    {
      hide Universe.Sound;
      hide UniverseStore.EachSound;
      hide Apart;
      DataStepIsSound(id);
      hide OnlyFor;
    }

    /** Whatever clients the universes have taken on are connected ones. */
    twostate lemma StillKnown()
      requires old(ClientsKnown()) && clients == old(clients)
      requires forall id :: id in manager.store.universes && id in old(manager.store.universes) ==> var u := manager.store.universes[id];
        u == old(manager.store.universes)[id] && u.sources.Keys <= old(u.sources).Keys + clients && u.sinks <= old(u.sinks) + clients
      requires forall id :: id in manager.store.universes && id !in old(manager.store.universes) ==> var u := manager.store.universes[id];
        u.sources.Keys <= clients && u.sinks <= clients
      ensures ClientsKnown()
    {
    }

    // ---------- data from clients ----------

    /** The priority a client asks for, cut to a byte and then brought into range; the default if it asks for none. */
    function ClampPriority(asked: Option<int>): byte {
      match asked
      case None => SOURCE_PRIORITY_DEFAULT
      case Some(n) =>
        var p := (n % 256) as byte;
        if p < SOURCE_PRIORITY_MIN then SOURCE_PRIORITY_MIN else if p > SOURCE_PRIORITY_MAX then SOURCE_PRIORITY_MAX else p
    }

    /** A number that is no byte is not simply brought into range: that holds exactly if its low byte is at the right end. */
    lemma PriorityIsCutFirst(n: int)
      ensures var wanted := if n < SOURCE_PRIORITY_MIN as int then SOURCE_PRIORITY_MIN as int
                            else if n > SOURCE_PRIORITY_MAX as int then SOURCE_PRIORITY_MAX as int else n;
        ClampPriority(Some(n)) as int == wanted <==>
          0 <= n <= 255 || (n > 255 && n % 256 >= SOURCE_PRIORITY_MAX as int) || (n < 0 && n % 256 == SOURCE_PRIORITY_MIN as int)
    {
      assert 0 <= n <= 255 ==> n % 256 == n;
    }

    /** Data from a client for a universe; refused, with nothing changed, if the universe does not exist. */
    method UpdateDmxData(client: Client, id: nat, data: DmxBuffer, asked: Option<int>, now: nat) returns (ok: bool, ghost feeds: seq<Feed>)
      requires Valid() && client in clients
      modifies client`dataMap
      modifies Named(id)`sources, Named(id)`sourceCount, Named(id)`history, Named(id)`touched, Named(id)`buffer, Named(id)`activePriority
      modifies Named(id)`notifiedPorts, Named(id)`notifiedClients, OutputsOf(id)`written, SinksOf(id)`received
      ensures Valid()
      ensures ok == (id in manager.store.universes)
      ensures !ok ==> unchanged(client)
      ensures ok ==> var priority := if asked == None then 100 else if asked.value % 256 > 200 then 200 else asked.value % 256;
        client.dataMap == old(client.dataMap)[id := DmxSource(data, now, priority as byte)]
      ensures ok ==> var u := manager.store.universes[id];
        && u.sources == old(u.sources)[client := false]
        && u.MergedTo(Merge(u.mergeMode, feeds, client.dataMap[id], now, old(u.buffer))) && u.IsFeeds(feeds, null, client)
    {
      hide Universe.MergedTo;
      hide Universe.IsFeeds;
      hide Merge;
      hide PortManager.Valid;
      hide ClientsKnown;
      if id !in manager.store.universes {
        return false, [];
      }
      client.DmxReceived(id, DmxSource(data, now, ClampPriority(asked)));
      feeds := FeedUniverse(client, id, now);
      StillKnown();
      return true, feeds;
    }

    method FeedUniverse(client: Client, id: nat, now: nat) returns (ghost feeds: seq<Feed>)
      requires Valid() && client in clients && id in manager.store.universes && id in client.dataMap
      modifies Named(id)`sources, Named(id)`sourceCount, Named(id)`history, Named(id)`touched, Named(id)`buffer, Named(id)`activePriority
      modifies Named(id)`notifiedPorts, Named(id)`notifiedClients, OutputsOf(id)`written, SinksOf(id)`received
      ensures manager.Valid()
      ensures var u := manager.store.universes[id];
        && u.sources == old(u.sources)[client := false]
        && u.MergedTo(Merge(u.mergeMode, feeds, client.dataMap[id], now, old(u.buffer))) && u.IsFeeds(feeds, null, client)
    {
      hide PortManager.Valid;
      hide ClientsKnown;
      hide Universe.Sound;
      hide Apart;
      hide Universe.IsFeeds;
      hide Universe.MergedTo;
      hide NothingSent;
      hide OnlyFor;
      hide Merge;
      StoredIsSound(id);
      feeds := manager.store.universes[id].SourceClientDataChanged(client, now);
      DataStepIsValid(id);
    }

    ghost function Named(id: nat): set<Universe>
      reads manager.store`universes
    {
      if id in manager.store.universes then {manager.store.universes[id]} else {}
    }

    ghost function OutputsOf(id: nat): set<Port>
      reads manager.store`universes, Named(id)`outputs
    {
      if id in manager.store.universes then manager.store.universes[id].OutputSet() else {}
    }

    ghost function SinksOf(id: nat): set<Client>
      reads manager.store`universes, Named(id)`sinks
    {
      if id in manager.store.universes then manager.store.universes[id].sinks else {}
    }

    // ---------- clients that come and go ----------

    /** Universe `id` has changed its clients; nothing else in the server has changed. */
    twostate predicate OnlyClients(id: nat)
      reads manager, manager.store, manager.store.universes.Values
    {
      && id in manager.store.universes && manager.store.universes == old(manager.store.universes)
      && (forall i :: i in manager.store.universes && i != id ==> unchanged(manager.store.universes[i]))
      && old(manager.store.candidates) <= manager.store.candidates <= old(manager.store.candidates) + {manager.store.universes[id]}
    }

    twostate lemma ClientStepIsValid(id: nat)
      requires old(manager.Valid()) && OnlyClients(id) && manager.store.universes[id].ClientsChanged()
      requires var u := manager.store.universes[id];
        u.bound == old(u.bound) && u.notifiedPorts == old(u.notifiedPorts) && u.notifiedClients <= old(u.notifiedClients)
      requires unchanged(manager, manager.broker) && (forall d :: d in manager.devices ==> unchanged(d))
      requires forall p :: p in manager.ports ==> unchanged(p`universe)
      requires forall i :: i in manager.store.universes ==> var v := manager.store.universes[i];
        && (forall p :: p in old(v.notifiedPorts) ==> unchanged(p`written)) && (forall c :: c in old(v.notifiedClients) ==> unchanged(c`received))
      ensures manager.Valid()
    {
      hide Universe.Sound;
      hide Universe.ClientsChanged;
      hide Universe.IsActive;
      manager.store.universes[id].ClientsChangedStaysSound();
      manager.store.OthersStaySound(manager.store.universes[id]);
    }

    /** What the client operations of a universe rely on. */
    lemma ReadyForClients(id: nat)
      requires Valid() && id in manager.store.universes
      ensures forall i :: i in manager.store.universes ==> manager.store.universes[i].id == i
      ensures var u := manager.store.universes[id];
        u.store == manager.store && u.ClientsWf() && u.notifiedClients <= u.sinks && (u.IsActive() ==> u.touched)
    {
      hide PortManager.Valid;
      hide Apart;
      hide ClientsKnown;
      StoredUniverse(id);
      FiledById();
    }

    method AddSink(client: Client, id: nat)
      requires Valid() && client in clients && id in manager.store.universes
      modifies Named(id)`sinks, Named(id)`sinkCount, Named(id)`touched
      ensures Valid()
      ensures manager.store.universes[id].touched
      ensures manager.store.universes[id].sinks == old(manager.store.universes[id].sinks) + {client}
    {
      hide PortManager.Valid;
      hide ClientsKnown;
      hide Universe.ClientsWf;
      hide Universe.IsActive;
      ReadyForClients(id);
      var universe := manager.store.universes[id];
      var _ := universe.AddSinkClient(client);
      ClientStepIsValid(id);
      StillKnown();
    }

    method RemoveSink(client: Client, id: nat)
      requires Valid() && id in manager.store.universes
      modifies Named(id)`sinks, Named(id)`sinkCount, Named(id)`notifiedClients, manager.store`candidates
      ensures Valid()
      ensures manager.store.universes[id].sinks == old(manager.store.universes[id].sinks) - {client}
    {
      hide PortManager.Valid;
      hide ClientsKnown;
      DropSink(client, id);
      StillKnown();
    }

    /** The universe loses a sink; whether its clients are connected is seen to by the caller. */
    method DropSink(client: Client, id: nat)
      requires Valid() && id in manager.store.universes
      modifies Named(id)`sinks, Named(id)`sinkCount, Named(id)`notifiedClients, manager.store`candidates
      ensures manager.Valid()
      ensures manager.store.universes[id].sinks == old(manager.store.universes[id].sinks) - {client}
    {
      hide PortManager.Valid;
      hide ClientsKnown;
      hide Universe.ClientsWf;
      hide Universe.IsActive;
      ReadyForClients(id);
      var universe := manager.store.universes[id];
      var _ := universe.RemoveSinkClient(client);
      ClientStepIsValid(id);
    }

    method RemoveSource(client: Client, id: nat)
      requires Valid() && id in manager.store.universes
      modifies Named(id)`sources, Named(id)`sourceCount, Named(id)`history, manager.store`candidates
      ensures Valid()
      ensures manager.store.universes[id].sources == SourceClients.Removed(old(manager.store.universes[id].sources), client)
    {
      hide PortManager.Valid;
      hide ClientsKnown;
      DropSource(client, id);
      StillKnown();
    }

    /** The universe loses a source. */
    method DropSource(client: Client, id: nat)
      requires Valid() && id in manager.store.universes
      modifies Named(id)`sources, Named(id)`sourceCount, Named(id)`history, manager.store`candidates
      ensures manager.Valid()
      ensures manager.store.universes[id].sources == SourceClients.Removed(old(manager.store.universes[id].sources), client)
    {
      hide PortManager.Valid;
      hide ClientsKnown;
      hide Universe.ClientsWf;
      hide Universe.IsActive;
      ReadyForClients(id);
      var universe := manager.store.universes[id];
      var _ := universe.RemoveSourceClient(client);
      ClientStepIsValid(id);
    }

    method SweepSources(id: nat)
      requires Valid() && id in manager.store.universes
      modifies Named(id)`sources, Named(id)`sourceCount, Named(id)`history, manager.store`candidates
      ensures Valid()
      ensures manager.store.universes[id].sources == SourceClients.Swept(old(manager.store.universes[id].sources))
    {
      hide PortManager.Valid;
      hide ClientsKnown;
      DropStale(id);
      StillKnown();
    }

    /** The universe loses its stale sources. */
    method DropStale(id: nat)
      requires Valid() && id in manager.store.universes
      modifies Named(id)`sources, Named(id)`sourceCount, Named(id)`history, manager.store`candidates
      ensures manager.Valid()
      ensures manager.store.universes[id].sources == SourceClients.Swept(old(manager.store.universes[id].sources))
    {
      hide PortManager.Valid;
      hide ClientsKnown;
      hide Universe.ClientsWf;
      hide Universe.IsActive;
      ReadyForClients(id);
      var universe := manager.store.universes[id];
      universe.CleanStaleSourceClients();
      ClientStepIsValid(id);
    }

    /**
     * Register a client for a universe's data, creating the universe if need be, or unregister it. A universe that an
     * unregistration creates has nobody on it and counts as never used.
     */
    method RegisterForDmx(client: Client, id: UniverseId, register: bool)
      requires Valid() && client in clients
      modifies manager.store`universes, manager.store`candidates
      modifies Named(id)`sinks, Named(id)`sinkCount, Named(id)`touched, Named(id)`notifiedClients
      ensures Valid()
      ensures manager.store.universes.Keys == old(manager.store.universes).Keys + {id}
      ensures forall i :: i in old(manager.store.universes) ==> manager.store.universes[i] == old(manager.store.universes)[i]
      ensures id in old(manager.store.universes) ==> var u := manager.store.universes[id];
        u.sinks == if register then old(u.sinks) + {client} else old(u.sinks) - {client}
      ensures id !in old(manager.store.universes) ==> var u := manager.store.universes[id];
        && fresh(u) && u.sinks == (if register then {client} else {}) && u.sources == map[] && u.inputs == u.outputs == []
        && u.mergeMode == manager.store.SavedMode(id) && u.touched == register
    {
      hide PortManager.Valid;
      hide ClientsKnown;
      Ensure(id);
      if register {
        AddSink(client, id);
      } else {
        RemoveSink(client, id);
      }
    }

    /** Make sure the universe exists. */
    method Ensure(id: UniverseId)
      requires Valid()
      modifies manager.store`universes
      ensures Valid() && id in manager.store.universes
      ensures if id in old(manager.store.universes) then manager.store.universes == old(manager.store.universes)
              else fresh(manager.store.universes[id]) && manager.store.universes[id].Pristine()
                   && manager.store.universes[id].mergeMode == manager.store.SavedMode(id)
                   && manager.store.universes == old(manager.store.universes)[id := manager.store.universes[id]]
    {
      hide Universe.Sound;
      hide UniverseStore.EachSound;
      hide PortManager.Linked;
      hide PortManager.Owned;
      hide PortManager.Legal;
      hide ClientsKnown;
      var u := manager.store.GetUniverseOrCreate(id);
      manager.CreatedIsLinked(null);
      StillKnown();
    }

    method ConnectClient(client: Client)
      requires Valid()
      modifies this
      ensures Valid() && clients == old(clients) + {client}
    {
      hide PortManager.Valid;
      clients := clients + {client};
    }

    /** A client is gone: afterwards no universe refers to it, and it may be freed. */
    method CleanupConnection(client: Client)
      requires Valid()
      modifies this, manager.store`candidates, manager.store.universes.Values`sources, manager.store.universes.Values`sourceCount, manager.store.universes.Values`history
      modifies manager.store.universes.Values`sinks, manager.store.universes.Values`sinkCount, manager.store.universes.Values`notifiedClients
      ensures Valid() && clients == old(clients) - {client}
      ensures forall id :: id in manager.store.universes ==> var u := manager.store.universes[id];
        u.sources == (map c | c in old(u.sources) && c != client :: old(u.sources)[c]) && u.sinks == old(u.sinks) - {client}
    {
      hide PortManager.Valid;
      hide ClientsKnown;
      ForgetClient(client);
      clients := clients - {client};
      NobodyKnows(client);
    }

    /** Every universe drops the client. */
    method ForgetClient(client: Client)
      requires Valid()
      modifies manager.store`candidates, manager.store.universes.Values`sources, manager.store.universes.Values`sourceCount, manager.store.universes.Values`history
      modifies manager.store.universes.Values`sinks, manager.store.universes.Values`sinkCount, manager.store.universes.Values`notifiedClients
      ensures Valid()
      ensures forall id :: id in manager.store.universes ==> var u := manager.store.universes[id];
        u.sources == SourceClients.Removed(old(u.sources), client) && u.sinks == old(u.sinks) - {client}
    {
      hide PortManager.Valid;
      hide SourceClients.Removed;
      hide ClientsKnown;
      FiledById();
      var todo := manager.store.universes.Keys;
      while todo != {}
        invariant todo <= manager.store.universes.Keys && Valid()
        invariant forall id :: id in manager.store.universes ==> var u := manager.store.universes[id];
          if id in todo then u.sources == old(u.sources) && u.sinks == old(u.sinks)
          else u.sources == SourceClients.Removed(old(u.sources), client) && u.sinks == old(u.sinks) - {client}
      {
        var id :| id in todo;
        todo := todo - {id};
        RemoveSource(client, id);
        RemoveSink(client, id);
      }
    }

    lemma FiledById()
      requires Valid()
      ensures forall id :: id in manager.store.universes ==> manager.store.universes[id].id == id
    {
    }

    twostate lemma NobodyKnows(client: Client)
      requires old(ClientsKnown()) && clients == old(clients) - {client} && manager.store.universes == old(manager.store.universes)
      requires forall id :: id in manager.store.universes ==> var u := manager.store.universes[id];
                 u.sources == SourceClients.Removed(old(u.sources), client) && u.sinks == old(u.sinks) - {client}
      ensures ClientsKnown()
    {
    }

    // ---------- housekeeping ----------

    /**
     * Collect unused universes, then sweep the source clients of those that remain. A universe whose last source goes
     * in this sweep is collected by the next round.
     */
    method RunHousekeeping()
      requires Valid()
      modifies manager.store, manager.store.universes.Values`sources, manager.store.universes.Values`sourceCount, manager.store.universes.Values`history
      ensures Valid()
      ensures forall id :: id in manager.store.universes <==>
                && id in old(manager.store.universes)
                && old(manager.store.universes[id].IsActive() || !manager.store.universes[id].touched)
      ensures forall id :: id in manager.store.universes ==> var u := manager.store.universes[id];
        u == old(manager.store.universes)[id] && u.sources == map c | c in old(u.sources) && !old(u.sources)[c] :: true
      ensures manager.store.ModesSaved()
    {
      hide Valid;
      hide Universe.IsActive;
      CollectGarbage();
      SweepAll();
    }

    method CollectGarbage()
      requires Valid()
      modifies manager.store
      ensures Valid()
      ensures forall id :: id in manager.store.universes <==>
                && id in old(manager.store.universes)
                && old(manager.store.universes[id].IsActive() || !manager.store.universes[id].touched)
      ensures forall id :: id in manager.store.universes ==> manager.store.universes[id] == old(manager.store.universes)[id]
      ensures manager.store.ModesSaved()
    {
      hide PortManager.Valid;
      hide ClientsKnown;
      hide Universe.IsActive;
      hide UniverseStore.ModesSaved;
      manager.CollectGarbage();
      StillKnown();
    }

    /** Sweep the source clients of every universe. */
    method SweepAll()
      requires Valid()
      modifies manager.store`candidates, manager.store.universes.Values`sources, manager.store.universes.Values`sourceCount
      modifies manager.store.universes.Values`history
      ensures Valid()
      ensures forall id :: id in manager.store.universes ==> var u := manager.store.universes[id];
        u.sources == SourceClients.Swept(old(u.sources))
    {
      hide PortManager.Valid;
      hide SourceClients.Swept;
      hide ClientsKnown;
      FiledById();
      var todo := manager.store.universes.Keys;
      while todo != {}
        invariant todo <= manager.store.universes.Keys && Valid()
        invariant forall id :: id in manager.store.universes ==> var u := manager.store.universes[id];
          u.sources == if id in todo then old(u.sources) else SourceClients.Swept(old(u.sources))
      {
        var id :| id in todo;
        todo := todo - {id};
        SweepSources(id);
      }
    }

    /** However often housekeeping runs, a universe that nobody uses stays exactly if it counts as never used. */
    method KeepHouse(id: nat, rounds: nat)
      requires Valid() && id in manager.store.universes && Unused(manager.store.universes[id]) && rounds > 0
      modifies manager.store, manager.store.universes.Values`sources, manager.store.universes.Values`sourceCount
      modifies manager.store.universes.Values`history
      ensures Valid()
      ensures id in manager.store.universes <==> !old(manager.store.universes[id].touched)
      ensures id in manager.store.universes ==>
                manager.store.universes[id] == old(manager.store.universes[id]) && Unused(manager.store.universes[id])
    {
      hide Valid;
      hide UniverseStore.ModesSaved;
      hide Universe.IsActive;
      ghost var u := manager.store.universes[id];
      for i := 0 to rounds
        invariant Valid() && u.touched == old(u.touched) && (id in manager.store.universes ==> Unused(u))
        invariant forall j :: j in manager.store.universes ==> j in old(manager.store.universes) && manager.store.universes[j] == old(manager.store.universes)[j]
        invariant id in manager.store.universes <==> i == 0 || !u.touched
      {
        if id in manager.store.universes {
          UnusedIsIdle(u);
        }
        RunHousekeeping();
      }
    }

    lemma UnusedIsIdle(u: Universe)
      requires Unused(u)
      ensures !u.IsActive()
    {
    }

    ghost predicate Unused(u: Universe)
      reads u
    {
      u.inputs == [] && u.outputs == [] && u.sinks == {} && u.sources == map[]
    }

    /**
     * A client asks for a universe that does not exist, to register or to unregister, and disconnects. However often
     * housekeeping runs then, the universe stays, with nobody on it, exactly if the request was to unregister.
     */
    method AskAndLeave(client: Client, id: UniverseId, register: bool, rounds: nat)
      requires Valid() && client in clients && id !in manager.store.universes && rounds > 0
      modifies this, manager.store, manager.store.universes.Values`sources, manager.store.universes.Values`sourceCount
      modifies manager.store.universes.Values`history, manager.store.universes.Values`sinks, manager.store.universes.Values`sinkCount
      modifies manager.store.universes.Values`notifiedClients
      ensures Valid() && client !in clients
      ensures id in manager.store.universes <==> !register
      ensures id in manager.store.universes ==> Unused(manager.store.universes[id])
    {
      hide Valid;
      RegisterForDmx(client, id, register);
      CleanupConnection(client);
      KeepHouse(id, rounds);
    }

    // ---------- data from ports ----------

    /** New data on an input port; a bound port's universe always takes note of it. */
    method DmxChanged(port: Port, data: DmxBuffer, inherited: byte, now: nat) returns (ghost feeds: seq<Feed>)
      requires Valid() && port in manager.ports && port.direction.Input?
      modifies port`source
      modifies manager.On(port)`buffer, manager.On(port)`activePriority, manager.On(port)`notifiedPorts, manager.On(port)`notifiedClients
      modifies (if port.universe == null then {} else port.universe.OutputSet())`written
      modifies (if port.universe == null then {} else port.universe.sinks)`received
      ensures Valid()
      ensures port.universe == null ==> port.source == old(port.source)
      ensures port.universe != null ==> port.source.data == data && port.source.timestamp == now
      ensures port.universe != null ==>
                port.source.priority == if port.capability == CapabilityFull && port.mode == Inherit then inherited else port.priority
      ensures port.universe != null ==> var u := port.universe;
        u.IsFeeds(feeds, port, null) && u.MergedTo(Merge(u.mergeMode, feeds, port.source, now, old(u.buffer)))
    {
      hide PortManager.Valid;
      hide ClientsKnown;
      hide Universe.Sound;
      hide Apart;
      hide Universe.IsFeeds;
      hide Universe.MergedTo;
      hide Universe.OwnersBound;
      hide NothingSent;
      hide OnlyFor;
      hide Merge;
      hide PortManager.AllConfigured;
      hide UniverseStore.Stores;
      feeds := [];
      if port.universe != null {
        var universe := port.universe;
        BoundPort(port);
        FiledById();
        var priority := if port.capability.CapabilityFull? && port.mode.Inherit? then inherited else port.priority;
        port.source := DmxSource(data, now, priority);
        label stored:
        var ok;
        ok, feeds := universe.PortDataChanged(port, now);
        DataStepIsValid@stored(universe.id);
      }
    }

    /**
     * Override a port's priority; data that it gets after that carries the value, up to 200, whatever priority is inherited.
     * A port that can have no priority goes on with the default.
     */
    method OverrideThenData(port: Port, value: byte, data: DmxBuffer, inherited: byte, now: nat)
      requires Valid() && port in manager.ports && port.direction.Input? && port.universe != null
      modifies port`mode, port`priority, port`source
      modifies port.universe`buffer, port.universe`activePriority, port.universe`notifiedPorts, port.universe`notifiedClients
      modifies port.universe.OutputSet()`written, port.universe.sinks`received
      ensures Valid()
      ensures port.source.data == data && port.source.timestamp == now
      ensures port.source.priority == if port.capability == CapabilityNone then 100 else if value <= 200 then value else 200
    {
      hide PortManager.Valid;
      hide ClientsKnown;
      PortManager.SetPriorityOverride(port, value);
      var _ := DmxChanged(port, data, inherited, now);
    }

    /**
     * Let a port inherit its priority; data that it gets after that carries the inherited priority if the port has the full
     * capability. On any other port the inherited priority does not matter: the data carries the priority the port has.
     */
    method InheritThenData(port: Port, data: DmxBuffer, inherited: byte, now: nat)
      requires Valid() && port in manager.ports && port.direction.Input? && port.universe != null
      modifies port`mode, port`source
      modifies port.universe`buffer, port.universe`activePriority, port.universe`notifiedPorts, port.universe`notifiedClients
      modifies port.universe.OutputSet()`written, port.universe.sinks`received
      ensures Valid()
      ensures port.source.data == data && port.source.timestamp == now
      ensures port.source.priority == if port.capability == CapabilityFull then inherited else port.priority
      ensures port.capability == CapabilityNone ==> port.source.priority == 100
    {
      hide PortManager.Valid;
      hide ClientsKnown;
      PortManager.SetPriorityInherit(port);
      var _ := DmxChanged(port, data, inherited, now);
    }

    lemma BoundPort(port: Port)
      requires Valid() && port in manager.ports && port.universe != null
      ensures var u := port.universe;
        && u.id in manager.store.universes && manager.store.universes[u.id] == u && u.store == manager.store
        && u.Sound() && u.OwnersBound() && Apart(u.id) && u.sinks <= clients
        && (port.direction.Input? ==> port in u.inputs) && (port.direction.Output? ==> port in u.outputs)
    {
      hide PortManager.Linked;
      hide PortManager.Owned;
      hide PortManager.Legal;
      hide UniverseStore.EachSound;
      hide UniverseStore.Filed;
      hide Universe.Sound;
      hide Universe.PortsWf;
      hide ClientsKnown;
      hide Apart;
      manager.PortIsStored(port);
      StoredUniverse(port.universe.id);
    }

    /** Override the data of a universe. */
    method SetDmx(id: nat, data: DmxBuffer)
      requires Valid() && id in manager.store.universes
      modifies Named(id)`buffer, Named(id)`notifiedPorts, Named(id)`notifiedClients, OutputsOf(id)`written, SinksOf(id)`received
      ensures Valid()
      ensures var u := manager.store.universes[id]; if |data| == 0 then u.buffer == old(u.buffer) else u.buffer == data && u.Delivered()
    {
      hide PortManager.Valid;
      hide ClientsKnown;
      hide Universe.Sound;
      hide Universe.Delivered;
      hide Apart;
      hide NothingSent;
      hide OnlyFor;
      StoredIsSound(id);
      var _ := manager.store.universes[id].SetDmx(data);
      DataStepIsValid(id);
    }

    method SetMergeMode(id: nat, mode: MergeMode)
      requires Valid() && id in manager.store.universes
      modifies Named(id)`mergeMode
      ensures Valid() && manager.store.universes[id].mergeMode == mode
    {
      hide Universe.Sound;
      hide UniverseStore.EachSound;
      hide UniverseStore.Filed;
      hide PortManager.Linked;
      hide PortManager.Owned;
      hide PortManager.Legal;
      hide ClientsKnown;
      StoredUniverse(id);
      FiledById();
      var universe := manager.store.universes[id];
      universe.mergeMode := mode;
      universe.QuietChangeStaysSound();
      manager.store.OthersStaySound(universe);
    }

    // ---------- UIDs found by a port ----------

    /** An output port has found these UIDs, after a discovery it started when it was patched. */
    method UpdateUids(port: Port, found: set<Uid>)
      requires Valid() && port in manager.ports && port.direction.Output?
      modifies manager.On(port)`uids, manager.On(port)`uidCount
      ensures Valid()
      ensures port.universe != null ==> port.universe.uids == NewUids(old(port.universe.uids), Report(port, found))
    {
      hide Universe.Sound;
      hide Universe.PortsWf;
      hide UniverseStore.EachSound;
      hide UniverseStore.Filed;
      hide PortManager.Linked;
      hide PortManager.Owned;
      hide PortManager.Legal;
      hide ClientsKnown;
      hide Apart;
      if port.universe != null {
        var universe := port.universe;
        BoundPort(port);
        FiledById();
        universe.NewUidList(port, found);
        universe.QuietChangeStaysSound();
        manager.store.OthersStaySound(universe);
      }
    }

    // ---------- patching ----------

    /** `accepts` is the port's verdict; a port that vetoes leaving a universe is beyond these invariants. */
    method PatchPort(port: Port, id: UniverseId, accepts: bool) returns (ok: bool)
      requires Valid() && port in manager.ports && (accepts || port.universe == null)
      modifies manager.broker, manager.store, port`universe
      modifies manager.Reach(port, id)`inputs, manager.Reach(port, id)`outputs, manager.Reach(port, id)`inputCount
      modifies manager.Reach(port, id)`outputCount, manager.Reach(port, id)`uids, manager.Reach(port, id)`uidCount
      modifies manager.Reach(port, id)`notifiedPorts, manager.Reach(port, id)`bound, manager.Reach(port, id)`touched
      ensures Valid()
      ensures ok == !old(manager.Refused(port, id))
      ensures forall i :: i in manager.store.universes ==>
                if i in old(manager.store.universes) then manager.store.universes[i] == old(manager.store.universes)[i]
                else fresh(manager.store.universes[i])
    {
      hide PortManager.Valid;
      hide PortManager.Refused;
      hide PortManager.AllConfigured;
      hide ClientsKnown;
      ok := manager.PatchPort(port, id, accepts);
      StillKnown();
    }

    method UnPatchPort(port: Port)
      requires Valid() && port in manager.ports
      modifies manager.broker, manager.store`candidates, port`universe
      modifies manager.On(port)`inputs, manager.On(port)`outputs, manager.On(port)`inputCount, manager.On(port)`outputCount
      modifies manager.On(port)`uids, manager.On(port)`uidCount, manager.On(port)`notifiedPorts, manager.On(port)`bound
      ensures Valid() && port.universe == null
    {
      hide PortManager.Valid;
      var _ := manager.UnPatchPort(port, true);
    }

    // ---------- whole runs ----------

    /** Every object of the server. */
    ghost function World(): set<object>
      reads this, manager, manager.store
    {
      {this, manager, manager.store, manager.broker} + manager.ports + manager.devices + clients + manager.store.universes.Values
    }

    /** The world is closed under the pointers that the steps follow. */
    lemma WorldIsClosed()
      requires Valid()
      ensures forall p :: p in manager.ports && p.universe != null ==> p.universe in manager.store.universes.Values
      ensures forall id :: id in manager.store.universes ==> var u := manager.store.universes[id];
        u.OutputSet() <= manager.ports && u.sinks <= clients
      ensures forall d :: d in manager.devices ==> Elements(d.inputs + d.outputs) <= manager.ports
    {
      hide PortManager.Linked;
      hide PortManager.Owned;
      hide PortManager.Legal;
      hide UniverseStore.EachSound;
      hide UniverseStore.Filed;
      forall p | p in manager.ports && p.universe != null
        ensures p.universe in manager.store.universes.Values
      {
        manager.PortIsStored(p);
        assert manager.store.universes[p.universe.id] == p.universe;
      }
      forall id | id in manager.store.universes
        ensures manager.store.universes[id].OutputSet() <= manager.ports
      {
        OutputsExist(id);
      }
      forall d | d in manager.devices
        ensures Elements(d.inputs + d.outputs) <= manager.ports
      {
        manager.DeviceListsOwn(d);
      }
    }

    lemma OutputsExist(id: nat)
      requires Valid() && id in manager.store.universes
      ensures manager.store.universes[id].OutputSet() <= manager.ports
    {
      hide Split;
      hide PortManager.Linked;
      hide PortManager.Owned;
      hide PortManager.Legal;
      hide UniverseStore.EachSound;
      hide UniverseStore.Filed;
      hide Universe.Sound;
      hide Apart;
      StoredUniverse(id);
      manager.ListedPortsExist(id);
      manager.store.universes[id].OutputsAreBound();
    }

    /** What data for a universe reaches is in the world. */
    lemma StaysInside(id: nat)
      requires Valid()
      ensures Named(id) <= manager.store.universes.Values && OutputsOf(id) <= manager.ports && SinksOf(id) <= clients
    {
      hide Valid;
      WorldIsClosed();
    }

    /** Some port is patched or unpatched. */
    method PatchStep()
      requires Valid()
      modifies World() - manager.devices
      ensures Valid() && old(manager.devices) <= manager.devices && fresh(World() - old(World()))
    {
      hide Valid;
      WorldIsClosed();
      if port :| port in manager.ports {
        var id: UniverseId, accepts: bool := *, *;
        if * {
          var _ := PatchPort(port, id, accepts || port.universe != null);
        } else {
          UnPatchPort(port);
        }
      }
    }

    /** A client sends data. */
    method ClientDataStep()
      requires Valid()
      modifies World() - manager.devices
      ensures Valid() && old(manager.devices) <= manager.devices && fresh(World() - old(World()))
    {
      hide Valid;
      hide OutputsOf;
      hide SinksOf;
      if client :| client in clients {
        var id: nat, data: DmxBuffer, asked: Option<int>, now: nat := *, *, *, *;
        StaysInside(id);
        var _, _ := UpdateDmxData(client, id, data, asked, now);
      }
    }

    /** A client registers or unregisters for a universe. */
    method RegistrationStep()
      requires Valid()
      modifies World() - manager.devices
      ensures Valid() && old(manager.devices) <= manager.devices && fresh(World() - old(World()))
    {
      hide Valid;
      if client :| client in clients {
        var id: UniverseId, register: bool := *, *;
        RegisterForDmx(client, id, register);
      }
    }

    /** A client goes, or a new one connects. */
    method ConnectionStep()
      requires Valid()
      modifies World() - manager.devices
      ensures Valid() && old(manager.devices) <= manager.devices && fresh(World() - old(World()))
    {
      hide Valid;
      WorldIsClosed();
      if client :| client in clients {
        if * {
          CleanupConnection(client);
          return;
        }
      }
      var client := new Client();
      ConnectClient(client);
    }

    /** Somebody overrides the data of a universe, or changes its merge mode. */
    method UniverseStep()
      requires Valid()
      modifies World() - manager.devices
      ensures Valid() && old(manager.devices) <= manager.devices && fresh(World() - old(World()))
    {
      hide Valid;
      WorldIsClosed();
      if id :| id in manager.store.universes {
        if * {
          var data: DmxBuffer := *;
          SetDmx(id, data);
        } else {
          var mode: MergeMode := *;
          SetMergeMode(id, mode);
        }
      }
    }

    /** An input port has new data, or an output port has found UIDs. */
    method PortStep()
      requires Valid()
      modifies World() - manager.devices
      ensures Valid() && old(manager.devices) <= manager.devices && fresh(World() - old(World()))
    {
      hide Valid;
      WorldIsClosed();
      if port :| port in manager.ports {
        if port.direction.Input? {
          var data: DmxBuffer, inherited: byte, now: nat := *, *, *;
          var _ := DmxChanged(port, data, inherited, now);
        } else {
          var found: set<Uid> := *;
          UpdateUids(port, found);
        }
      }
    }

    /** Somebody sets the priority of a port. */
    method PriorityStep()
      requires Valid()
      modifies World() - manager.devices
      ensures Valid() && old(manager.devices) <= manager.devices && fresh(World() - old(World()))
    {
      hide PortManager.Valid;
      hide ClientsKnown;
      if port :| port in manager.ports {
        if * {
          PortManager.SetPriorityInherit(port);
        } else {
          var value: byte := *;
          PortManager.SetPriorityOverride(port, value);
        }
      }
    }

    /** A round of housekeeping. */
    method HousekeepingStep()
      requires Valid()
      modifies World() - manager.devices
      ensures Valid() && old(manager.devices) <= manager.devices && fresh(World() - old(World()))
    {
      hide Valid;
      WorldIsClosed();
      RunHousekeeping();
    }

    /** There is a new device. */
    method NewDeviceStep()
      requires Valid()
      modifies World() - manager.devices
      ensures Valid() && old(manager.devices) <= manager.devices && fresh(World() - old(World()))
    {
      hide PortManager.Valid;
      hide ClientsKnown;
      var uniqueId: string, allowLooping, allowMulti := *, *, *;
      var device := new Device(uniqueId, allowLooping, allowMulti);
      DevicesExist();
      manager.AddDevice(device);
    }

    /** A device, other than those in `kept`, stops, and its ports are deleted. */
    method StopStep(kept: set<Device>)
      requires Valid()
      modifies World() - kept
      ensures Valid() && old(manager.devices) <= manager.devices && fresh(World() - old(World()))
    {
      hide PortManager.Valid;
      hide ClientsKnown;
      WorldIsClosed();
      if device :| device in manager.devices - kept {
        manager.DeleteAllPorts(device);
      }
    }

    /** A device, other than those in `kept`, gets a port. */
    method NewPortStep(kept: set<Device>)
      requires Valid()
      modifies World() - kept
      ensures Valid() && old(manager.devices) <= manager.devices && fresh(World() - old(World()))
    {
      hide PortManager.Valid;
      hide ClientsKnown;
      if device :| device in manager.devices - kept {
        var direction, portId: nat, capability, timeCode := *, *, *, *;
        var port := new Port(direction, portId, device, capability, timeCode);
        manager.AddPort(device, port);
      }
    }

    lemma DevicesExist()
      requires Valid()
      ensures forall p :: p in manager.ports && p.device != null ==> p.device in manager.devices
    {
    }

    /** Anything that happens, but that the devices in `kept` neither stop nor get ports. */
    method Step(kept: set<Device>)
      requires Valid() && kept <= manager.devices
      modifies World() - kept
      ensures Valid() && old(manager.devices) <= manager.devices && fresh(World() - old(World()))
    {
      hide Valid;
      hide World;
      if * {
        PatchStep();
      } else if * {
        ClientDataStep();
      } else if * {
        RegistrationStep();
      } else if * {
        ConnectionStep();
      } else if * {
        PortStep();
      } else if * {
        PriorityStep();
      } else if * {
        HousekeepingStep();
      } else if * {
        UniverseStep();
      } else if * {
        NewDeviceStep();
      } else if * {
        NewPortStep(kept);
      } else {
        StopStep(kept);
      }
    }

    /**
     * Any interleaving of any number of steps keeps every invariant: a live port points to a universe exactly when that
     * universe is stored under its own id and lists the port (once, in its direction); the broker knows exactly the bound
     * ports; candidates for deletion are stored universes; every unused universe that was ever used is a candidate; the
     * exported counters are right; UIDs lead to bound ports; patchings are legal; no port has a priority that it
     * may not have; dependants hold the current data; and clients known to a universe are connected.
     */
    method Run(steps: nat)
      requires Valid()
      modifies World()
      ensures Valid() && old(manager.devices) <= manager.devices && fresh(World() - old(World()))
    {
      hide Valid;
      for i := 0 to steps
        invariant Valid() && old(manager.devices) <= manager.devices && fresh(World() - old(World()))
      {
        ghost var before := World();
        Step({});
        assert World() - old(World()) <= (World() - before) + (before - old(World()));
      }
    }
  }
}
