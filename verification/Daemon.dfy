/** The whole daemon: the server and its registered devices, devices that go and come back, and restarts. */
module Daemons {
  import opened Sequences
  import opened Dmx
  import opened Merging
  import opened Universes
  import opened PortManagers
  import opened Servers
  import opened PreferenceStore
  import opened PortKeys
  import opened PortSettings
  import opened DeviceManagers

  /** In the order in which a device lists its ports: inputs first, each direction by id. */
  predicate Before(p: PortSpec, q: PortSpec) {
    if p.direction == q.direction then p.portId < q.portId else p.direction.Input?
  }

  predicate Buildable(design: Design) {
    forall i, j :: 0 <= i < j < |design.ports| ==> Before(design.ports[i], design.ports[j])
  }

  /** A device that is away, and how the ports of one like it are to be set when it comes back. */
  datatype Absence = Absence(design: Design, goal: seq<Setting>)

  /** Nobody is away. */
  const NOBODY := Absence(Design("", false, false, []), [])

  lemma InsertedLast(list: seq<Port>, port: Port, longer: seq<Port>)
    requires Inserted(list, port, longer) && ById(longer) && forall p :: p in list ==> p.portId < port.portId
    ensures longer == list + [port]
  {
    var i :| 0 <= i <= |list| && longer == list[..i] + [port] + list[i..];
    LaterIdsFollow(list[..i], port, list[i..]);
    SomethingIn(list[i..]);
    assert forall p :: p in list[i..] ==> p in list;
  }

  lemma LaterIdsFollow(before: seq<Port>, port: Port, after: seq<Port>)
    requires ById(before + [port] + after)
    ensures forall p :: p in after ==> port.portId < p.portId
  {
    var list := before + [port] + after;
    assert forall k :: 0 <= k < |after| ==> after[k] == list[|before| + 1 + k];
    assert list[|before|] == port;
  }

  lemma SomethingIn<T>(s: seq<T>)
    ensures s != [] ==> exists x :: x in s
  {
    if s != [] {
      assert s[0] in s;
    }
  }

  /** Saving one device leaves what is held for another. */
  lemma PromiseStands(m: Prefs, n: Prefs, away: Absence, saved: Device)
    requires AllPromised(m, away.design, away.goal) && saved.uniqueId != away.design.uniqueId
    requires forall p :: p in DeviceManager.PortsOf(saved) ==> p.device == saved
    requires OnlyUnder(m, n, DeviceManager.KeysOfDevice(saved))
    ensures AllPromised(n, away.design, away.goal)
  {
    forall spec: PortSpec, suffix
      ensures Saved(m, away.design.uniqueId, spec, suffix) == Saved(n, away.design.uniqueId, spec, suffix)
    {
      forall p, t | p in DeviceManager.PortsOf(saved)
        ensures KeyOf(p, t) != Key(away.design.uniqueId, spec.direction, spec.portId, suffix)
      {
        KeysAreDistinct(saved.uniqueId, p.direction, p.portId, t, away.design.uniqueId, spec.direction, spec.portId, suffix);
      }
    }
    hide SavedUniverse;
    hide Restored;
    forall k | 0 <= k < |away.goal|
      ensures Promised(n, away.design.uniqueId, away.design.ports[k], away.goal[k])
    {
      assert Promised(m, away.design.uniqueId, away.design.ports[k], away.goal[k]);
    }
  }

  /** The devices list their own ports. */
  ghost predicate EachItsOwn(devices: set<Device>)
    reads devices
  {
    forall d, p :: d in devices && p in DeviceManager.PortsOf(d) ==> p.device == d
  }

  /** What saving a port writes is a number. */
  lemma SavedIsNumber(m: Prefs, port: Port, suffix: Suffix, value: string)
    requires port.device != null && PatchingSaved(m, port) && PrioritySaved(m, port) && IsSaved(port.capability, suffix)
    requires KeyOf(port, suffix) in m && value in m[KeyOf(port, suffix)]
    ensures exists n: nat :: value == Dec(n)
  {
    match suffix
    case NoSuffix => assert value == Dec(port.universe.id);
    case PriorityValue => assert value == Dec(port.priority as nat);
    case PriorityMode => assert value == Dec(ModeNumber(port.mode));
  }

  /** What is saved of a device is a number, under a key that the file can express if it can express the id. */
  lemma SavedEntry(m: Prefs, device: Device, key: string, value: string)
    requires EachItsOwn({device}) && DeviceManager.AllSaved(m, DeviceManager.PortsOf(device))
    requires key in DeviceManager.KeysOfDevice(device) && key in m && value in m[key]
    ensures Clean(Entry("", value)) && IsKeyOf(key, device.uniqueId) && (CleanId(device.uniqueId) ==> Clean(Entry(key, "")))
  {
    hide Clean;
    hide CleanId;
    hide Key;
    hide PatchingSaved;
    hide PrioritySaved;
    var p, suffix :| p in DeviceManager.PortsOf(device) && p.device != null && IsSaved(p.capability, suffix) && KeyOf(p, suffix) == key;
    assert p.device == device;
    SavedIsNumber(m, p, suffix, value);
    var number: nat :| value == Dec(number);
    NumberIsClean(number);
    EmptyIsClean();
    KeyIsClean(device.uniqueId, p.direction, p.portId, suffix, "");
  }

  /** Saving devices with ids that the file can express, and perhaps one with another, spoils no keys but that one's. */
  lemma StaysCleanBut(m: Prefs, n: Prefs, devices: set<Device>, id: string)
    requires CleanBut(m, id) && OnlyUnder(m, n, DeviceManager.KeysOfAll(devices)) && EachItsOwn(devices)
    requires forall d :: d in devices ==> DeviceManager.AllSaved(n, DeviceManager.PortsOf(d)) && (d.uniqueId == id || CleanId(d.uniqueId))
    ensures CleanBut(n, id)
  {
    hide Clean;
    hide CleanId;
    hide IsKeyOf;
    hide DeviceManager.KeysOfDevice;
    hide DeviceManager.AllSaved;
    forall k, v | k in n && v in n[k]
      ensures Clean(Entry("", v)) && (Clean(Entry(k, "")) || IsKeyOf(k, id))
    {
      if k in DeviceManager.KeysOfAll(devices) {
        var d :| d in devices && k in DeviceManager.KeysOfDevice(d);
        SavedEntry(n, d, k, v);
      } else {
        assert v in m[k];
      }
    }
  }

  lemma EmptyIsClean()
    ensures Clean(Entry("", ""))
  {
  }

  /** The server, the device manager and the preferences of the ports. */
  class Daemon {
    const server: OlaServer
    const deviceManager: DeviceManager
    const preferences: FileBackedPreferences

    constructor (server: OlaServer, deviceManager: DeviceManager, preferences: FileBackedPreferences)
      requires server.Valid() && deviceManager.portManager == server.manager && deviceManager.preferences == preferences
      requires deviceManager.Indexed() && deviceManager.devices == map[] && preferences.Valid()
      ensures Valid() && this.server == server && this.deviceManager == deviceManager && this.preferences == preferences
    {
      this.server, this.deviceManager, this.preferences := server, deviceManager, preferences;
    }

    ghost predicate Valid()
      reads server, server.manager, server.manager.store, server.manager.broker, server.manager.ports, server.manager.devices
      reads server.manager.store.universes.Values, deviceManager, preferences
      reads (set u, p | u in server.manager.store.universes.Values && p in u.notifiedPorts :: p)`written
      reads (set u, c | u in server.manager.store.universes.Values && c in u.notifiedClients :: c)`received
    {
      && server.Valid() && deviceManager.portManager == server.manager && deviceManager.preferences == preferences
      && deviceManager.Indexed() && deviceManager.RegisteredExist() && preferences.Valid()
    }

    /** No device with the id of the absent one is registered, and the preferences hold how it is to be set. */
    ghost predicate Pending(away: Absence)
      reads deviceManager, preferences
    {
      deviceManager.DeviceWithId(away.design.uniqueId) == null && AllPromised(preferences.prefs, away.design, away.goal)
    }

    ghost function World(): set<object>
      reads server, server.manager, server.manager.store
    {
      server.World() + {deviceManager, preferences}
    }

    lemma WorldExists()
      ensures allocated(World())
    {
    }

    /** Ids keep their aliases. */
    twostate predicate AliasesStand()
      reads deviceManager
    {
      forall id :: id in old(deviceManager.devices) ==>
        id in deviceManager.devices && deviceManager.devices[id].alias == old(deviceManager.devices)[id].alias
    }

    /** The file can express the preferences, and the ids of the registered devices. */
    ghost predicate Neat()
      reads deviceManager, preferences
    {
      AllClean(preferences.prefs) && forall d :: d in deviceManager.RegisteredDevices() ==> CleanId(d.uniqueId)
    }

    /** In an orderly run the timecode ports stay right, and what the file can express stays so. */
    twostate predicate OrderStands(orderly: bool)
      reads deviceManager, preferences, deviceManager.RegisteredDevices()`outputs
    {
      orderly ==> (old(deviceManager.TimeCodeExact()) ==> deviceManager.TimeCodeExact()) && (old(Neat()) ==> Neat())
    }

    lemma OutsideServer()
      ensures deviceManager !in server.World() && preferences !in server.World()
    {
    }

    /** Anything that happens in the server. */
    method ServerStep(orderly: bool, ghost away: Absence)
      requires Valid() && Pending(away)
      modifies World()
      ensures Valid() && Pending(away) && AliasesStand() && OrderStands(orderly) && fresh(World() - old(World()))
    {
      hide OlaServer.Valid;
      hide OlaServer.World;
      hide AllPromised;
      hide IndexesAgree;
      hide IsTimeCodeOf;
      hide AllClean;
      hide CleanId;
      OutsideServer();
      server.Step(if orderly then deviceManager.RegisteredDevices() else {});
    }

    /** Universes have gained ports, none has gained clients, and no port has a priority that it may not have. */
    twostate lemma ServerStands()
      requires old(server.Valid()) && server.manager.Valid() && server.clients == old(server.clients)
      requires deviceManager.portManager == server.manager && deviceManager.StoreGrows()
      requires server.manager.AllConfigured()
      ensures server.Valid()
    {
      hide PortManager.Valid;
      server.StillKnown();
    }

    /** The ports of one device have been restored. */
    twostate lemma ConfiguredStands(device: Device)
      requires old(server.Valid()) && device in server.manager.devices && unchanged(device) && unchanged(server.manager)
      requires forall p :: p in server.manager.ports && p !in DeviceManager.PortsOf(device) ==> unchanged(p`priority, p`mode)
      requires var list := DeviceManager.PortsOf(device);
        || SettingsOf(list) == old(SettingsOf(list))
        || SettingsOf(list) == RestoreUpTo(preferences.prefs, DesignOf(device), old(SettingsOf(list)), |list|)
      ensures server.manager.AllConfigured()
    {
      hide OlaServer.ClientsKnown;
      hide SettingsOf;
      hide DesignOf;
      hide RestoreUpTo;
      var list, was := DeviceManager.PortsOf(device), old(SettingsOf(DeviceManager.PortsOf(device)));
      RestoredMayHave(preferences.prefs, DesignOf(device), was, |list|);
    }

    /** Register a device that exists. */
    method Register(device: Device)
      requires Valid() && device in server.manager.devices
      modifies deviceManager`devices, deviceManager`aliases, deviceManager`nextAlias, deviceManager`timeCodePorts
      modifies Elements(DeviceManager.PortsOf(device))`priority, Elements(DeviceManager.PortsOf(device))`mode
      modifies Elements(DeviceManager.PortsOf(device))`universe
      modifies server.manager.broker, server.manager.store, server.manager.store.universes.Values
      ensures Valid() && AliasesStand() && deviceManager.StoreGrows()
      ensures forall id :: id != device.uniqueId ==> deviceManager.DeviceWithId(id) == old(deviceManager.DeviceWithId(id))
      ensures deviceManager.RegisteredDevices() <= old(deviceManager.RegisteredDevices()) + {device}
      ensures old(deviceManager.Registrable(device)) ==> deviceManager.RegisteredDevices() == old(deviceManager.RegisteredDevices()) + {device}
      ensures old(deviceManager.TimeCodeExact()) ==> deviceManager.TimeCodeExact()
    {
      hide OlaServer.ClientsKnown;
      hide PortManager.Valid;
      hide IndexesAgree;
      hide SettingsOf;
      hide RestoreUpTo;
      hide FileBackedPreferences.Valid;
      hide PortManager.AllConfigured;
      hide DesignOf;
      hide IsTimeCodeOf;
      var _ := deviceManager.RegisterDevice(device);
      ConfiguredStands(device);
      ServerStands();
    }

    /** Some device, other than one like the absent one, is registered. */
    method RegisterStep(id: string, orderly: bool, ghost away: Absence)
      requires Valid() && Pending(away) && id == away.design.uniqueId
      modifies World()
      ensures Valid() && Pending(away) && AliasesStand() && OrderStands(orderly) && fresh(World() - old(World()))
    {
      hide Valid;
      hide AllPromised;
      hide IsTimeCodeOf;
      hide AllClean;
      hide CleanId;
      OutsideServer();
      ReadyToRegister();
      if device :| device in server.manager.devices && device.uniqueId != id && (orderly ==> CleanId(device.uniqueId)) {
        Register(device);
      }
    }

    /** Registering a device stays within the world. */
    lemma ReadyToRegister()
      requires Valid()
      ensures deviceManager.portManager == server.manager
      ensures forall d :: d in server.manager.devices ==> Elements(DeviceManager.PortsOf(d)) <= server.manager.ports
    {
      server.WorldIsClosed();
    }

    /** Registered devices list their own ports. */
    lemma ReadyToUnregister(id: string)
      requires Valid()
      ensures forall d :: d in deviceManager.RegisteredDevices() ==> server.manager.ListsOwn(d)
      ensures var device := deviceManager.DeviceWithId(id);
        device != null ==> device.uniqueId == id && device in server.manager.devices && forall p :: p in DeviceManager.PortsOf(device) ==> p.device == device
    {
      hide PortManager.Valid;
      hide OlaServer.ClientsKnown;
      deviceManager.RegisteredListOwn();
      var device := deviceManager.DeviceWithId(id);
      if device != null {
        assert device in deviceManager.RegisteredDevices();
      }
    }

    /** Some device, other than one like the absent one, is unregistered. */
    method UnregisterStep(id: string, other: string, orderly: bool, ghost away: Absence)
      requires Valid() && Pending(away) && id == away.design.uniqueId != other
      modifies World()
      ensures Valid() && Pending(away) && AliasesStand() && OrderStands(orderly) && fresh(World() - old(World()))
    {
      hide OlaServer.Valid;
      hide OlaServer.World;
      hide AllPromised;
      hide IndexesAgree;
      hide DeviceManager.AllSaved;
      hide OnlyUnder;
      hide PortManager.ListsOwn;
      hide FileBackedPreferences.Valid;
      hide IsTimeCodeOf;
      hide AllClean;
      hide CleanId;
      OutsideServer();
      ReadyToUnregister(other);
      ghost var device := deviceManager.DeviceWithId(other);
      var ok := deviceManager.UnregisterDevice(other);
      if ok {
        PromiseStands(old(preferences.prefs), preferences.prefs, away, device);
        if old(Neat()) {
          StaysClean(old(preferences.prefs), preferences.prefs, device);
        }
      }
    }

    static lemma StaysClean(m: Prefs, n: Prefs, device: Device)
      requires AllClean(m) && CleanId(device.uniqueId) && EachItsOwn({device})
      requires OnlyUnder(m, n, DeviceManager.KeysOfDevice(device)) && DeviceManager.AllSaved(n, DeviceManager.PortsOf(device))
      ensures AllClean(n)
    {
      hide CleanId;
      hide OnlyUnder;
      hide DeviceManager.AllSaved;
      CleanIsCleanBut(m, device.uniqueId);
      assert DeviceManager.KeysOfAll({device}) == DeviceManager.KeysOfDevice(device);
      StaysCleanBut(m, n, {device}, device.uniqueId);
      CleanWithId(n, device.uniqueId);
    }

    /**
     * Anything that happens in the daemon. In an orderly one, devices that are registered neither stop nor get ports, and
     * the file can express the ids of those that are being registered.
     */
    method Step(id: string, orderly: bool, ghost away: Absence)
      requires Valid() && Pending(away) && id == away.design.uniqueId
      modifies World()
      ensures Valid() && Pending(away) && AliasesStand() && OrderStands(orderly) && fresh(World() - old(World()))
    {
      hide Valid;
      hide Pending;
      hide World;
      if * {
        ServerStep(orderly, away);
      } else if * {
        RegisterStep(id, orderly, away);
      } else {
        var other: string := *;
        if other != id {
          UnregisterStep(id, other, orderly, away);
        }
      }
    }

    /**
     * Any interleaving of any number of steps of the server and the device manager keeps the invariants of both and the
     * aliases of all ids. While a device is away the preferences go on holding how its ports were set. An orderly run
     * keeps the timecode ports exact, and leaves nothing that the file cannot express.
     */
    method Meanwhile(steps: nat, id: string, orderly: bool, ghost away: Absence)
      requires Valid() && Pending(away) && id == away.design.uniqueId
      modifies World()
      ensures Valid() && Pending(away) && AliasesStand() && OrderStands(orderly) && fresh(World() - old(World()))
    {
      hide Valid;
      hide World;
      hide Pending;
      hide Neat;
      hide DeviceManager.TimeCodeExact;
      for i := 0 to steps
        invariant Valid() && Pending(away) && AliasesStand() && OrderStands(orderly) && fresh(World() - old(World()))
      {
        ghost var before := World();
        label before:
        Step(id, orderly, away);
        WorldExists();
        forall o | o in World() - old(World())
          ensures fresh(o)
        {
          assert o !in before ==> fresh@before(o);
        }
      }
    }

    /** The same when nobody is away. */
    method Run(steps: nat, orderly: bool)
      requires Valid()
      modifies World()
      ensures Valid() && AliasesStand() && OrderStands(orderly) && fresh(World() - old(World()))
    {
      NobodyIsPending();
      hide Valid;
      hide Pending;
      hide World;
      Meanwhile(steps, "", orderly, NOBODY);
    }

    lemma NobodyIsPending()
      requires Valid()
      ensures Pending(NOBODY)
    {
    }

    // ---------- devices that come and go ----------

    /** A device gets a port with an id above those it has. */
    method AddLastPort(device: Device, spec: PortSpec) returns (port: Port)
      requires server.Valid() && device in server.manager.devices
      requires forall p :: p in device.Ports(spec.direction) ==> p.portId < spec.portId
      modifies server.manager`ports, device
      ensures server.Valid() && fresh(port) && SpecOf(port) == spec && SettingOf(port) == UNSET
      ensures server.manager.ports == old(server.manager.ports) + {port}
      ensures device.Ports(spec.direction) == old(device.Ports(spec.direction)) + [port]
      ensures device.Ports(Opposite(spec.direction)) == old(device.Ports(Opposite(spec.direction)))
    {
      hide PortManager.Valid;
      hide OlaServer.ClientsKnown;
      hide Inserted;
      port := new Port(spec.direction, spec.portId, device, spec.capability, spec.supportsTimeCode);
      server.manager.AddPort(device, port);
      DeviceIsSorted(device);
      InsertedLast(old(device.Ports(spec.direction)), port, device.Ports(spec.direction));
    }

    lemma DeviceIsSorted(device: Device)
      requires server.Valid() && device in server.manager.devices
      ensures ById(device.inputs) && ById(device.outputs)
    {
    }

    /** The device has the first `n` ports of a design, as they are made. */
    static ghost predicate Begun(device: Device, design: Design, n: nat)
      reads device, Elements(DeviceManager.PortsOf(device))`universe, Elements(DeviceManager.PortsOf(device))`priority
      reads Elements(DeviceManager.PortsOf(device))`mode
    {
      var list := DeviceManager.PortsOf(device);
      && |list| == n <= |design.ports|
      && (forall i :: 0 <= i < n ==> SpecOf(list[i]) == design.ports[i] && SettingOf(list[i]) == UNSET)
    }

    /** The next port of a design goes after those that the device has. */
    lemma NextIsLast(device: Device, design: Design, n: nat)
      requires server.Valid() && device in server.manager.devices && Buildable(design) && Begun(device, design, n) && n < |design.ports|
      ensures forall p :: p in device.Ports(design.ports[n].direction) ==> p.portId < design.ports[n].portId
      ensures design.ports[n].direction.Input? ==> device.outputs == []
    {
      server.manager.DeviceListsOwn(device);
      hide OlaServer.Valid;
      hide ById;
      var list, spec := DeviceManager.PortsOf(device), design.ports[n];
      forall p | p in list
        ensures if p.direction == spec.direction then p.portId < spec.portId else p.direction.Input?
      {
        var i :| 0 <= i < n && list[i] == p;
        assert Before(design.ports[i], spec);
      }
      SomethingIn(device.outputs);
    }

    /** The device gets the next port of a design. */
    method AddNextPort(device: Device, design: Design, n: nat)
      requires server.Valid() && device in server.manager.devices && Buildable(design) && Begun(device, design, n) && n < |design.ports|
      modifies server.manager`ports, device
      ensures server.Valid() && Begun(device, design, n + 1)
      ensures fresh(server.manager.ports - old(server.manager.ports))
    {
      hide OlaServer.Valid;
      NextIsLast(device, design, n);
      ghost var inputs, outputs := device.inputs, device.outputs;
      var port := AddLastPort(device, design.ports[n]);
      assert DeviceManager.PortsOf(device) == inputs + outputs + [port];
    }

    /** Make a device: a plugin creates it and adds its ports. */
    method Build(design: Design) returns (device: Device)
      requires server.Valid() && Buildable(design)
      modifies server.manager`devices, server.manager`ports
      ensures server.Valid() && fresh(device) && server.manager.devices == old(server.manager.devices) + {device}
      ensures DesignOf(device) == design && DeviceManager.AsMade(DeviceManager.PortsOf(device))
      ensures fresh(server.manager.ports - old(server.manager.ports))
    {
      hide PortManager.Valid;
      hide OlaServer.ClientsKnown;
      hide Begun;
      device := new Device(design.uniqueId, design.allowLooping, design.allowMultiPortPatching);
      server.DevicesExist();
      server.manager.AddDevice(device);
      NothingBegun(device, design);
      for n := 0 to |design.ports|
        invariant server.Valid() && server.manager.devices == old(server.manager.devices) + {device}
        invariant Begun(device, design, n) && fresh(server.manager.ports - old(server.manager.ports))
      {
        AddNextPort(device, design, n);
      }
      BuiltAsDesigned(device, design);
    }

    static lemma NothingBegun(device: Device, design: Design)
      requires device.inputs == device.outputs == []
      ensures Begun(device, design, 0)
    {
    }

    static lemma BuiltAsDesigned(device: Device, design: Design)
      requires Begun(device, design, |design.ports|)
      requires (device.uniqueId, device.allowLooping, device.allowMultiPortPatching) == (design.uniqueId, design.allowLooping, design.allowMultiPortPatching)
      ensures DesignOf(device) == design && DeviceManager.AsMade(DeviceManager.PortsOf(device))
    {
    }

    /** What a legal device that is unregistered leaves behind. */
    lemma SavedIsPending(m: Prefs, device: Device)
      requires server.Valid() && deviceManager.portManager == server.manager && device in server.manager.devices
      requires DeviceManager.AllSaved(m, DeviceManager.PortsOf(device))
      ensures AllPromised(m, DesignOf(device), AllKept(SettingsOf(DeviceManager.PortsOf(device))))
      ensures Harmless(DesignOf(device), AllKept(SettingsOf(DeviceManager.PortsOf(device))))
      ensures Buildable(DesignOf(device))
    {
      hide PortManager.Valid;
      hide OlaServer.ClientsKnown;
      hide DeviceManager.AllSaved;
      hide AllPromised;
      hide SettingsOf;
      deviceManager.LegalIsHarmless(device);
      deviceManager.DeviceIsOwn(device);
      deviceManager.SavedDeviceIsPromised(m, device);
      ListedAsDesigned(device);
    }

    lemma ListedAsDesigned(device: Device)
      requires server.manager.ListsOwn(device)
      ensures Buildable(DesignOf(device))
    {
      var list := DeviceManager.PortsOf(device);
      forall i, j | 0 <= i < j < |list|
        ensures Before(SpecOf(list[i]), SpecOf(list[j]))
      {
        assert list[i] in list && list[j] in list;
        if i < |device.inputs| <= j {
          assert list[i] in device.inputs && list[j] in device.outputs;
        } else if j < |device.inputs| {
          assert device.inputs[i].portId < device.inputs[j].portId && list[i] in device.inputs && list[j] in device.inputs;
        } else {
          var k := |device.inputs|;
          assert device.outputs[i - k].portId < device.outputs[j - k].portId && list[i] in device.outputs && list[j] in device.outputs;
        }
      }
    }

    /** A registered device goes away: its plugin unregisters it and stops it, which deletes its ports. */
    method Remove(device: Device) returns (ghost away: Absence)
      requires Valid() && device in deviceManager.RegisteredDevices()
      modifies World()
      ensures Valid() && Pending(away) && AliasesStand() && fresh(World() - old(World()))
      ensures away == old(Absence(DesignOf(device), AllKept(SettingsOf(DeviceManager.PortsOf(device)))))
      ensures Buildable(away.design) && Harmless(away.design, away.goal)
      ensures device.uniqueId in deviceManager.devices && device.inputs == device.outputs == []
    {
      hide Valid;
      hide Pending;
      hide SettingsOf;
      hide DesignOf;
      OutsideServer();
      RegisteredHasId(device);
      ReadyToUnregister(device.uniqueId);
      away := Forget(device);
      StopDevice(device);
    }

    /** It is saved and unregistered. */
    method Forget(device: Device) returns (ghost away: Absence)
      requires Valid() && device.uniqueId != "" && deviceManager.DeviceWithId(device.uniqueId) == device
      modifies deviceManager, preferences
      ensures Valid() && Pending(away) && AliasesStand() && device.uniqueId in deviceManager.devices
      ensures away == old(Absence(DesignOf(device), AllKept(SettingsOf(DeviceManager.PortsOf(device)))))
      ensures Buildable(away.design) && Harmless(away.design, away.goal)
    {
      hide OlaServer.Valid;
      hide AllPromised;
      hide IndexesAgree;
      hide DeviceManager.AllSaved;
      hide OnlyUnder;
      hide PortManager.ListsOwn;
      hide FileBackedPreferences.Valid;
      hide SettingsOf;
      hide DesignOf;
      ReadyToUnregister(device.uniqueId);
      var _ := deviceManager.UnregisterDevice(device.uniqueId);
      StaysAsSet(device);
      SavedIsPending(preferences.prefs, device);
      away := Absence(DesignOf(device), AllKept(SettingsOf(DeviceManager.PortsOf(device))));
    }

    static twostate lemma StaysAsSet(device: Device)
      requires unchanged(device) && forall p :: p in DeviceManager.PortsOf(device) ==> unchanged(p)
      ensures DesignOf(device) == old(DesignOf(device))
      ensures SettingsOf(DeviceManager.PortsOf(device)) == old(SettingsOf(DeviceManager.PortsOf(device)))
    {
      assert forall i :: 0 <= i < |DeviceManager.PortsOf(device)| ==> DeviceManager.PortsOf(device)[i] in DeviceManager.PortsOf(device);
    }

    /** And its ports are deleted. */
    method StopDevice(device: Device)
      requires Valid() && device in server.manager.devices
      modifies server.World()
      ensures Valid() && device.inputs == device.outputs == [] && server.manager.devices == old(server.manager.devices)
      ensures fresh(server.World() - old(server.World()))
    {
      hide PortManager.Valid;
      hide OlaServer.ClientsKnown;
      hide FileBackedPreferences.Valid;
      hide IndexesAgree;
      server.WorldIsClosed();
      server.manager.DeleteAllPorts(device);
    }

    /** A device like the absent one is registered, and gets back what is held for it, exactly if that is harmless. */
    method Return(device: Device, ghost away: Absence)
      requires Valid() && Pending(away) && device in server.manager.devices && DesignOf(device) == away.design
      requires away.design.uniqueId != "" && DeviceManager.AsMade(DeviceManager.PortsOf(device))
      modifies deviceManager`devices, deviceManager`aliases, deviceManager`nextAlias, deviceManager`timeCodePorts
      modifies Elements(DeviceManager.PortsOf(device))`priority, Elements(DeviceManager.PortsOf(device))`mode
      modifies Elements(DeviceManager.PortsOf(device))`universe
      modifies server.manager.broker, server.manager.store, server.manager.store.universes.Values
      ensures Valid() && AliasesStand() && deviceManager.StoreGrows()
      ensures deviceManager.DeviceWithId(device.uniqueId) == device && DesignOf(device) == away.design
      ensures SettingsOf(DeviceManager.PortsOf(device)) == away.goal <==> Harmless(away.design, away.goal)
    {
      hide OlaServer.ClientsKnown;
      hide PortManager.Valid;
      hide IndexesAgree;
      hide SettingsOf;
      hide DesignOf;
      hide AllPromised;
      hide DeviceManager.AsMade;
      hide FileBackedPreferences.Valid;
      hide PortManager.AllConfigured;
      hide RestoreUpTo;
      deviceManager.RegisterAsPromised(device, away.goal);
      ConfiguredStands(device);
      ServerStands();
    }

    /**
     * A registered device goes away, anything may happen in the daemon, and then a device of the same design is made and
     * registered. It has the old alias, and its ports have the old priorities, modes and universes (where the id of that
     * is below 2^31), whatever else has been saved, collected or patched in the meantime.
     */
    method Replace(device: Device, steps: nat) returns (back: Device)
      requires Valid() && device in deviceManager.RegisteredDevices()
      modifies World()
      ensures Valid() && fresh(back) && fresh(World() - old(World()))
      ensures DesignOf(back) == old(DesignOf(device)) && deviceManager.DeviceWithId(device.uniqueId) == back && AliasesStand()
      ensures SettingsOf(DeviceManager.PortsOf(back)) == AllKept(old(SettingsOf(DeviceManager.PortsOf(device))))
    {
      hide Valid;
      hide World;
      hide Pending;
      hide SettingsOf;
      hide DesignOf;
      hide Buildable;
      hide Harmless;
      RegisteredHasId(device);
      var design := DesignOf(device);
      ghost var away := Remove(device);
      ghost var gone := World();
      label away:
      back := ComeBack(design, steps, away);
      WorldExists();
      forall o | o in World() - old(World())
        ensures fresh(o)
      {
        assert o !in gone ==> fresh@away(o);
      }
    }

    /** Anything may happen, and then a device of the design of the absent one is made and registered. */
    method ComeBack(design: Design, steps: nat, ghost away: Absence) returns (back: Device)
      requires Valid() && Pending(away) && away.design == design && design.uniqueId != "" && Buildable(design)
      modifies World()
      ensures Valid() && fresh(back) && fresh(World() - old(World()))
      ensures DesignOf(back) == design && deviceManager.DeviceWithId(design.uniqueId) == back && AliasesStand()
      ensures SettingsOf(DeviceManager.PortsOf(back)) == away.goal <==> Harmless(design, away.goal)
    {
      hide Valid;
      hide World;
      hide Pending;
      hide SettingsOf;
      hide DesignOf;
      hide Buildable;
      hide Harmless;
      Meanwhile(steps, design.uniqueId, false, away);
      ghost var later := World();
      label later:
      back := BringBack(design, away);
      WorldExists();
      forall o | o in World() - old(World())
        ensures fresh(o)
      {
        assert o !in later ==> fresh@later(o);
      }
    }

    /** A device of the design of the absent one is made and registered. */
    method BringBack(design: Design, ghost away: Absence) returns (back: Device)
      requires Valid() && Pending(away) && away.design == design && design.uniqueId != "" && Buildable(design)
      modifies World()
      ensures Valid() && fresh(back) && fresh(World() - old(World()))
      ensures DesignOf(back) == design && deviceManager.DeviceWithId(design.uniqueId) == back && AliasesStand()
      ensures SettingsOf(DeviceManager.PortsOf(back)) == away.goal <==> Harmless(design, away.goal)
    {
      hide Valid;
      hide World;
      hide Pending;
      hide DeviceManager.AsMade;
      hide SettingsOf;
      hide DesignOf;
      hide Harmless;
      back := Make(design, away);
      ghost var made := World();
      label made:
      ReturnStep(back, away);
      WorldExists();
      forall o | o in World() - old(World())
        ensures fresh(o)
      {
        assert o !in made ==> fresh@made(o);
      }
    }

    /** It is registered, within the world. */
    method ReturnStep(device: Device, ghost away: Absence)
      requires Valid() && Pending(away) && device in server.manager.devices && DesignOf(device) == away.design
      requires away.design.uniqueId != "" && DeviceManager.AsMade(DeviceManager.PortsOf(device))
      modifies World()
      ensures Valid() && AliasesStand() && fresh(World() - old(World()))
      ensures deviceManager.DeviceWithId(device.uniqueId) == device && DesignOf(device) == away.design
      ensures SettingsOf(DeviceManager.PortsOf(device)) == away.goal <==> Harmless(away.design, away.goal)
    {
      hide Valid;
      hide Pending;
      hide DeviceManager.AsMade;
      hide SettingsOf;
      hide DesignOf;
      OutsideServer();
      ReadyToRegister();
      Return(device, away);
    }

    /** A device is made, within the world. */
    method Make(design: Design, ghost away: Absence) returns (device: Device)
      requires Valid() && Pending(away) && Buildable(design)
      modifies World()
      ensures Valid() && Pending(away) && fresh(device) && device in server.manager.devices && fresh(World() - old(World()))
      ensures AliasesStand()
      ensures DesignOf(device) == design && DeviceManager.AsMade(DeviceManager.PortsOf(device))
    {
      hide OlaServer.Valid;
      hide DeviceManager.AsMade;
      hide DesignOf;
      hide AllPromised;
      hide IndexesAgree;
      hide FileBackedPreferences.Valid;
      OutsideServer();
      device := Build(design);
    }

    // ---------- restarting ----------

    /** A server without universes, ports, devices and clients. */
    static method NewServer(modes: map<nat, MergeMode>) returns (server: OlaServer)
      ensures fresh(server) && server.Valid() && fresh(server.World())
    {
      hide Universe.Sound;
      var store := new UniverseStore(modes);
      var broker := new PortBroker();
      var manager := new PortManager(store, broker);
      server := new OlaServer(manager);
    }

    /** A daemon that has just started, with the preferences a file holds and the merge modes saved for universes. */
    static method Boot(file: Option<string>, modes: map<nat, MergeMode>) returns (daemon: Daemon)
      ensures fresh(daemon) && daemon.Valid() && fresh(daemon.World()) && daemon.deviceManager.devices == map[]
      ensures daemon.preferences.prefs == if file == None then map[] else FromEntries(Parse(file.value))
      ensures daemon.Neat()
    {
      hide Parse;
      hide FromEntries;
      hide OlaServer.Valid;
      hide IndexesAgree;
      hide FileBackedPreferences.Valid;
      var server := NewServer(modes);
      var preferences := new FileBackedPreferences();
      var _ := preferences.LoadFromFile(file);
      var deviceManager := new DeviceManager(server.manager, preferences);
      daemon := new Daemon(server, deviceManager, preferences);
      if file.Some? {
        LoadedIsClean(file.value);
      }
    }

    /** The daemon stops: every device is saved and forgotten. */
    method SaveAll(ghost device: Device)
      requires Valid() && device in deviceManager.RegisteredDevices()
      modifies deviceManager, preferences
      ensures preferences.Valid() && (old(NeatBut(device)) ==> CleanBut(preferences.prefs, device.uniqueId))
      ensures var goal := AllKept(old(SettingsOf(DeviceManager.PortsOf(device))));
        Held(preferences.prefs, DesignOf(device)) == goal && Harmless(DesignOf(device), goal) && Buildable(DesignOf(device))
    {
      hide OlaServer.Valid;
      hide IndexesAgree;
      hide DeviceManager.AllSaved;
      hide PortManager.ListsOwn;
      hide FileBackedPreferences.Valid;
      hide SettingsOf;
      hide DesignOf;
      hide Held;
      hide AllPromised;
      hide OnlyUnder;
      hide CleanBut;
      hide CleanId;
      ReadyToUnregister("");
      RegisteredExistAll();
      ghost var all := deviceManager.RegisteredDevices();
      deviceManager.UnregisterAllDevices();
      StaysAsSet(device);
      SavedIsPending(preferences.prefs, device);
      if old(NeatBut(device)) {
        StaysCleanBut(old(preferences.prefs), preferences.prefs, all, device.uniqueId);
      }
    }

    lemma RegisteredExistAll()
      requires Valid()
      ensures deviceManager.RegisteredDevices() <= server.manager.devices && EachItsOwn(deviceManager.RegisteredDevices())
    {
      hide PortManager.Valid;
      hide OlaServer.ClientsKnown;
      deviceManager.RegisteredListOwn();
    }

    /** And the preferences go to a file. */
    method Shutdown(ghost device: Device) returns (text: string, ghost entries: seq<Entry>)
      requires Valid() && device in deviceManager.RegisteredDevices()
      modifies deviceManager, preferences
      ensures text == Print(entries) && FromEntries(entries) == preferences.prefs
      ensures old(NeatBut(device)) ==> CleanBut(preferences.prefs, device.uniqueId)
      ensures var goal := AllKept(old(SettingsOf(DeviceManager.PortsOf(device))));
        Held(preferences.prefs, DesignOf(device)) == goal && Harmless(DesignOf(device), goal) && Buildable(DesignOf(device))
    {
      hide Valid;
      hide Parse;
      hide Print;
      hide FromEntries;
      hide AllClean;
      hide SettingsOf;
      hide DesignOf;
      hide Held;
      hide Harmless;
      hide Buildable;
      hide NeatBut;
      hide CleanBut;
      SaveAll(device);
      text, entries := preferences.SaveToFile();
    }

    /** The file can express all that is in the preferences and all ids, but perhaps the keys and the id of one device. */
    ghost predicate NeatBut(device: Device)
      reads deviceManager, preferences
    {
      && CleanBut(preferences.prefs, device.uniqueId)
      && forall d :: d in deviceManager.RegisteredDevices() ==> d.uniqueId == device.uniqueId || CleanId(d.uniqueId)
    }

    lemma NeatIsNeatBut(device: Device)
      requires Neat() && device in deviceManager.RegisteredDevices()
      ensures NeatBut(device) && CleanId(device.uniqueId)
    {
      CleanIsCleanBut(preferences.prefs, device.uniqueId);
    }

    /**
     * The daemon stops, and starts again with the file it left; anything may happen before a device of the same design is
     * registered. If the file could express everything else before, the device gets back the priorities, modes and
     * universes of its ports exactly if the file can express its id, or if there is nothing to get back; with another id
     * its ports stay as they are made. After a boot and an orderly run every device gets everything back.
     */
    method Restart(device: Device, steps: nat, modes: map<nat, MergeMode>) returns (next: Daemon, back: Device)
      requires Valid() && device in deviceManager.RegisteredDevices()
      modifies deviceManager, preferences
      ensures next.Valid() && next.deviceManager.DeviceWithId(device.uniqueId) == back && DesignOf(back) == DesignOf(device)
      ensures var goal := AllKept(old(SettingsOf(DeviceManager.PortsOf(device))));
        && (old(NeatBut(device)) ==>
              (SettingsOf(DeviceManager.PortsOf(back)) == goal <==> CleanId(device.uniqueId) || goal == AllUnset(|goal|)))
        && (old(Neat()) ==> SettingsOf(DeviceManager.PortsOf(back)) == goal)
        && (!CleanId(device.uniqueId) ==> SettingsOf(DeviceManager.PortsOf(back)) == AllUnset(|goal|))
    {
      hide Valid;
      hide Pending;
      hide SettingsOf;
      hide DesignOf;
      hide Held;
      hide Harmless;
      hide Buildable;
      hide CleanBut;
      hide CleanId;
      hide Neat;
      hide NeatBut;
      hide Parse;
      hide Print;
      hide FromEntries;
      var design := DesignOf(device);
      ghost var goal := AllKept(SettingsOf(DeviceManager.PortsOf(device)));
      RegisteredHasId(device);
      if Neat() {
        NeatIsNeatBut(device);
      }
      ghost var entries;
      var text;
      text, entries := Shutdown(device);
      next := Boot(Some(text), modes);
      ghost var away := Absence(design, Held(next.preferences.prefs, design));
      next.NewIsPending(away);
      back := next.ComeBack(design, steps, away);
      RestartOutcome(entries, design, goal);
    }

    lemma RegisteredHasId(device: Device)
      requires Valid() && device in deviceManager.RegisteredDevices()
      ensures device.uniqueId != "" && deviceManager.DeviceWithId(device.uniqueId) == device
    {
      hide OlaServer.Valid;
    }

    lemma NewIsPending(away: Absence)
      requires deviceManager.devices == map[] && away.goal == Held(preferences.prefs, away.design)
      ensures Pending(away)
    {
      hide AllPromised;
    }

    static lemma RestartOutcome(entries: seq<Entry>, design: Design, goal: seq<Setting>)
      requires Held(FromEntries(entries), design) == goal && Harmless(design, goal)
      ensures var loaded := Held(FromEntries(Parse(Print(entries))), design);
        && (CleanBut(FromEntries(entries), design.uniqueId) ==>
              && (loaded == goal <==> CleanId(design.uniqueId) || goal == AllUnset(|goal|))
              && Harmless(design, loaded))
        && (!CleanId(design.uniqueId) ==> loaded == AllUnset(|goal|) && Harmless(design, loaded))
    {
      hide CleanId;
      hide FromEntries;
      hide Parse;
      hide Print;
      if CleanBut(FromEntries(entries), design.uniqueId) {
        SurvivesIffCleanId(entries, design);
      }
      if !CleanId(design.uniqueId) {
        UncleanIsLost(Print(entries), design);
      }
    }
  }
}
