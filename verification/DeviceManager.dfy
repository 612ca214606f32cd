/** Registered devices, their aliases, and the saving and restoring of what their ports are set to. */
module DeviceManagers {
  import opened Sequences
  import opened Dmx
  import opened Universes
  import opened PortManagers
  import opened PreferenceStore
  import opened PortKeys
  import opened PortSettings

  const FIRST_DEVICE_ALIAS := 1
  const MISSING_DEVICE_ALIAS := 0

  datatype AliasPair = AliasPair(alias: nat, device: Device?)

  // ---------- what the preferences say of a port ----------

  function KeyOf(port: Port, suffix: Suffix): string
    requires port.device != null
  {
    Key(port.device.uniqueId, port.direction, port.portId, suffix)
  }

  function ModeNumber(mode: PriorityMode): nat {
    if mode.Inherit? then 0 else 1
  }

  /** The preferences hold the patching of a port as it is. */
  ghost predicate PatchingSaved(m: Prefs, port: Port)
    requires port.device != null
    reads port`universe
  {
    var key := KeyOf(port, NoSuffix);
    if port.universe == null then key !in m else key in m && m[key] == [Dec(port.universe.id)]
  }

  /** The preferences hold the priority and the mode of a port as they are, as far as it can have them. */
  ghost predicate PrioritySaved(m: Prefs, port: Port)
    requires port.device != null
    reads port`priority, port`mode
  {
    var v, o := KeyOf(port, PriorityValue), KeyOf(port, PriorityMode);
    && (!port.capability.CapabilityNone? ==> v in m && m[v] == [Dec(port.priority as nat)])
    && (port.capability.CapabilityFull? ==> o in m && m[o] == [Dec(ModeNumber(port.mode))])
  }

  /** `m` and `n` agree except under the given keys. */
  ghost predicate OnlyUnder(m: Prefs, n: Prefs, keys: set<string>) {
    forall k :: k !in keys ==> (k in m <==> k in n) && (k in m ==> m[k] == n[k])
  }

  /** Different ports, or different settings, have different keys. */
  lemma KeysDiffer(p: Port, s: Suffix, q: Port, t: Suffix)
    requires p.device != null && q.device != null
    requires p.device.uniqueId != q.device.uniqueId || p.direction != q.direction || p.portId != q.portId || s != t
    ensures KeyOf(p, s) != KeyOf(q, t)
  {
    KeysAreDistinct(p.device.uniqueId, p.direction, p.portId, s, q.device.uniqueId, q.direction, q.portId, t);
  }

  /** Whether saving a port with this capability writes under this suffix. */
  predicate IsSaved(capability: Capability, suffix: Suffix) {
    match suffix
    case NoSuffix => true
    case PriorityValue => !capability.CapabilityNone?
    case PriorityMode => capability.CapabilityFull?
  }

  /** The keys that saving the ports of a list writes under the given suffixes. */
  ghost function KeysOf(list: seq<Port>, suffixes: set<Suffix>): set<string> {
    set p, s | p in list && p.device != null && s in suffixes && IsSaved(p.capability, s) :: KeyOf(p, s)
  }

  /** A saved setting outlives the saving of other settings, or of other ports. */
  lemma StaysSaved(m: Prefs, n: Prefs, port: Port, list: seq<Port>, suffixes: set<Suffix>)
    requires port.device != null && forall p :: p in list ==> p.device != null
    requires OnlyUnder(m, n, KeysOf(list, suffixes))
    ensures NoSuffix !in suffixes || (forall p :: p in list ==> Differ(p, port)) ==> (PatchingSaved(m, port) ==> PatchingSaved(n, port))
    ensures suffixes == {NoSuffix} || (forall p :: p in list ==> Differ(p, port)) ==> (PrioritySaved(m, port) ==> PrioritySaved(n, port))
  {
    forall p, s, t | p in list && s in suffixes && (Differ(p, port) || s != t)
      ensures KeyOf(p, s) != KeyOf(port, t)
    {
      KeysDiffer(p, s, port, t);
    }
  }

  ghost predicate Differ(p: Port, q: Port)
    requires p.device != null && q.device != null
  {
    p.device.uniqueId != q.device.uniqueId || p.direction != q.direction || p.portId != q.portId
  }

  function SpecOf(p: Port): PortSpec {
    PortSpec(p.direction, p.portId, p.capability, p.supportsTimeCode)
  }

  function DesignOf(device: Device): (d: Design)
    reads device
    ensures d.uniqueId == device.uniqueId && |d.ports| == |device.inputs| + |device.outputs|
    ensures forall i :: 0 <= i < |d.ports| ==> d.ports[i] == SpecOf((device.inputs + device.outputs)[i])
  {
    var list := device.inputs + device.outputs;
    Design(device.uniqueId, device.allowLooping, device.allowMultiPortPatching,
           seq(|list|, i requires 0 <= i < |list| => SpecOf(list[i])))
  }

  /** The priority and mode that were saved are what a new port with the same key and capability gets. */
  lemma PriorityRoundTrip(m: Prefs, port: Port)
    requires port.device != null && PrioritySaved(m, port) && PortManager.Configured(port)
    ensures RestoredLevel(m, port.device.uniqueId, SpecOf(port), SOURCE_PRIORITY_DEFAULT, PriorityMode.Inherit) == (port.priority, port.mode)
  {
    ByteSurvives(port.priority as nat);
    ByteSurvives(ModeNumber(port.mode));
  }

  /** The devices that are registered now; an entry without a device only keeps the alias. */
  function Live(devices: map<string, AliasPair>): set<Device> {
    set id | id in devices && devices[id].device != null :: devices[id].device
  }

  /**
   * The alias index is the inverse view of the registered entries of the id index; aliases of different ids differ, and
   * all are below the next one.
   */
  ghost predicate IndexesAgree(devices: map<string, AliasPair>, aliases: map<nat, Device>, nextAlias: nat) {
    && FIRST_DEVICE_ALIAS <= nextAlias
    && (forall id :: id in devices ==> FIRST_DEVICE_ALIAS <= devices[id].alias < nextAlias)
    && (forall i, j :: i in devices && j in devices && i != j ==> devices[i].alias != devices[j].alias)
    && (forall id :: id in devices && devices[id].device != null ==>
          devices[id].device.uniqueId == id && id != "" && devices[id].alias in aliases && aliases[devices[id].alias] == devices[id].device)
    && (forall a :: a in aliases ==>
          var id := aliases[a].uniqueId; id in devices && devices[id] == AliasPair(a, aliases[a]))
  }

  /** `ports` are exactly the outputs of the given devices that support timecode. */
  ghost predicate IsTimeCodeOf(ports: set<Port>, devices: set<Device>)
    reads devices`outputs
  {
    && (forall p :: p in ports ==> p.supportsTimeCode && p.device != null && p.device in devices && p in p.device.outputs)
    && (forall d :: d in devices ==> forall p :: p in d.outputs && p.supportsTimeCode ==> p in ports)
  }

  lemma TimeCodeOneLess(ports: set<Port>, devices: set<Device>, device: Device)
    requires IsTimeCodeOf(ports, devices) && (forall p :: p in device.outputs ==> p.device == device)
    requires forall d :: d in devices ==> forall p :: p in d.outputs ==> p.device == d
    ensures IsTimeCodeOf(ports - Elements(device.outputs), devices - {device})
  {
  }

  lemma TimeCodeOneMore(ports: set<Port>, devices: set<Device>, device: Device)
    requires IsTimeCodeOf(ports, devices) && (forall p :: p in device.outputs ==> p.device == device)
    ensures IsTimeCodeOf(ports + (set p | p in device.outputs && p.supportsTimeCode), devices + {device})
  {
  }

  /** If the timecode ports stay as they are when a device goes, they are right exactly if none of its outputs is one. */
  lemma TimeCodeLeft(ports: set<Port>, devices: set<Device>, device: Device)
    requires IsTimeCodeOf(ports, devices) && device in devices && (forall p :: p in device.outputs ==> p.device == device)
    ensures IsTimeCodeOf(ports, devices - {device}) <==> forall p :: p in device.outputs ==> !p.supportsTimeCode
  {
  }

  lemma IndexOneMore(devices: map<string, AliasPair>, aliases: map<nat, Device>, nextAlias: nat, device: Device)
    requires IndexesAgree(devices, aliases, nextAlias) && device.uniqueId != ""
    requires device.uniqueId in devices ==> devices[device.uniqueId].device == null
    ensures var known := device.uniqueId in devices;
            var alias := if known then devices[device.uniqueId].alias else nextAlias;
            && alias !in aliases
            && IndexesAgree(devices[device.uniqueId := AliasPair(alias, device)], aliases[alias := device],
                            if known then nextAlias else nextAlias + 1)
  {
  }

  function SettingOf(p: Port): Setting
    reads p`universe, p`priority, p`mode
  {
    Setting(if p.universe == null then None else Some(p.universe.id), p.priority, p.mode)
  }

  ghost function SettingsOf(list: seq<Port>): (r: seq<Setting>)
    reads Elements(list)`universe, Elements(list)`priority, Elements(list)`mode
    ensures |r| == |list| && forall i :: 0 <= i < |list| ==> r[i] == SettingOf(list[i])
  {
    if list == [] then [] else SettingsOf(list[..|list| - 1]) + [SettingOf(list[|list| - 1])]
  }

  class DeviceManager {
    const portManager: PortManager
    const preferences: FileBackedPreferences?
    var devices: map<string, AliasPair>
    var aliases: map<nat, Device>
    var nextAlias: nat
    var timeCodePorts: set<Port>

    constructor (portManager: PortManager, preferences: FileBackedPreferences?)
      ensures this.portManager == portManager && this.preferences == preferences
      ensures Indexed() && devices == map[] && nextAlias == 1 && timeCodePorts == {}
    {
      this.portManager, this.preferences := portManager, preferences;
      devices, aliases, nextAlias, timeCodePorts := map[], map[], FIRST_DEVICE_ALIAS, {};
    }

    /** The two indexes agree, and no two ids share an alias. */
    ghost predicate Indexed()
      reads this`devices, this`aliases, this`nextAlias
    {
      IndexesAgree(devices, aliases, nextAlias)
    }

    function RegisteredDevices(): set<Device>
      reads this`devices
    {
      Live(devices)
    }

    ghost predicate TimeCodeExact()
      reads this`devices, this`timeCodePorts, RegisteredDevices()`outputs
    {
      IsTimeCodeOf(timeCodePorts, RegisteredDevices())
    }

    ghost predicate RegisteredExist()
      reads this`devices, portManager
    {
      RegisteredDevices() <= portManager.devices
    }

    // ---------- saving ----------

    /** Every port of the device, inputs first. */
    static function PortsOf(device: Device): seq<Port>
      reads device
    {
      device.inputs + device.outputs
    }

    method SavePatching(port: Port)
      requires preferences != null && preferences.Valid() && port.device != null
      modifies preferences
      ensures preferences.Valid() && PatchingSaved(preferences.prefs, port)
      ensures OnlyUnder(old(preferences.prefs), preferences.prefs, {KeyOf(port, NoSuffix)})
    {
      if port.universe != null {
        preferences.SetValue(KeyOf(port, NoSuffix), Dec(port.universe.id));
      } else {
        preferences.RemoveValue(KeyOf(port, NoSuffix));
      }
    }

    method SavePortPriority(port: Port)
      requires preferences != null && preferences.Valid() && port.device != null
      modifies preferences
      ensures preferences.Valid() && PrioritySaved(preferences.prefs, port)
      ensures OnlyUnder(old(preferences.prefs), preferences.prefs, KeysOf([port], {PriorityValue, PriorityMode}))
    {
      KeysDiffer(port, PriorityValue, port, PriorityMode);
      assert port in [port];
      if port.capability.CapabilityNone? {
        return;
      }
      preferences.SetValue(KeyOf(port, PriorityValue), Dec(port.priority as nat));
      if port.capability.CapabilityFull? {
        preferences.SetValue(KeyOf(port, PriorityMode), Dec(ModeNumber(port.mode)));
      }
    }

    method SavePortPatchings(list: seq<Port>, device: Device)
      requires preferences != null && preferences.Valid() && forall p :: p in list ==> p.device == device
      requires forall i, j :: 0 <= i < j < |list| ==> Differ(list[i], list[j])
      modifies preferences
      ensures preferences.Valid() && forall p :: p in list ==> PatchingSaved(preferences.prefs, p)
      ensures OnlyUnder(old(preferences.prefs), preferences.prefs, KeysOf(list, {NoSuffix}))
    {
      hide PatchingSaved;
      for i := 0 to |list|
        invariant preferences.Valid() && forall j :: 0 <= j < i ==> PatchingSaved(preferences.prefs, list[j])
        invariant OnlyUnder(old(preferences.prefs), preferences.prefs, KeysOf(list, {NoSuffix}))
      {
        ghost var before := preferences.prefs;
        SavePatching(list[i]);
        assert KeysOf([list[i]], {NoSuffix}) == {KeyOf(list[i], NoSuffix)};
        forall j | 0 <= j < i
          ensures PatchingSaved(preferences.prefs, list[j])
        {
          StaysSaved(before, preferences.prefs, list[j], [list[i]], {NoSuffix});
        }
      }
    }

    method SavePriorities(list: seq<Port>, device: Device)
      requires preferences != null && preferences.Valid() && forall p :: p in list ==> p.device == device
      requires forall i, j :: 0 <= i < j < |list| ==> Differ(list[i], list[j])
      modifies preferences
      ensures preferences.Valid() && forall p :: p in list ==> PrioritySaved(preferences.prefs, p)
      ensures OnlyUnder(old(preferences.prefs), preferences.prefs, KeysOf(list, {PriorityValue, PriorityMode}))
    {
      hide PrioritySaved;
      for i := 0 to |list|
        invariant preferences.Valid() && forall j :: 0 <= j < i ==> PrioritySaved(preferences.prefs, list[j])
        invariant OnlyUnder(old(preferences.prefs), preferences.prefs, KeysOf(list, {PriorityValue, PriorityMode}))
      {
        ghost var before := preferences.prefs;
        SavePortPriority(list[i]);
        assert KeysOf([list[i]], {PriorityValue, PriorityMode}) <= KeysOf(list, {PriorityValue, PriorityMode});
        forall j | 0 <= j < i
          ensures PrioritySaved(preferences.prefs, list[j])
        {
          StaysSaved(before, preferences.prefs, list[j], [list[i]], {PriorityValue, PriorityMode});
        }
      }
    }

    /** The preferences hold everything about the ports of a list. */
    static ghost predicate AllSaved(m: Prefs, list: seq<Port>)
      reads Elements(list)`universe, Elements(list)`priority, Elements(list)`mode
    {
      forall p :: p in list ==> p.device != null && PatchingSaved(m, p) && PrioritySaved(m, p)
    }

    lemma OwnPortsDiffer(device: Device)
      requires portManager.ListsOwn(device)
      ensures forall p :: p in device.inputs + device.outputs ==> p.device == device
      ensures forall i, j :: 0 <= i < j < |device.inputs| ==> Differ(device.inputs[i], device.inputs[j])
      ensures forall i, j :: 0 <= i < j < |device.outputs| ==> Differ(device.outputs[i], device.outputs[j])
      ensures forall p, q :: p in device.inputs && q in device.outputs ==> Differ(p, q) && Differ(q, p)
    {
    }

    /** Save the patchings of both directions, then the priorities. No step spoils what another saved. */
    method SavePorts(device: Device)
      requires preferences != null && preferences.Valid() && portManager.ListsOwn(device)
      modifies preferences
      ensures preferences.Valid() && AllSaved(preferences.prefs, PortsOf(device))
      ensures OnlyUnder(old(preferences.prefs), preferences.prefs, KeysOfDevice(device))
    {
      OwnPortsDiffer(device);
      hide PatchingSaved;
      hide PrioritySaved;
      hide Differ;
      hide PortManager.ListsOwn;
      var inputs, outputs := device.inputs, device.outputs;
      SavePortPatchings(inputs, device);
      ghost var m1 := preferences.prefs;
      SavePortPatchings(outputs, device);
      ghost var m2 := preferences.prefs;
      SavePriorities(inputs, device);
      ghost var m3 := preferences.prefs;
      SavePriorities(outputs, device);
      ghost var m4 := preferences.prefs;
      forall p | p in inputs + outputs
        ensures PatchingSaved(m4, p) && PrioritySaved(m4, p)
      {
        StaysSaved(m1, m2, p, outputs, {NoSuffix});
        StaysSaved(m2, m3, p, inputs, {PriorityValue, PriorityMode});
        StaysSaved(m3, m4, p, outputs, {PriorityValue, PriorityMode});
      }
    }

    /** Save a device that goes away, and forget its timecode ports; without preferences nothing is done at all. */
    method ReleaseDevice(device: Device?)
      requires preferences != null ==> preferences.Valid()
      requires device != null ==> portManager.ListsOwn(device)
      modifies preferences, this`timeCodePorts
      ensures if preferences != null && device != null then timeCodePorts == old(timeCodePorts) - Elements(device.outputs)
              else timeCodePorts == old(timeCodePorts) && (preferences != null ==> unchanged(preferences))
      ensures preferences != null ==> preferences.Valid()
      ensures preferences != null && device != null ==>
                && AllSaved(preferences.prefs, PortsOf(device))
                && OnlyUnder(old(preferences.prefs), preferences.prefs, KeysOfDevice(device))
    {
      if preferences == null || device == null {
        return;
      }
      SavePorts(device);
      hide AllSaved;
      hide OnlyUnder;
      hide PortManager.ListsOwn;
      for i := 0 to |device.outputs|
        modifies this`timeCodePorts
        invariant timeCodePorts == old(timeCodePorts) - Elements(device.outputs[..i])
      {
        assert device.outputs[..i + 1] == device.outputs[..i] + [device.outputs[i]];
        timeCodePorts := timeCodePorts - {device.outputs[i]};
      }
      assert device.outputs[..|device.outputs|] == device.outputs;
    }

    // ---------- restoring ----------

    method RestorePortPriority(port: Port)
      requires preferences != null && preferences.Valid() && port.device != null
      modifies port`priority, port`mode
      ensures (port.priority, port.mode) ==
                RestoredLevel(preferences.prefs, port.device.uniqueId, SpecOf(port), old(port.priority), old(port.mode))
      ensures old(PortManager.Configured(port)) ==> PortManager.Configured(port)
    {
      if port.capability.CapabilityNone? {
        return;
      }
      var priorityText := preferences.GetValue(KeyOf(port, PriorityValue));
      var modeText := preferences.GetValue(KeyOf(port, PriorityMode));
      if priorityText == "" && modeText == "" {
        return;
      }
      var priority := SavedByte(priorityText);
      if priority.Some? {
        PortManager.SetPriorityOverride(port, priority.value as byte);
      }
      var mode := SavedByte(modeText);
      if mode == Some(0) {
        PortManager.SetPriorityInherit(port);
      }
    }

    /** Existing universes stay stored and keep their clients; what is stored besides is new and has none. */
    twostate predicate StoreGrows()
      reads portManager.store`universes, portManager.store.universes.Values`sources, portManager.store.universes.Values`sinks
    {
      && (forall id :: id in old(portManager.store.universes) ==> id in portManager.store.universes)
      && (forall id :: id in portManager.store.universes ==> var u := portManager.store.universes[id];
            if id in old(portManager.store.universes)
            then u == old(portManager.store.universes)[id] && u.sources == old(u.sources) && u.sinks == old(u.sinks)
            else fresh(u) && u.sources.Keys == {} && u.sinks == {})
    }

    lemma ReachIsStored(port: Port, id: nat)
      requires portManager.Valid() && port in portManager.ports
      ensures portManager.Reach(port, id) <= portManager.store.universes.Values
    {
      hide UniverseStore.EachSound;
      hide PortManager.Legal;
      hide PortManager.Owned;
    }

    lemma UniverseHasItsId(id: nat)
      requires portManager.Valid() && id in portManager.store.universes
      ensures portManager.store.universes[id].id == id
    {
      hide UniverseStore.EachSound;
      hide PortManager.Linked;
      hide PortManager.Legal;
      hide PortManager.Owned;
    }

    /** Patch a port to universe `id`, unless the guards refuse it. */
    method RestorePatching(port: Port, id: UniverseId)
      requires portManager.Valid() && port in portManager.ports
      modifies port`universe, portManager.broker, portManager.store
      modifies portManager.store.universes.Values
      ensures portManager.Valid() && StoreGrows()
      ensures if old(portManager.Refused(port, id)) then port.universe == old(port.universe)
              else port.universe != null && port.universe.id == id
    {
      hide PortManager.Valid;
      hide PortManager.Refused;
      hide UniverseStore.Stores;
      ReachIsStored(port, id);
      var ok := portManager.PatchPort(port, id, true);
      if id in portManager.store.universes {
        UniverseHasItsId(id);
      }
    }

    /** The guards do not let a port go where the preferences want it. */
    ghost predicate RefusedNow(port: Port)
      requires preferences != null && port.device != null
      reads preferences, port`universe, port.device, (set p | p in port.device.inputs + port.device.outputs)`universe
    {
      var wanted := Wanted(preferences.prefs, port.device.uniqueId, SpecOf(port));
      wanted.Some? && portManager.Refused(port, wanted.value)
    }

    /** The priority of a port, and then its patching. */
    method RestorePort(port: Port)
      requires preferences != null && preferences.Valid() && port.device != null
      requires portManager.Valid() && port in portManager.ports
      modifies port`priority, port`mode, port`universe, portManager.broker, portManager.store
      modifies portManager.store.universes.Values
      ensures portManager.Valid() && StoreGrows()
      ensures SettingOf(port) == Turned(preferences.prefs, port.device.uniqueId, SpecOf(port), old(SettingOf(port)), old(RefusedNow(port)))
    {
      hide PortManager.Valid;
      hide PortManager.Refused;
      hide RestoredLevel;
      hide SavedUniverse;
      RestorePortPriority(port);
      var wanted := SavedUniverse(preferences.GetValue(KeyOf(port, NoSuffix)));
      if wanted.Some? {
        RestorePatching(port, wanted.value);
      }
    }

    lemma DeviceIsOwn(device: Device)
      requires portManager.Valid() && device in portManager.devices
      ensures portManager.ListsOwn(device)
    {
      hide UniverseStore.EachSound;
      hide PortManager.Linked;
      hide PortManager.Legal;
    }

    /** The guards refuse a port exactly if another port of its device is where they do not let it go. */
    lemma RefusedIsBarred(device: Device, k: nat, id: nat)
      requires portManager.ListsOwn(device) && k < |PortsOf(device)|
      ensures portManager.Refused(PortsOf(device)[k], id) <==> Barred(DesignOf(device), SettingsOf(PortsOf(device)), k, id)
    {
      if Barred(DesignOf(device), SettingsOf(PortsOf(device)), k, id) {
        BarredIsRefused(device, k, id);
      }
      if portManager.Refused(PortsOf(device)[k], id) {
        RefusedMeansBarred(device, k, id);
      }
    }

    lemma BarredIsRefused(device: Device, k: nat, id: nat)
      requires portManager.ListsOwn(device) && k < |PortsOf(device)|
      requires Barred(DesignOf(device), SettingsOf(PortsOf(device)), k, id)
      ensures portManager.Refused(PortsOf(device)[k], id)
    {
      hide SettingsOf;
      hide ById;
      var list, design, s := PortsOf(device), DesignOf(device), SettingsOf(PortsOf(device));
      var port := list[k];
      assert port in list && port.device == device;
      var j :| 0 <= j < |s| && s[j].universe == Some(id) && !MayShare(design, j, k);
      assert list[j] in list;
      assert list[j] in if list[j].direction == port.direction then device.Ports(port.direction) else device.Ports(Opposite(port.direction));
    }

    lemma RefusedMeansBarred(device: Device, k: nat, id: nat)
      requires portManager.ListsOwn(device) && k < |PortsOf(device)| && portManager.Refused(PortsOf(device)[k], id)
      ensures Barred(DesignOf(device), SettingsOf(PortsOf(device)), k, id)
    {
      hide SettingsOf;
      hide ById;
      var list, design, s := PortsOf(device), DesignOf(device), SettingsOf(PortsOf(device));
      var port := list[k];
      assert port in list && port.device == device;
      var q :| q in list && q.universe != null && q.universe.id == id
               && if q.direction == port.direction then !device.allowMultiPortPatching else !device.allowLooping;
      var j :| 0 <= j < |list| && list[j] == q;
      assert s[j].universe == Some(id) && !MayShare(design, j, k);
    }

    lemma ReadyForTurn(device: Device, k: nat)
      requires preferences != null && portManager.Valid() && device in portManager.devices && k < |PortsOf(device)|
      ensures var list := PortsOf(device);
        && list[k] in portManager.ports && list[k].device == device && (forall i :: 0 <= i < |list| && i != k ==> list[i] != list[k])
        && RefusedNow(list[k]) == BarredNow(preferences.prefs, DesignOf(device), SettingsOf(list), k)
    {
      hide PortManager.Valid;
      DeviceIsOwn(device);
      AllPortsAreOwn(device);
      var list := PortsOf(device);
      assert list[k] in list;
      var wanted := Wanted(preferences.prefs, device.uniqueId, SpecOf(list[k]));
      if wanted.Some? {
        RefusedIsBarred(device, k, wanted.value);
      }
    }

    /** The port at position `k` of a device gets its turn. */
    method RestoreOne(port: Port, device: Device, k: nat)
      requires preferences != null && preferences.Valid() && portManager.Valid() && device in portManager.devices
      requires k < |PortsOf(device)| && PortsOf(device)[k] == port
      modifies port`priority, port`mode, port`universe
      modifies portManager.broker, portManager.store, portManager.store.universes.Values
      ensures portManager.Valid() && StoreGrows()
      ensures SettingsOf(PortsOf(device)) == RestoreTurn(preferences.prefs, DesignOf(device), old(SettingsOf(PortsOf(device))), k)
    {
      hide PortManager.Valid;
      hide RefusedNow;
      hide BarredNow;
      hide Turned;
      hide StoreGrows;
      hide SettingsOf;
      hide DesignOf;
      ReadyForTurn(device, k);
      ghost var was := SettingsOf(PortsOf(device));
      RestorePort(port);
      ghost var now := SettingsOf(PortsOf(device));
      assert now == was[k := now[k]];
    }

    /** Restore the ports of a device in order, inputs before outputs. */
    method RestorePortSettings(device: Device)
      requires preferences != null && preferences.Valid() && portManager.Valid() && device in portManager.devices
      modifies Elements(PortsOf(device))`priority, Elements(PortsOf(device))`mode, Elements(PortsOf(device))`universe
      modifies portManager.broker, portManager.store, portManager.store.universes.Values
      ensures portManager.Valid() && StoreGrows()
      ensures var list := PortsOf(device);
        SettingsOf(list) == RestoreUpTo(preferences.prefs, DesignOf(device), old(SettingsOf(list)), |list|)
    {
      hide PortManager.Valid;
      hide RestoreTurn;
      hide SettingsOf;
      hide SettingOf;
      hide DesignOf;
      hide FileBackedPreferences.Valid;
      var list := PortsOf(device);
      for i := 0 to |list|
        invariant portManager.Valid() && StoreGrows()
        invariant SettingsOf(list) == RestoreUpTo(preferences.prefs, DesignOf(device), old(SettingsOf(list)), i)
      {
        assert list[i] in list;
        RestoreOne(list[i], device, i);
      }
    }

    lemma AllPortsAreOwn(device: Device)
      requires portManager.ListsOwn(device)
      ensures NoDup(PortsOf(device)) && forall p :: p in PortsOf(device) ==> p in portManager.ports && p.device == device
    {
      var inputs, list := device.inputs, device.inputs + device.outputs;
      forall i, j | 0 <= i < j < |list|
        ensures list[i] != list[j]
      {
        if j < |inputs| {
          assert inputs[i].portId < inputs[j].portId;
        } else if i < |inputs| {
          assert list[i] in inputs && list[j] in device.outputs;
        }
      }
    }

    // ---------- registering ----------

    /** The device got an entry, with the alias its id had before, if it had one, and else the next. */
    ghost predicate Entered(device: Device, was: map<string, AliasPair>, wereAliases: map<nat, Device>, wasNext: nat)
      reads this`devices, this`aliases, this`nextAlias
    {
      var known := device.uniqueId in was;
      var alias := if known then was[device.uniqueId].alias else wasNext;
      && devices == was[device.uniqueId := AliasPair(alias, device)]
      && aliases == wereAliases[alias := device]
      && nextAlias == if known then wasNext else wasNext + 1
    }

    /** Give a device an entry and an alias: the one its id had before, or the next. */
    method Index(device: Device) returns (ok: bool)
      requires Indexed()
      modifies this`devices, this`aliases, this`nextAlias
      ensures Indexed()
      ensures ok <==> device.uniqueId != "" && !(device.uniqueId in old(devices) && old(devices)[device.uniqueId].device != null)
      ensures ok ==> Live(devices) == old(Live(devices)) + {device}
      ensures if ok then Entered(device, old(devices), old(aliases), old(nextAlias)) else unchanged(this)
    {
      var id := device.uniqueId;
      if id == "" {
        return false;
      }
      hide IndexesAgree;
      var alias: nat;
      if id in devices {
        if devices[id].device != null {
          return false;
        }
        IndexOneMore(devices, aliases, nextAlias, device);
        alias := devices[id].alias;
      } else {
        IndexOneMore(devices, aliases, nextAlias, device);
        alias := nextAlias;
        nextAlias := nextAlias + 1;
      }
      LiveOneMore(devices, alias, device);
      devices := devices[id := AliasPair(alias, device)];
      aliases := aliases[alias := device];
      return true;
    }

    method AddTimeCodePorts(list: seq<Port>)
      modifies this`timeCodePorts
      ensures timeCodePorts == old(timeCodePorts) + set p | p in list && p.supportsTimeCode
    {
      for i := 0 to |list|
        invariant timeCodePorts == old(timeCodePorts) + set p | p in list[..i] && p.supportsTimeCode
      {
        assert list[..i + 1] == list[..i] + [list[i]];
        if list[i].supportsTimeCode {
          timeCodePorts := timeCodePorts + {list[i]};
        }
      }
      assert list[..|list|] == list;
    }

    /** Whether RegisterDevice takes the device: it has an id, and nothing is registered under it. */
    predicate Registrable(device: Device)
      reads this`devices
    {
      && device.uniqueId != ""
      && !(device.uniqueId in devices && devices[device.uniqueId].device != null)
    }

    /**
     * Register a device. An id keeps the alias it once had. The ports are restored in order, each to its saved priority
     * and mode, and to its saved universe unless the guards forbid it at that moment.
     */
    method RegisterDevice(device: Device) returns (ok: bool)
      requires Indexed() && portManager.Valid() && (preferences != null ==> preferences.Valid())
      requires device in portManager.devices
      modifies this`devices, this`aliases, this`nextAlias, this`timeCodePorts
      modifies Elements(PortsOf(device))`priority, Elements(PortsOf(device))`mode, Elements(PortsOf(device))`universe
      modifies portManager.broker, portManager.store, portManager.store.universes.Values
      ensures Indexed() && portManager.Valid() && StoreGrows()
      ensures ok == old(Registrable(device))
      ensures if ok then Entered(device, old(devices), old(aliases), old(nextAlias)) else unchanged(this)
      ensures ok ==> RegisteredDevices() == old(RegisteredDevices()) + {device}
      ensures old(TimeCodeExact()) ==> TimeCodeExact()
      ensures var list := PortsOf(device);
        SettingsOf(list) == if ok && preferences != null
                            then RestoreUpTo(preferences.prefs, DesignOf(device), old(SettingsOf(list)), |list|)
                            else old(SettingsOf(list))
    {
      hide IndexesAgree;
      hide PortManager.Valid;
      hide FileBackedPreferences.Valid;
      hide IsTimeCodeOf;
      hide Entered;
      hide PortManager.ListsOwn;
      hide SettingsOf;
      hide SettingOf;
      hide RestoreUpTo;
      hide DesignOf;
      ghost var others := RegisteredDevices();
      ok := Index(device);
      if ok {
        RestoreAndListen(device, others);
      }
    }

    lemma ListeningStaysExact(device: Device, others: set<Device>)
      requires portManager.Valid() && device in portManager.devices
      ensures IsTimeCodeOf(timeCodePorts, others) ==>
                IsTimeCodeOf(timeCodePorts + (set p | p in device.outputs && p.supportsTimeCode), others + {device})
    {
      hide PortManager.Valid;
      DeviceIsOwn(device);
      if IsTimeCodeOf(timeCodePorts, others) {
        TimeCodeOneMore(timeCodePorts, others, device);
      }
    }

    /** The rest of registering: restore the ports if there are preferences, and note the timecode ports. */
    method RestoreAndListen(device: Device, ghost others: set<Device>)
      requires portManager.Valid() && (preferences != null ==> preferences.Valid()) && device in portManager.devices
      modifies this`timeCodePorts
      modifies Elements(PortsOf(device))`priority, Elements(PortsOf(device))`mode, Elements(PortsOf(device))`universe
      modifies portManager.broker, portManager.store, portManager.store.universes.Values
      ensures portManager.Valid() && StoreGrows()
      ensures old(IsTimeCodeOf(timeCodePorts, others)) ==> IsTimeCodeOf(timeCodePorts, others + {device})
      ensures var list := PortsOf(device);
        SettingsOf(list) == if preferences != null
                            then RestoreUpTo(preferences.prefs, DesignOf(device), old(SettingsOf(list)), |list|)
                            else old(SettingsOf(list))
    {
      hide PortManager.Valid;
      hide IsTimeCodeOf;
      hide SettingsOf;
      hide RestoreUpTo;
      hide DesignOf;
      if preferences != null {
        RestorePortSettings(device);
      }
      ListeningStaysExact(device, others);
      AddTimeCodePorts(device.outputs);
    }

    // ---------- unregistering ----------

    /** The device registered under an id, if any. */
    function DeviceWithId(id: string): Device?
      reads this`devices
    {
      if id in devices then devices[id].device else null
    }

    /** What will hold once the entry of a registered device is cleared, and its timecode ports are gone or have stayed. */
    lemma EntryCleared(id: string)
      requires Indexed() && DeviceWithId(id) != null && forall d :: d in RegisteredDevices() ==> portManager.ListsOwn(d)
      ensures portManager.ListsOwn(DeviceWithId(id))
      ensures var fewer := devices[id := devices[id].(device := null)];
        && IndexesAgree(fewer, aliases - {devices[id].alias}, nextAlias)
        && (TimeCodeExact() ==>
              && IsTimeCodeOf(timeCodePorts - Elements(DeviceWithId(id).outputs), Live(fewer))
              && (IsTimeCodeOf(timeCodePorts, Live(fewer)) <==> forall p :: p in DeviceWithId(id).outputs ==> !p.supportsTimeCode))
    {
      var device := DeviceWithId(id);
      IndexOneLess(devices, aliases, nextAlias, id);
      LiveOneLess(devices, aliases, nextAlias, id);
      hide IndexesAgree;
      assert device in RegisteredDevices();
      assert forall d :: d in RegisteredDevices() ==> forall p :: p in d.outputs ==> p.device == d;
      if TimeCodeExact() {
        TimeCodeOneLess(timeCodePorts, RegisteredDevices(), device);
        TimeCodeLeft(timeCodePorts, RegisteredDevices(), device);
      }
    }

    /**
     * Save and forget the device registered under an id; the id keeps its alias. Without preferences the timecode ports
     * of the device stay behind, so the set stays right exactly if there are preferences or the device has no such port.
     */
    method UnregisterDevice(id: string) returns (ok: bool)
      requires Indexed() && (preferences != null ==> preferences.Valid())
      requires forall d :: d in RegisteredDevices() ==> portManager.ListsOwn(d)
      modifies this`devices, this`aliases, this`timeCodePorts, preferences
      ensures Indexed() && (preferences != null ==> preferences.Valid())
      ensures ok <==> old(DeviceWithId(id)) != null
      ensures if ok
              then && devices == old(devices)[id := old(devices)[id].(device := null)]
                   && aliases == old(aliases) - {old(devices)[id].alias}
              else unchanged(this) && (preferences != null ==> unchanged(preferences))
      ensures ok && preferences != null ==> AllSaved(preferences.prefs, PortsOf(old(DeviceWithId(id))))
      ensures ok && preferences != null ==>
                OnlyUnder(old(preferences.prefs), preferences.prefs, KeysOfDevice(old(DeviceWithId(id))))
      ensures ok && old(TimeCodeExact()) ==>
                (TimeCodeExact() <==> preferences != null || forall p :: p in old(DeviceWithId(id)).outputs ==> !p.supportsTimeCode)
      ensures preferences == null ==> timeCodePorts == old(timeCodePorts)
    {
      hide PortManager.ListsOwn;
      hide IndexesAgree;
      hide IsTimeCodeOf;
      hide AllSaved;
      hide OnlyUnder;
      hide FileBackedPreferences.Valid;
      var device := DeviceWithId(id);
      if device == null {
        return false;
      }
      EntryCleared(id);
      ReleaseDevice(device);
      aliases := aliases - {devices[id].alias};
      devices := devices[id := devices[id].(device := null)];
      return true;
    }

    /** What was saved of one device outlives the saving of another: their keys never collide. */
    lemma OtherDeviceStaysSaved(m: Prefs, n: Prefs, saved: Device, released: Device)
      requires portManager.ListsOwn(saved) && portManager.ListsOwn(released) && saved.uniqueId != released.uniqueId
      requires AllSaved(m, PortsOf(saved))
      requires OnlyUnder(m, n, KeysOfDevice(released))
      ensures AllSaved(n, PortsOf(saved))
    {
      OwnPortsDiffer(saved);
      OwnPortsDiffer(released);
      forall p | p in PortsOf(saved)
        ensures PatchingSaved(n, p) && PrioritySaved(n, p)
      {
        StaysSaved(m, n, p, PortsOf(released), {NoSuffix, PriorityValue, PriorityMode});
      }
    }

    /** The keys that saving a device writes. */
    static ghost function KeysOfDevice(device: Device): set<string>
      reads device
    {
      KeysOf(PortsOf(device), {NoSuffix, PriorityValue, PriorityMode})
    }

    static ghost function KeysOfAll(devices: set<Device>): set<string>
      reads devices
    {
      set d, k | d in devices && k in KeysOfDevice(d) :: k
    }

    /** What the preferences are, without counting whether there are any. */
    ghost function CurrentPrefs(): Prefs
      reads preferences
    {
      if preferences == null then map[] else preferences.prefs
    }

    /**
     * The given devices are saved, and nothing else is, since the preferences were `was`; none of their ports is left
     * among the timecode ports.
     */
    ghost predicate Settled(done: set<Device>, was: Prefs)
      reads preferences, this`timeCodePorts, done, set d, p | d in done && p in PortsOf(d) :: p
    {
      preferences != null ==>
        && OnlyUnder(was, preferences.prefs, KeysOfAll(done))
        && forall d :: d in done ==> AllSaved(preferences.prefs, PortsOf(d)) && timeCodePorts !! Elements(d.outputs)
    }

    static lemma OneMoreDevice(m: Prefs, n: Prefs, o: Prefs, done: set<Device>, device: Device)
      requires OnlyUnder(m, n, KeysOfAll(done)) && OnlyUnder(n, o, KeysOfDevice(device))
      ensures OnlyUnder(m, o, KeysOfAll(done + {device}))
    {
      hide KeysOfDevice;
      assert KeysOfAll(done + {device}) == KeysOfAll(done) + KeysOfDevice(device);
    }

    method ReleaseOneMore(device: Device?, ghost done: set<Device>, ghost was: Prefs)
      requires preferences != null ==> preferences.Valid()
      requires device != null ==> portManager.ListsOwn(device)
      requires forall d :: d in done ==> portManager.ListsOwn(d) && (device != null ==> d.uniqueId != device.uniqueId)
      requires Settled(done, was)
      modifies preferences, this`timeCodePorts
      ensures preferences != null ==> preferences.Valid()
      ensures Settled(if device == null then done else done + {device}, was)
      ensures timeCodePorts <= old(timeCodePorts) && (preferences == null ==> timeCodePorts == old(timeCodePorts))
    {
      hide PortManager.ListsOwn;
      hide PatchingSaved;
      hide PrioritySaved;
      ReleaseDevice(device);
      if preferences != null && device != null {
        OneMoreDevice(was, old(preferences.prefs), preferences.prefs, done, device);
        forall d | d in done
          ensures AllSaved(preferences.prefs, PortsOf(d))
        {
          OtherDeviceStaysSaved(old(preferences.prefs), preferences.prefs, d, device);
        }
      }
    }

    method ReleaseEntry(id: string, ghost was: map<string, AliasPair>, ghost todo: set<string>, ghost done: set<Device>,
                        ghost held: Prefs)
        returns (ghost more: set<Device>)
      requires Clearing(devices, was, todo, done) && id in todo && Settled(done, held) && (preferences != null ==> preferences.Valid())
      requires forall d :: d in Live(was) ==> portManager.ListsOwn(d)
      modifies this`devices, this`timeCodePorts, preferences
      ensures Clearing(devices, was, todo - {id}, more) && Settled(more, held) && (preferences != null ==> preferences.Valid())
      ensures timeCodePorts <= old(timeCodePorts) && (preferences == null ==> timeCodePorts == old(timeCodePorts))
    {
      ClearingStep(devices, was, todo, done, id);
      hide Settled;
      hide Clearing;
      hide PortManager.ListsOwn;
      var device := devices[id].device;
      if device != null {
        assert device in Live(was);
      }
      ReleaseOneMore(device, done, held);
      more := if device == null then done else done + {device};
      devices := devices[id := devices[id].(device := null)];
    }

    /** Save every registered device, and clear its entry. */
    method ReleaseAll() returns (ghost done: set<Device>)
      requires Indexed() && (preferences != null ==> preferences.Valid())
      requires forall d :: d in RegisteredDevices() ==> portManager.ListsOwn(d)
      modifies this`devices, this`timeCodePorts, preferences
      ensures preferences != null ==> preferences.Valid()
      ensures devices == map id | id in old(devices) :: old(devices)[id].(device := null)
      ensures done == old(RegisteredDevices()) && Settled(done, old(CurrentPrefs()))
      ensures timeCodePorts <= old(timeCodePorts) && (preferences == null ==> timeCodePorts == old(timeCodePorts))
    {
      done := {};
      SettledNobody();
      ClearingStarts(devices, aliases, nextAlias);
      hide Settled;
      hide Clearing;
      hide PortManager.ListsOwn;
      hide IndexesAgree;
      var todo := devices.Keys;
      while todo != {}
        invariant Clearing(devices, old(devices), todo, done)
        invariant preferences != null ==> preferences.Valid()
        invariant Settled(done, old(CurrentPrefs())) && timeCodePorts <= old(timeCodePorts) && (preferences == null ==> timeCodePorts == old(timeCodePorts))
      {
        var id :| id in todo;
        done := ReleaseEntry(id, old(devices), todo, done, old(CurrentPrefs()));
        todo := todo - {id};
      }
      ClearingEnds(devices, old(devices), done);
    }

    lemma SettledNobody()
      ensures Settled({}, CurrentPrefs())
    {
    }

    /** Save and forget every device. The ids keep their aliases, and the next alias is not reset. */
    method UnregisterAllDevices()
      requires Indexed() && (preferences != null ==> preferences.Valid())
      requires forall d :: d in RegisteredDevices() ==> portManager.ListsOwn(d)
      modifies this`devices, this`aliases, this`timeCodePorts, preferences
      ensures Indexed() && (preferences != null ==> preferences.Valid())
      ensures devices == map id | id in old(devices) :: old(devices)[id].(device := null)
      ensures aliases == map[] && nextAlias == old(nextAlias)
      ensures preferences != null ==> forall d :: d in old(RegisteredDevices()) ==> AllSaved(preferences.prefs, PortsOf(d))
      ensures preferences != null ==> OnlyUnder(old(preferences.prefs), preferences.prefs, old(KeysOfAll(RegisteredDevices())))
      ensures if preferences != null && old(TimeCodeExact()) then timeCodePorts == {}
              else timeCodePorts <= old(timeCodePorts) && (preferences == null ==> timeCodePorts == old(timeCodePorts))
    {
      hide AllSaved;
      hide OnlyUnder;
      hide PortManager.ListsOwn;
      ghost var done := ReleaseAll();
      aliases := map[];
    }

    // ---------- looking up ----------

    function GetDevice(alias: nat): Device?
      reads this`aliases
    {
      if alias in aliases then aliases[alias] else null
    }

    function GetDeviceById(id: string): AliasPair
      reads this`devices
    {
      if id in devices && devices[id].device != null then devices[id] else AliasPair(MISSING_DEVICE_ALIAS, null)
    }

    /** The registered devices with their aliases, each once. */
    method Devices() returns (result: seq<AliasPair>)
      requires Indexed()
      ensures NoDup(result)
      ensures forall p :: p in result <==> p.device != null && p.device.uniqueId in devices && devices[p.device.uniqueId] == p
    {
      result := [];
      var todo := devices.Keys;
      while todo != {}
        invariant todo <= devices.Keys && NoDup(result)
        invariant forall p :: p in result <==>
                    p.device != null && p.device.uniqueId in devices && p.device.uniqueId !in todo && devices[p.device.uniqueId] == p
      {
        var id :| id in todo;
        if devices[id].device != null {
          result := result + [devices[id]];
        }
        todo := todo - {id};
      }
    }

    /** The two ways to look up a device agree, and no alias stands for a missing device. */
    lemma LookupsAgree(device: Device, alias: nat)
      requires Indexed()
      ensures GetDevice(alias) == device <==> GetDeviceById(device.uniqueId) == AliasPair(alias, device)
      ensures GetDevice(0) == null
    {
    }

    // ---------- saving and restoring ----------

    /** Ports as they are made: on no universe, with the default priority. */
    static ghost predicate AsMade(list: seq<Port>)
      reads Elements(list)`universe, Elements(list)`priority, Elements(list)`mode
    {
      forall p :: p in list ==> p.universe == null && p.priority == SOURCE_PRIORITY_DEFAULT && p.mode == Inherit
    }

    /** What a saved port wants: the universe it is on, if its id fits in an `int`. */
    lemma SavedMeansWanted(m: Prefs, p: Port)
      requires p.device != null && PatchingSaved(m, p)
      ensures Wanted(m, p.device.uniqueId, SpecOf(p)) == if p.universe != null && p.universe.id < INT32 then Some(p.universe.id) else None
    {
      if p.universe != null {
        UniverseSurvives(p.universe.id);
        assert Dec(p.universe.id) != "";
      }
    }

    /** Two ports of one device on universes with one id are on one universe, as its guards allow. */
    lemma OneUniverse(p: Port, q: Port)
      requires portManager.Valid() && p in portManager.ports && q in portManager.ports && p != q
      requires p.device != null && p.device == q.device
      requires p.universe != null && q.universe != null && p.universe.id == q.universe.id
      ensures if p.direction == q.direction then p.device.allowMultiPortPatching else p.device.allowLooping
    {
      hide UniverseStore.EachSound;
      hide PortManager.Owned;
      assert portManager.store.Stores(p.universe) && portManager.store.Stores(q.universe);
    }

    /** The preferences promise to a port with the same key what was saved of a port. */
    lemma SavedIsPromised(m: Prefs, p: Port)
      requires p.device != null && PatchingSaved(m, p) && PrioritySaved(m, p)
      requires PortManager.Configured(p)
      ensures Promised(m, p.device.uniqueId, SpecOf(p), Kept(SettingOf(p)))
    {
      SavedMeansWanted(m, p);
      PriorityRoundTrip(m, p);
      hide RestoredLevel;
    }

    /** The preferences promise a device like a saved one what that one was set to. */
    lemma SavedDeviceIsPromised(m: Prefs, device: Device)
      requires portManager.ListsOwn(device) && AllSaved(m, PortsOf(device)) && portManager.AllConfigured()
      ensures AllPromised(m, DesignOf(device), AllKept(SettingsOf(PortsOf(device))))
    {
      var list := PortsOf(device);
      hide PatchingSaved;
      hide PrioritySaved;
      hide Promised;
      forall i | 0 <= i < |list|
        ensures Promised(m, device.uniqueId, SpecOf(list[i]), Kept(SettingOf(list[i])))
      {
        assert list[i] in list;
        SavedIsPromised(m, list[i]);
      }
    }

    /** A legal device is set to nothing that its guards forbid. */
    lemma LegalIsHarmless(device: Device)
      requires portManager.Valid() && device in portManager.devices
      ensures Harmless(DesignOf(device), AllKept(SettingsOf(PortsOf(device))))
    {
      DeviceIsOwn(device);
      AllPortsAreOwn(device);
      hide PortManager.Valid;
      hide PortManager.ListsOwn;
      hide SettingsOf;
      hide AllKept;
      hide DesignOf;
      hide NoDup;
      var list := PortsOf(device);
      forall i, j | 0 <= i < |list| && 0 <= j < |list| && i != j && list[i].universe != null && list[j].universe != null
                    && list[i].universe.id == list[j].universe.id
        ensures if list[i].direction == list[j].direction then device.allowMultiPortPatching else device.allowLooping
      {
        assert list[i] in list && list[j] in list;
        OneUniverse(list[i], list[j]);
      }
    }

    /** Register a new device; it is set as the preferences hold exactly if no two of its ports are wanted where they may not be together. */
    method RegisterAsPromised(device: Device, ghost goal: seq<Setting>)
      requires Indexed() && portManager.Valid() && preferences != null && preferences.Valid()
      requires Registrable(device) && device in portManager.devices && AsMade(PortsOf(device))
      modifies this`devices, this`aliases, this`nextAlias, this`timeCodePorts
      modifies Elements(PortsOf(device))`priority, Elements(PortsOf(device))`mode, Elements(PortsOf(device))`universe
      modifies portManager.broker, portManager.store, portManager.store.universes.Values
      ensures Indexed() && portManager.Valid() && StoreGrows()
      ensures Entered(device, old(devices), old(aliases), old(nextAlias))
      ensures RegisteredDevices() == old(RegisteredDevices()) + {device}
      ensures var list := PortsOf(device);
        SettingsOf(list) == RestoreUpTo(preferences.prefs, DesignOf(device), old(SettingsOf(list)), |list|)
      ensures AllPromised(preferences.prefs, DesignOf(device), goal) ==>
                (SettingsOf(PortsOf(device)) == goal <==> Harmless(DesignOf(device), goal))
    {
      hide PortManager.Valid;
      hide IndexesAgree;
      hide IsTimeCodeOf;
      hide AllPromised;
      hide Harmless;
      hide AsMade;
      hide SettingsOf;
      hide DesignOf;
      hide StoreGrows;
      hide Entered;
      hide RestoreUpTo;
      hide Live;
      MadeToPromise(preferences.prefs, DesignOf(device), PortsOf(device), goal);
      var _ := RegisterDevice(device);
    }

    static lemma MadeToPromise(m: Prefs, design: Design, list: seq<Port>, goal: seq<Setting>)
      requires AsMade(list) && |design.ports| == |list|
      ensures AllPromised(m, design, goal) ==>
                (RestoreUpTo(m, design, SettingsOf(list), |list|) == goal <==> Harmless(design, goal))
    {
      assert SettingsOf(list) == AllUnset(|list|) by {
        assert forall i :: 0 <= i < |list| ==> list[i] in list;
      }
      if AllPromised(m, design, goal) {
        RestoredIffHarmless(m, design, goal);
      }
    }

    /** Every registered device lists its own ports. */
    lemma RegisteredListOwn()
      requires RegisteredExist() && portManager.Valid()
      ensures forall d :: d in RegisteredDevices() ==> portManager.ListsOwn(d)
    {
      forall d | d in RegisteredDevices()
        ensures portManager.ListsOwn(d)
      {
        DeviceIsOwn(d);
      }
    }
  }

  /** While the entries are being cleared: those in `todo` are as they were, and `done` are the devices of the others. */
  ghost predicate Clearing(now: map<string, AliasPair>, was: map<string, AliasPair>, todo: set<string>, done: set<Device>) {
    && now.Keys == was.Keys && todo <= now.Keys
    && (forall id :: id in now ==> now[id] == if id in todo then was[id] else was[id].(device := null))
    && (forall id :: id in was && id !in todo && was[id].device != null ==> was[id].device in done)
    && (forall d :: d in done ==> d in Live(was) && d.uniqueId !in todo)
    && (forall id :: id in was && was[id].device != null ==> was[id].device.uniqueId == id)
  }

  lemma ClearingStarts(devices: map<string, AliasPair>, aliases: map<nat, Device>, nextAlias: nat)
    requires IndexesAgree(devices, aliases, nextAlias)
    ensures Clearing(devices, devices, devices.Keys, {})
  {
  }

  lemma ClearingStep(now: map<string, AliasPair>, was: map<string, AliasPair>, todo: set<string>, done: set<Device>, id: string)
    requires Clearing(now, was, todo, done) && id in todo
    ensures id in now && now[id] == was[id] && done <= Live(was)
    ensures now[id].device != null ==> forall d :: d in done ==> d.uniqueId != now[id].device.uniqueId
    ensures var more := if now[id].device == null then done else done + {now[id].device};
            Clearing(now[id := now[id].(device := null)], was, todo - {id}, more)
  {
  }

  lemma ClearingEnds(now: map<string, AliasPair>, was: map<string, AliasPair>, done: set<Device>)
    requires Clearing(now, was, {}, done)
    ensures now == (map id | id in was :: was[id].(device := null)) && done == Live(was)
  {
  }

  lemma IndexOneLess(devices: map<string, AliasPair>, aliases: map<nat, Device>, nextAlias: nat, id: string)
    requires IndexesAgree(devices, aliases, nextAlias) && id in devices
    ensures IndexesAgree(devices[id := devices[id].(device := null)], aliases - {devices[id].alias}, nextAlias)
  {
  }

  lemma LiveOneLess(devices: map<string, AliasPair>, aliases: map<nat, Device>, nextAlias: nat, id: string)
    requires IndexesAgree(devices, aliases, nextAlias) && id in devices && devices[id].device != null
    ensures Live(devices[id := devices[id].(device := null)]) == Live(devices) - {devices[id].device}
  {
    var fewer := devices[id := devices[id].(device := null)];
    forall d | d in Live(devices) && d != devices[id].device
      ensures d in Live(fewer)
    {
      assert fewer[d.uniqueId].device == d;
    }
  }

  lemma LiveOneMore(devices: map<string, AliasPair>, alias: nat, device: Device)
    requires device.uniqueId in devices ==> devices[device.uniqueId].device == null
    ensures Live(devices[device.uniqueId := AliasPair(alias, device)]) == Live(devices) + {device}
  {
    var more := devices[device.uniqueId := AliasPair(alias, device)];
    forall d | d in Live(devices)
      ensures d in Live(more)
    {
      var id :| id in devices && devices[id].device == d;
      assert more[id].device == d;
    }
    assert more[device.uniqueId].device == device;
  }
}
