/** How the ports of a device are set, what the preferences hold of that, and what restoring makes of it. */
module PortSettings {
  import opened Sequences
  import opened Dmx
  import opened Universes
  import opened PreferenceStore
  import opened PortKeys

  /** How a port is set. */
  datatype Setting = Setting(universe: Option<nat>, priority: byte, mode: PriorityMode)

  /** What is fixed of a port when it is made. */
  datatype PortSpec = PortSpec(direction: Direction, portId: nat, capability: Capability, supportsTimeCode: bool)

  /** What is fixed of a device when it is made; the inputs come before the outputs. */
  datatype Design = Design(uniqueId: string, allowLooping: bool, allowMultiPortPatching: bool, ports: seq<PortSpec>)

  // ---------- what the preferences say of a port ----------

  function First(m: Prefs, key: string): string {
    if key in m && m[key] != [] then m[key][0] else ""
  }

  /** What is saved of a port under one suffix. */
  function Saved(m: Prefs, id: string, spec: PortSpec, suffix: Suffix): string {
    First(m, Key(id, spec.direction, spec.portId, suffix))
  }

  /** The universe the preferences want a port to be on. */
  function Wanted(m: Prefs, id: string, spec: PortSpec): Option<nat> {
    SavedUniverse(Saved(m, id, spec, NoSuffix))
  }

  /** What restoring makes of a port's priority and mode. */
  function Restored(capability: Capability, priority: byte, mode: PriorityMode, value: string, modeText: string): (byte, PriorityMode) {
    if capability.CapabilityNone? then (priority, mode)
    else
      var (p, o) := match SavedByte(value)
        case None => (priority, mode)
        case Some(n) => (if n > SOURCE_PRIORITY_MAX as nat then SOURCE_PRIORITY_MAX else n as byte,
                         if capability.CapabilityFull? then PriorityMode.Override else mode);
      (p, if SavedByte(modeText) == Some(0) then PriorityMode.Inherit else o)
  }

  /**
   * A port that can have no priority stays as it is. On another a saved number up to 255 is its priority, up to 200, and
   * nothing else is; then it overrides, if it has the full capability, unless the saved mode is 0, which lets it inherit.
   */
  lemma RestoredFrom(capability: Capability, priority: byte, mode: PriorityMode, value: string, modeText: string)
    ensures var (p, o) := Restored(capability, priority, mode, value, modeText);
            var readable := Number(value).Some? && 0 <= Number(value).value <= 255;
      && (capability == CapabilityNone ==> p == priority && o == mode)
      && (capability != CapabilityNone && readable ==> p as int == if Number(value).value <= 200 then Number(value).value else 200)
      && (capability != CapabilityNone && !readable ==> p == priority)
      && (capability != CapabilityNone && Number(modeText) == Some(0) ==> o == PriorityMode.Inherit)
      && (capability == CapabilityFull && Number(modeText) != Some(0) ==> o == if readable then PriorityMode.Override else mode)
      && (capability == CapabilityStatic && Number(modeText) != Some(0) ==> o == mode)
  {
  }

  function RestoredLevel(m: Prefs, id: string, spec: PortSpec, priority: byte, mode: PriorityMode): (byte, PriorityMode) {
    Restored(spec.capability, priority, mode, Saved(m, id, spec, PriorityValue), Saved(m, id, spec, PriorityMode))
  }

  // ---------- restoring a device ----------

  /** Some other port is where the guards of the device do not let port `k` go. */
  ghost predicate Barred(design: Design, s: seq<Setting>, k: nat, id: nat)
    requires |s| == |design.ports| && k < |s|
  {
    && s[k].universe != Some(id)
    && exists j :: 0 <= j < |s| && s[j].universe == Some(id) && !MayShare(design, j, k)
  }

  /** The guards let two ports of the device be on one universe. */
  predicate MayShare(design: Design, j: nat, k: nat)
    requires j < |design.ports| && k < |design.ports|
  {
    if design.ports[j].direction == design.ports[k].direction then design.allowMultiPortPatching else design.allowLooping
  }

  /** A port once restored: its priority and mode, and its universe unless the port may not go there. */
  function Turned(m: Prefs, id: string, spec: PortSpec, s: Setting, refused: bool): Setting {
    var wanted := Wanted(m, id, spec);
    var (priority, mode) := RestoredLevel(m, id, spec, s.priority, s.mode);
    Setting(if wanted.Some? && !refused then wanted else s.universe, priority, mode)
  }

  /** The guards do not let port `k` go where the preferences want it. */
  ghost predicate BarredNow(m: Prefs, design: Design, s: seq<Setting>, k: nat)
    requires |s| == |design.ports| && k < |s|
  {
    var wanted := Wanted(m, design.uniqueId, design.ports[k]);
    wanted.Some? && Barred(design, s, k, wanted.value)
  }

  /** Restore the port at `k`. */
  ghost function RestoreTurn(m: Prefs, design: Design, s: seq<Setting>, k: nat): (r: seq<Setting>)
    requires |s| == |design.ports| && k < |s|
    ensures |r| == |s| && forall i :: 0 <= i < |s| && i != k ==> r[i] == s[i]
  {
    s[k := Turned(m, design.uniqueId, design.ports[k], s[k], BarredNow(m, design, s, k))]
  }

  /** The settings after the first `n` ports have been restored, in order. */
  ghost function RestoreUpTo(m: Prefs, design: Design, start: seq<Setting>, n: nat): (r: seq<Setting>)
    requires |start| == |design.ports| && n <= |start|
    ensures |r| == |start| && forall i :: n <= i < |start| ==> r[i] == start[i]
  {
    if n == 0 then start else RestoreTurn(m, design, RestoreUpTo(m, design, start, n - 1), n - 1)
  }

  /** A port is not touched again after its turn. */
  lemma {:induction false} TurnIsFinal(m: Prefs, design: Design, start: seq<Setting>, i: nat, n: nat)
    requires |start| == |design.ports| && i < n <= |start|
    ensures RestoreUpTo(m, design, start, n)[i] == RestoreUpTo(m, design, start, i + 1)[i]
  {
    hide RestoreTurn;
    if i + 1 < n {
      TurnIsFinal(m, design, start, i, n - 1);
    }
  }

  lemma TurnedMayHave(m: Prefs, id: string, spec: PortSpec, s: Setting, refused: bool)
    requires MayHave(spec.capability, s.priority, s.mode)
    ensures var r := Turned(m, id, spec, s, refused); MayHave(spec.capability, r.priority, r.mode)
  {
    hide SavedUniverse;
    hide SavedByte;
  }

  /** Whatever the preferences say, restoring gives no port a priority or mode that it may not have. */
  lemma {:induction false} RestoredMayHave(m: Prefs, design: Design, start: seq<Setting>, n: nat)
    requires |start| == |design.ports| && n <= |start|
    requires forall i :: 0 <= i < |start| ==> MayHave(design.ports[i].capability, start[i].priority, start[i].mode)
    ensures var r := RestoreUpTo(m, design, start, n);
      forall i :: 0 <= i < |r| ==> MayHave(design.ports[i].capability, r[i].priority, r[i].mode)
  {
    if n > 0 {
      RestoredMayHave(m, design, start, n - 1);
      var s := RestoreUpTo(m, design, start, n - 1);
      TurnedMayHave(m, design.uniqueId, design.ports[n - 1], s[n - 1], BarredNow(m, design, s, n - 1));
      hide Turned;
      hide MayHave;
    }
  }

  // ---------- restoring what was saved ----------

  /** A port as it is made. */
  const UNSET := Setting(None, SOURCE_PRIORITY_DEFAULT, PriorityMode.Inherit)

  function AllUnset(n: nat): (r: seq<Setting>)
    ensures |r| == n && forall i :: 0 <= i < n ==> r[i] == UNSET
  {
    seq(n, i => UNSET)
  }

  /** What is kept of a setting that is saved and restored: all of it, unless the universe id does not fit in an `int`. */
  function Kept(s: Setting): Setting {
    if s.universe.Some? && s.universe.value >= INT32 then s.(universe := None) else s
  }

  function AllKept(s: seq<Setting>): (r: seq<Setting>)
    ensures |r| == |s| && forall i :: 0 <= i < |s| ==> r[i] == Kept(s[i])
  {
    seq(|s|, i requires 0 <= i < |s| => Kept(s[i]))
  }

  /** The preferences hold `s` for a new port. */
  predicate Promised(m: Prefs, id: string, spec: PortSpec, s: Setting) {
    && Wanted(m, id, spec) == s.universe
    && RestoredLevel(m, id, spec, SOURCE_PRIORITY_DEFAULT, PriorityMode.Inherit) == (s.priority, s.mode)
  }

  /** The preferences hold `goal` for the ports of a new device. */
  predicate AllPromised(m: Prefs, design: Design, goal: seq<Setting>) {
    |goal| == |design.ports| && forall i :: 0 <= i < |goal| ==> Promised(m, design.uniqueId, design.ports[i], goal[i])
  }

  /** No two ports are to be on one universe where the guards of the device forbid it. */
  predicate Harmless(design: Design, goal: seq<Setting>) {
    && |goal| == |design.ports|
    && forall i, j :: 0 <= i < j < |goal| && goal[i].universe.Some? && goal[i].universe == goal[j].universe ==> MayShare(design, i, j)
  }

  /** The ports restored so far have what is promised. */
  lemma {:induction false} HarmlessIsRestored(m: Prefs, design: Design, goal: seq<Setting>, n: nat)
    requires AllPromised(m, design, goal) && Harmless(design, goal) && n <= |goal|
    ensures forall i :: 0 <= i < n ==> RestoreUpTo(m, design, AllUnset(|goal|), n)[i] == goal[i]
  {
    if n > 0 {
      var k := n - 1;
      var s := RestoreUpTo(m, design, AllUnset(|goal|), k);
      HarmlessIsRestored(m, design, goal, k);
      assert Promised(m, design.uniqueId, design.ports[k], goal[k]) && s[k] == UNSET;
      hide Wanted;
      hide RestoredLevel;
      if goal[k].universe.Some? {
        assert !Barred(design, s, k, goal[k].universe.value);
      }
    }
  }

  /** Of two ports that are wanted where they may not be together, the later one does not get there. */
  lemma HarmIsNotRestored(m: Prefs, design: Design, goal: seq<Setting>, i: nat, j: nat)
    requires AllPromised(m, design, goal) && i < j < |goal|
    requires goal[i].universe.Some? && goal[i].universe == goal[j].universe && !MayShare(design, i, j)
    ensures RestoreUpTo(m, design, AllUnset(|goal|), |goal|) != goal
  {
    var start, n := AllUnset(|goal|), |goal|;
    if RestoreUpTo(m, design, start, n) == goal {
      var s := RestoreUpTo(m, design, start, j);
      TurnIsFinal(m, design, start, i, n);
      TurnIsFinal(m, design, start, i, j);
      TurnIsFinal(m, design, start, j, n);
      assert Promised(m, design.uniqueId, design.ports[j], goal[j]);
      assert s[i].universe == goal[i].universe && s[j] == UNSET;
      assert Barred(design, s, j, goal[j].universe.value);
      assert false;
    }
  }

  /** A new device is restored to what the preferences hold exactly if that has no two ports where they may not be together. */
  lemma RestoredIffHarmless(m: Prefs, design: Design, goal: seq<Setting>)
    requires AllPromised(m, design, goal)
    ensures RestoreUpTo(m, design, AllUnset(|goal|), |goal|) == goal <==> Harmless(design, goal)
  {
    if Harmless(design, goal) {
      HarmlessIsRestored(m, design, goal, |goal|);
    } else {
      var i, j :| 0 <= i < j < |goal| && goal[i].universe.Some? && goal[i].universe == goal[j].universe && !MayShare(design, i, j);
      HarmIsNotRestored(m, design, goal, i, j);
    }
  }

  // ---------- what survives in a file ----------

  /** A device id whose keys the file of the preferences can express. */
  predicate CleanId(id: string) {
    '=' !in id && '\n' !in id && (id != "" ==> !Space(id[0]) && id[0] != '#')
  }

  /** What a key has after the id of the device. */
  lemma TailIsPlain(direction: Direction, port: nat, suffix: Suffix)
    ensures var tail := DirectionText(direction) + Dec(port) + SuffixText(suffix);
      tail[0] == '-' && !Space(tail[|tail| - 1]) && '=' !in tail && '\n' !in tail
  {
    var digits := Dec(port);
    assert forall c :: c in digits ==> IsDigit(c);
    assert IsDigit(digits[|digits| - 1]);
  }

  /** A setting of a port can be expressed exactly if the id of the device and the value can. */
  lemma KeyIsClean(id: string, direction: Direction, port: nat, suffix: Suffix, value: string)
    ensures Clean(Entry(Key(id, direction, port, suffix), value)) <==> CleanId(id) && Clean(Entry("", value))
  {
    hide Dec;
    hide SuffixText;
    hide DirectionText;
    hide Clean;
    TailIsPlain(direction, port, suffix);
    var tail := DirectionText(direction) + Dec(port) + SuffixText(suffix);
    assert Key(id, direction, port, suffix) == id + tail;
    CleanWithTail(id, tail, value);
  }

  lemma CleanWithTail(id: string, tail: string, value: string)
    requires tail != "" && tail[0] == '-' && !Space(tail[|tail| - 1]) && '=' !in tail && '\n' !in tail
    ensures Clean(Entry(id + tail, value)) <==> CleanId(id) && Clean(Entry("", value))
  {
    var key := id + tail;
    assert key[|key| - 1] == tail[|tail| - 1] && key[0] == if id == "" then '-' else id[0];
  }

  /** A key of some port of the device. */
  ghost predicate IsKeyOf(key: string, id: string) {
    exists direction, port: nat, suffix :: key == Key(id, direction, port, suffix)
  }

  /** Every entry can be expressed, but perhaps for the keys of one device. */
  ghost predicate CleanBut(m: Prefs, id: string) {
    forall k, v :: k in m && v in m[k] ==> Clean(Entry("", v)) && (Clean(Entry(k, "")) || IsKeyOf(k, id))
  }

  lemma CleanIsCleanBut(m: Prefs, id: string)
    requires AllClean(m)
    ensures CleanBut(m, id)
  {
    forall k, v | k in m && v in m[k]
      ensures Clean(Entry("", v)) && Clean(Entry(k, ""))
    {
      assert Clean(Entry(k, v));
    }
  }

  lemma CleanWithId(m: Prefs, id: string)
    requires CleanBut(m, id) && CleanId(id)
    ensures AllClean(m)
  {
    forall k, v | k in m && v in m[k]
      ensures Clean(Entry(k, v))
    {
      assert Clean(Entry("", v)) && (Clean(Entry(k, "")) || IsKeyOf(k, id));
      if IsKeyOf(k, id) {
        var direction, port: nat, suffix :| k == Key(id, direction, port, suffix);
        KeyIsClean(id, direction, port, suffix, v);
      }
    }
  }

  /** What the preferences hold for a new device, whatever they say. */
  function Held(m: Prefs, design: Design): (goal: seq<Setting>)
    ensures AllPromised(m, design, goal)
    ensures forall other :: AllPromised(m, design, other) ==> other == goal
  {
    seq(|design.ports|, i requires 0 <= i < |design.ports| =>
      var level := RestoredLevel(m, design.uniqueId, design.ports[i], SOURCE_PRIORITY_DEFAULT, PriorityMode.Inherit);
      Setting(Wanted(m, design.uniqueId, design.ports[i]), level.0, level.1))
  }

  /** Whatever a file holds can be expressed. */
  lemma LoadedIsClean(text: string)
    ensures AllClean(FromEntries(Parse(text)))
    ensures forall k :: k in FromEntries(Parse(text)) ==> Clean(Entry(k, ""))
  {
    var m := FromEntries(Parse(text));
    EntriesOf(Parse(text));
    ParsedAreClean(Lines(text));
    forall k, v | k in m && v in m[k]
      ensures Clean(Entry(k, v))
    {
      assert Entry(k, v) in Parse(text);
    }
    forall k | k in m
      ensures Clean(Entry(k, ""))
    {
      assert m[k][0] in m[k];
      assert Clean(Entry(k, m[k][0]));
    }
  }

  lemma NumberIsClean(n: nat)
    ensures Clean(Entry("", Dec(n)))
  {
    var digits := Dec(n);
    assert forall c :: c in digits ==> IsDigit(c);
    assert IsDigit(digits[0]) && IsDigit(digits[|digits| - 1]);
  }

  /** A file holds nothing for a device with an id that it cannot express. */
  lemma UncleanIsLost(text: string, design: Design)
    requires !CleanId(design.uniqueId)
    ensures Held(FromEntries(Parse(text)), design) == AllUnset(|design.ports|)
  {
    hide Clean;
    hide CleanId;
    hide Key;
    LoadedIsClean(text);
    forall spec: PortSpec, suffix
      ensures Saved(FromEntries(Parse(text)), design.uniqueId, spec, suffix) == ""
    {
      KeyIsClean(design.uniqueId, spec.direction, spec.portId, suffix, "");
    }
  }

  /**
   * What is held for a device survives saving and loading, if all else can be expressed, exactly if its id can, or there
   * is nothing to lose.
   */
  lemma SurvivesIffCleanId(entries: seq<Entry>, design: Design)
    requires CleanBut(FromEntries(entries), design.uniqueId)
    ensures Held(FromEntries(Parse(Print(entries))), design) == Held(FromEntries(entries), design)
            <==> CleanId(design.uniqueId) || Held(FromEntries(entries), design) == AllUnset(|design.ports|)
  {
    if CleanId(design.uniqueId) {
      CleanWithId(FromEntries(entries), design.uniqueId);
      SaveThenLoad(entries);
    } else {
      UncleanIsLost(Print(entries), design);
    }
  }
}
