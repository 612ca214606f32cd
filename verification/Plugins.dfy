/** Loading plugins, and keeping those that conflict from running together. */
module Plugins {
  type PluginId = nat

  class Plugin {
    const id: PluginId
    const conflicts: set<PluginId>
    /** Whether its preferences load, and whether they enable it. */
    const preferencesLoad: bool
    const preferred: bool
    /** Whether its start hook succeeds. */
    const starts: bool
    var running: bool

    constructor (id: PluginId, conflicts: set<PluginId>, preferencesLoad: bool, preferred: bool, starts: bool)
      ensures this.id == id && this.conflicts == conflicts && this.preferencesLoad == preferencesLoad
      ensures this.preferred == preferred && this.starts == starts && !running
    {
      this.id, this.conflicts, this.preferencesLoad, this.preferred, this.starts := id, conflicts, preferencesLoad, preferred, starts;
      running := false;
    }

    predicate Enabled() {
      preferencesLoad && preferred
    }

    method Start() returns (ok: bool)
      modifies this`running
      ensures ok == (!old(running) && preferencesLoad && starts)
      ensures running == (old(running) || (preferencesLoad && starts))
    {
      if running || !preferencesLoad || !starts {
        return false;
      }
      running := true;
      return true;
    }

    method Stop()
      modifies this`running
      ensures !running
    {
      running := false;
    }
  }

  // ---------- what loading is to achieve ----------

  /** The plugins of all loaders, in order. */
  function Concat(loaders: seq<seq<Plugin>>): seq<Plugin> {
    if loaders == [] then [] else Concat(loaders[..|loaders| - 1]) + loaders[|loaders| - 1]
  }

  /** The first plugin offered under an id is loaded, unless the id was loaded before. */
  function Loaded(before: map<PluginId, Plugin>, offered: seq<Plugin>): map<PluginId, Plugin> {
    if offered == [] then before
    else
      var m := Loaded(before, offered[..|offered| - 1]);
      var last := offered[|offered| - 1];
      if last.id in m then m else m[last.id := last]
  }

  /** The ids that are new and enabled. */
  function NewlyEnabled(before: map<PluginId, Plugin>, offered: seq<Plugin>): set<PluginId> {
    var m := Loaded(before, offered);
    set id | id in m && id !in before && m[id].Enabled()
  }

  /** Of the newly enabled plugins, those that conflict with none of them. */
  function NewlyActive(before: map<PluginId, Plugin>, offered: seq<Plugin>): map<PluginId, Plugin> {
    var m := Loaded(before, offered);
    var enabled := NewlyEnabled(before, offered);
    map id | id in m && id in enabled && m[id].conflicts !! enabled :: m[id]
  }

  /** `p` is the plugin filed under its id. */
  predicate Holds(m: map<PluginId, Plugin>, p: Plugin) {
    p.id in m && m[p.id] == p
  }

  lemma {:induction false} ConcatIsAll(loaders: seq<seq<Plugin>>)
    ensures forall p :: p in Concat(loaders) <==> exists l :: l in loaders && p in l
  {
    if loaders != [] {
      ConcatIsAll(loaders[..|loaders| - 1]);
      assert loaders == loaders[..|loaders| - 1] + [loaders[|loaders| - 1]];
    }
  }

  /** Loading keeps what was loaded, and files every plugin under its id. */
  lemma {:induction false} LoadedExtends(before: map<PluginId, Plugin>, offered: seq<Plugin>)
    ensures forall id :: id in before ==> id in Loaded(before, offered) && Loaded(before, offered)[id] == before[id]
    ensures forall p :: p in offered ==> p.id in Loaded(before, offered)
    ensures forall id :: id in Loaded(before, offered) && id !in before ==>
              Loaded(before, offered)[id] in offered && Loaded(before, offered)[id].id == id
  {
    if offered != [] {
      LoadedExtends(before, offered[..|offered| - 1]);
      assert offered == offered[..|offered| - 1] + [offered[|offered| - 1]];
    }
  }

  ghost predicate UniqueIds(plugins: seq<Plugin>) {
    forall p, q :: p in plugins && q in plugins && p.id == q.id ==> p == q
  }

  /** With unique ids, what is loaded and what becomes active depends only on which plugins there are, not on their order. */
  lemma OrderIsIrrelevant(a: seq<Plugin>, b: seq<Plugin>)
    requires UniqueIds(a) && forall p :: p in a <==> p in b
    ensures Loaded(map[], a) == Loaded(map[], b) && NewlyActive(map[], a) == NewlyActive(map[], b)
  {
    LoadedExtends(map[], a);
    LoadedExtends(map[], b);
    forall id
      ensures id in Loaded(map[], a) <==> id in Loaded(map[], b)
      ensures id in Loaded(map[], a) && id in Loaded(map[], b) ==> Loaded(map[], a)[id] == Loaded(map[], b)[id]
    {
      if id in Loaded(map[], a) {
        assert Loaded(map[], a)[id] in b;
      }
      if id in Loaded(map[], b) {
        assert Loaded(map[], b)[id] in a;
      }
    }
    assert Loaded(map[], a) == Loaded(map[], b);
  }

  /** What one more plugin on offer adds. */
  lemma OneMore(before: map<PluginId, Plugin>, offered: seq<Plugin>, p: Plugin)
    ensures var m := Loaded(before, offered);
      && Loaded(before, offered + [p]) == (if p.id in m then m else m[p.id := p])
      && NewlyEnabled(before, offered + [p]) ==
         if p.id !in m && p.Enabled() then NewlyEnabled(before, offered) + {p.id} else NewlyEnabled(before, offered)
  {
    assert (offered + [p])[..|offered|] == offered;
    LoadedExtends(before, offered);
  }

  /** What is offered first under an id is what is loaded. */
  lemma {:induction false} FirstWins(p: Plugin, offered: seq<Plugin>)
    ensures p.id in Loaded(map[], [p] + offered) && Loaded(map[], [p] + offered)[p.id] == p
    decreases |offered|
  {
    if offered == [] {
      assert [p] + offered == [p] && [p][..0] == [];
    } else {
      var last := offered[|offered| - 1];
      assert [p] + offered == [p] + offered[..|offered| - 1] + [last];
      FirstWins(p, offered[..|offered| - 1]);
      OneMore(map[], [p] + offered[..|offered| - 1], last);
    }
  }

  /** Unique ids are just what that takes: two plugins under one id are told apart by their order alone. */
  lemma OrderIsIrrelevantExactly(a: seq<Plugin>)
    ensures (forall b: seq<Plugin> :: (forall p :: p in a <==> p in b) ==> Loaded(map[], b) == Loaded(map[], a)) <==> UniqueIds(a)
  {
    if p, q :| p in a && q in a && p.id == q.id && p != q {
      FirstWins(p, a);
      FirstWins(q, a);
      assert forall x :: x in a <==> x in [p] + a;
      assert forall x :: x in a <==> x in [q] + a;
    } else {
      forall b: seq<Plugin> | forall p :: p in a <==> p in b
        ensures Loaded(map[], b) == Loaded(map[], a)
      {
        OrderIsIrrelevant(a, b);
      }
    }
  }

  /** Offering again only what is loaded already changes nothing. */
  lemma {:induction false} NothingNew(before: map<PluginId, Plugin>, offered: seq<Plugin>)
    requires forall p :: p in offered ==> p.id in before
    ensures Loaded(before, offered) == before && NewlyActive(before, offered) == map[]
  {
    if offered != [] {
      NothingNew(before, offered[..|offered| - 1]);
    }
  }

  /** No plugin has one of these plugins, itself included, on its list of conflicts. */
  ghost predicate Peace(plugins: map<PluginId, Plugin>) {
    forall i, j :: i in plugins && j in plugins ==> j !in plugins[i].conflicts
  }

  /** What a load makes active is at peace with itself. */
  lemma NewlyActiveInPeace(before: map<PluginId, Plugin>, offered: seq<Plugin>)
    ensures Peace(NewlyActive(before, offered))
  {
  }

  /** `p` is the first on offer under an id that was not loaded before. */
  ghost predicate IsNew(loaded: map<PluginId, Plugin>, offered: seq<Plugin>, p: Plugin) {
    p.id !in loaded && exists k :: 0 <= k < |offered| && offered[k] == p && forall j :: 0 <= j < k ==> offered[j].id != p.id
  }

  /** `p` is new and enabled, and lists no plugin that is. */
  ghost predicate IsToStart(loaded: map<PluginId, Plugin>, offered: seq<Plugin>, p: Plugin) {
    && IsNew(loaded, offered, p) && p.preferencesLoad && p.preferred
    && forall q :: q in offered && IsNew(loaded, offered, q) && q.preferencesLoad && q.preferred ==> q.id !in p.conflicts
  }

  /** One more plugin on offer is new if nothing was filed under its id, and makes no other plugin new or old. */
  lemma NewOneMore(loaded: map<PluginId, Plugin>, offered: seq<Plugin>, last: Plugin, p: Plugin)
    ensures IsNew(loaded, offered + [last], p) <==>
              IsNew(loaded, offered, p) || (p == last && p.id !in loaded && forall q :: q in offered ==> q.id != p.id)
  {
    var longer := offered + [last];
    if IsNew(loaded, offered, p) {
      var k :| 0 <= k < |offered| && offered[k] == p && forall j :: 0 <= j < k ==> offered[j].id != p.id;
      assert longer[k] == p && forall j :: 0 <= j < k ==> longer[j].id != p.id;
    }
    if p == last && p.id !in loaded && forall q :: q in offered ==> q.id != p.id {
      assert longer[|offered|] == p && forall j :: 0 <= j < |offered| ==> longer[j] in offered;
    }
    if IsNew(loaded, longer, p) {
      var k :| 0 <= k < |longer| && longer[k] == p && forall j :: 0 <= j < k ==> longer[j].id != p.id;
      if k < |offered| {
        assert offered[k] == p && forall j :: 0 <= j < k ==> offered[j] == longer[j];
      } else {
        assert forall j :: 0 <= j < |offered| ==> offered[j] == longer[j];
      }
    }
  }

  /** What a load files under new ids is what is new. */
  lemma {:induction false} LoadedIsNew(loaded: map<PluginId, Plugin>, offered: seq<Plugin>, p: Plugin)
    ensures IsNew(loaded, offered, p) <==> p.id !in loaded && Holds(Loaded(loaded, offered), p)
  {
    if offered != [] {
      var init, last := offered[..|offered| - 1], offered[|offered| - 1];
      assert offered == init + [last];
      LoadedIsNew(loaded, init, p);
      NewOneMore(loaded, init, last, p);
      LoadedExtends(loaded, init);
    }
  }

  /** A load makes active just those on offer that are to start. */
  lemma NewlyActiveIsToStart(loaded: map<PluginId, Plugin>, offered: seq<Plugin>)
    ensures forall p :: p in offered ==> (Holds(NewlyActive(loaded, offered), p) <==> IsToStart(loaded, offered, p))
    ensures forall i :: i in NewlyActive(loaded, offered) ==>
              var p := NewlyActive(loaded, offered)[i]; p in offered && p.id == i && IsToStart(loaded, offered, p)
  {
    var m, enabled := Loaded(loaded, offered), NewlyEnabled(loaded, offered);
    LoadedExtends(loaded, offered);
    forall q
      ensures IsNew(loaded, offered, q) <==> q.id !in loaded && Holds(m, q)
    {
      LoadedIsNew(loaded, offered, q);
    }
    hide IsNew;
    hide Loaded;
    forall p | p in offered
      ensures Holds(NewlyActive(loaded, offered), p) <==> IsToStart(loaded, offered, p)
    {
      assert forall i :: i in enabled ==> m[i] in offered && IsNew(loaded, offered, m[i]);
    }
  }

  /**
   * A load compares only what is new. Peace is kept exactly if nothing on offer that is to start conflicts, either way
   * round, with something that is active already.
   */
  lemma LoadKeepsPeace(active: map<PluginId, Plugin>, loaded: map<PluginId, Plugin>, offered: seq<Plugin>)
    requires active.Keys <= loaded.Keys
    ensures Peace(active + NewlyActive(loaded, offered)) <==>
              Peace(active) && forall i, p :: i in active && p in offered && IsToStart(loaded, offered, p) ==>
                                 p.id !in active[i].conflicts && i !in p.conflicts
  {
    var newly := NewlyActive(loaded, offered);
    NewlyActiveInPeace(loaded, offered);
    NewlyActiveIsToStart(loaded, offered);
    hide NewlyActive;
    hide IsToStart;
    var all := active + newly;
    assert forall i :: i in active ==> i in all && all[i] == active[i] by { StaysActive(active, loaded, offered); }
    assert forall j :: j in newly ==> j in all && all[j] == newly[j];
    assert forall p :: p in offered && IsToStart(loaded, offered, p) ==> p.id in newly && newly[p.id] == p;
  }

  /** No plugin that its preferences disable is made active. */
  lemma NewlyActiveIsWilling(loaded: map<PluginId, Plugin>, offered: seq<Plugin>)
    ensures forall i :: i in NewlyActive(loaded, offered) ==>
              var p := NewlyActive(loaded, offered)[i]; p in offered && p.id == i && p.preferencesLoad && p.preferred
  {
    LoadedExtends(loaded, offered);
  }

  lemma StaysActive(active: map<PluginId, Plugin>, loaded: map<PluginId, Plugin>, offered: seq<Plugin>)
    requires active.Keys <= loaded.Keys
    ensures forall i :: i in active ==> i !in NewlyActive(loaded, offered)
  {
  }

  // ---------- the manager ----------

  class PluginManager {
    /** What the loaders have; this is up to them. */
    var loaders: seq<seq<Plugin>>
    var loaded: map<PluginId, Plugin>
    var active: map<PluginId, Plugin>

    constructor (loaders: seq<seq<Plugin>>)
      ensures this.loaders == loaders && loaded == map[] && active == map[]
    {
      this.loaders, loaded, active := loaders, map[], map[];
    }

    /** Everything the loaders have. */
    ghost function Offered(): set<Plugin>
      reads this`loaders
    {
      set l, p | l in loaders && p in l :: p
    }

    /** Every plugin is filed under its id, and what is active is loaded. */
    ghost predicate Filed()
      reads this
    {
      && (forall id :: id in loaded ==> loaded[id].id == id)
      && (forall id :: id in active ==> id in loaded && active[id] == loaded[id])
    }

    ghost predicate Peaceful()
      reads this
    {
      Peace(active)
    }

    /** The loaders have something else from now on. */
    method Offer(loaders: seq<seq<Plugin>>)
      modifies this`loaders
      ensures this.loaders == loaders
    {
      this.loaders := loaders;
    }

    /**
     * Load whatever the loaders have, and start what is new, enabled and free of conflicts with the rest of what is new
     * and enabled. A plugin whose start hook fails becomes active without running.
     */
    method LoadAll()
      requires Filed()
      modifies this`loaded, this`active, Offered()`running
      ensures Filed()
      ensures loaded == Loaded(old(loaded), Concat(loaders))
      ensures active == old(active) + NewlyActive(old(loaded), Concat(loaders))
      ensures forall p :: p in Offered() ==>
                p.running == (old(p.running) || (Holds(NewlyActive(old(loaded), Concat(loaders)), p) && p.starts))
      ensures forall p :: p in Offered() ==> (Holds(active, p) <==> old(Holds(active, p)) || IsToStart(old(loaded), Concat(loaders), p))
      ensures forall p :: p in Offered() ==> (Holds(loaded, p) <==> old(Holds(loaded, p)) || IsNew(old(loaded), Concat(loaders), p))
      ensures forall i :: i in active && i !in old(active) ==>
                active[i] in Offered() && active[i].id == i && active[i].preferencesLoad && active[i].preferred
    {
      hide Loaded;
      hide Concat;
      hide NewlyActive;
      hide Filed;
      hide IsToStart;
      hide IsNew;
      LoadIsAsOffered();
      TwoPasses();
    }

    method TwoPasses()
      requires Filed()
      modifies this`loaded, this`active, Offered()`running
      ensures Filed()
      ensures loaded == Loaded(old(loaded), Concat(loaders))
      ensures active == old(active) + NewlyActive(old(loaded), Concat(loaders))
      ensures forall p :: p in Offered() ==>
                p.running == (old(p.running) || (Holds(NewlyActive(old(loaded), Concat(loaders)), p) && p.starts))
    {
      hide Loaded;
      hide Concat;
      ghost var offered := Concat(loaders);
      LoadedExtends(loaded, offered);
      var enabled, enabledIds := FirstPass();
      SecondPass(enabled, enabledIds);
    }

    /** What a load files and makes active, said of the plugins on offer. */
    lemma LoadIsAsOffered()
      requires Filed()
      ensures var offered, m := Concat(loaders), active + NewlyActive(loaded, Concat(loaders));
        && (forall p :: p in Offered() ==> (Holds(m, p) <==> Holds(active, p) || IsToStart(loaded, offered, p)))
        && (forall p :: p in Offered() ==> (Holds(Loaded(loaded, offered), p) <==> Holds(loaded, p) || IsNew(loaded, offered, p)))
        && (forall i :: i in m && i !in active ==> m[i] in Offered() && m[i].id == i && m[i].preferencesLoad && m[i].preferred)
    {
      hide NewlyActive;
      hide IsNew;
      hide IsToStart;
      hide Loaded;
      hide Concat;
      var offered := Concat(loaders);
      ConcatIsAll(loaders);
      LoadedExtends(loaded, offered);
      NewlyActiveIsToStart(loaded, offered);
      NewlyActiveIsWilling(loaded, offered);
      forall p
        ensures IsNew(loaded, offered, p) <==> p.id !in loaded && Holds(Loaded(loaded, offered), p)
      {
        LoadedIsNew(loaded, offered, p);
      }
      StaysActive(active, loaded, offered);
      var newly := NewlyActive(loaded, offered);
      assert forall i :: i in active + newly && i !in active ==> i in newly && (active + newly)[i] == newly[i];
      assert forall p :: p in Offered() ==> p in offered;
    }

    /** Start the enabled plugins that conflict with no enabled plugin. */
    method SecondPass(enabled: seq<Plugin>, enabledIds: set<PluginId>)
      requires enabledIds <= loaded.Keys && forall p :: p in enabled <==> p.id in enabledIds && loaded[p.id] == p
      requires forall id :: id in enabledIds ==> loaded[id].id == id && loaded[id].preferencesLoad
      modifies this`active, (set p | p in enabled)`running
      ensures active == old(active) + map id | id in enabledIds && loaded[id].conflicts !! enabledIds :: loaded[id]
      ensures forall p :: p in enabled ==> p.running == (old(p.running) || (p.conflicts !! enabledIds && p.starts))
    {
      for k := 0 to |enabled|
        invariant forall id :: id in active <==> id in old(active) || exists p :: p in enabled[..k] && p.id == id && p.conflicts !! enabledIds
        invariant forall p :: p in enabled[..k] && p.conflicts !! enabledIds ==> active[p.id] == p
        invariant forall id :: id in old(active) && (id !in enabledIds || !(loaded[id].conflicts !! enabledIds)) ==> active[id] == old(active)[id]
        invariant forall p :: p in enabled ==>
                    p.running == (old(p.running) || (p in enabled[..k] && p.conflicts !! enabledIds && p.starts))
      {
        var plugin := enabled[k];
        assert enabled[..k + 1] == enabled[..k] + [plugin];
        var conflict := ConflictsWithAny(plugin, enabledIds);
        if !conflict {
          var _ := plugin.Start();
          active := active[plugin.id := plugin];
        }
      }
      assert enabled[..|enabled|] == enabled;
      assert forall id :: id in enabledIds ==> loaded[id] in enabled;
    }

    /** Load the plugins that are new, and list those of them that are enabled. */
    method FirstPass() returns (enabled: seq<Plugin>, enabledIds: set<PluginId>)
      requires Filed()
      modifies this`loaded
      ensures loaded == Loaded(old(loaded), Concat(loaders))
      ensures enabledIds == NewlyEnabled(old(loaded), Concat(loaders))
      ensures forall p :: p in enabled <==> p.id in enabledIds && loaded[p.id] == p
      ensures forall p :: p in enabled ==> p in Offered()
      ensures forall id :: id in enabledIds ==> loaded[id].id == id && loaded[id].preferencesLoad
    {
      enabled, enabledIds := [], {};
      for i := 0 to |loaders|
        invariant loaded == Loaded(old(loaded), Concat(loaders[..i]))
        invariant enabledIds == NewlyEnabled(old(loaded), Concat(loaders[..i]))
        invariant forall p :: p in enabled <==> p.id in enabledIds && loaded[p.id] == p
      {
        enabled, enabledIds := Collect(loaders[i], enabled, enabledIds, old(loaded), Concat(loaders[..i]));
        assert loaders[..i + 1][..i] == loaders[..i];
      }
      assert loaders[..|loaders|] == loaders;
      ConcatIsAll(loaders);
      LoadedExtends(old(loaded), Concat(loaders));
    }

    /** The plugins of one loader, after those in `offered`. */
    method Collect(plugins: seq<Plugin>, already: seq<Plugin>, alreadyIds: set<PluginId>,
                   ghost before: map<PluginId, Plugin>, ghost offered: seq<Plugin>)
        returns (enabled: seq<Plugin>, enabledIds: set<PluginId>)
      requires loaded == Loaded(before, offered) && alreadyIds == NewlyEnabled(before, offered)
      requires forall p :: p in already <==> p.id in alreadyIds && loaded[p.id] == p
      modifies this`loaded
      ensures loaded == Loaded(before, offered + plugins) && enabledIds == NewlyEnabled(before, offered + plugins)
      ensures forall p :: p in enabled <==> p.id in enabledIds && loaded[p.id] == p
    {
      enabled, enabledIds := already, alreadyIds;
      assert offered + plugins[..0] == offered;
      for j := 0 to |plugins|
        invariant loaded == Loaded(before, offered + plugins[..j])
        invariant enabledIds == NewlyEnabled(before, offered + plugins[..j])
        invariant forall p :: p in enabled <==> p.id in enabledIds && loaded[p.id] == p
      {
        var plugin := plugins[j];
        assert offered + plugins[..j + 1] == offered + plugins[..j] + [plugin];
        OneMore(before, offered + plugins[..j], plugin);
        if plugin.id !in loaded {
          loaded := loaded[plugin.id := plugin];
          if plugin.Enabled() {
            enabled := enabled + [plugin];
            enabledIds := enabledIds + {plugin.id};
          }
        }
      }
      assert plugins[..|plugins|] == plugins;
    }

    method ConflictsWithAny(plugin: Plugin, enabledIds: set<PluginId>) returns (conflict: bool)
      ensures conflict <==> !(plugin.conflicts !! enabledIds)
    {
      var todo := plugin.conflicts;
      while todo != {}
        invariant todo <= plugin.conflicts
        invariant plugin.conflicts - todo !! enabledIds
      {
        var id :| id in todo;
        if id in enabledIds {
          return true;
        }
        todo := todo - {id};
      }
      return false;
    }

    /** Stop every loaded plugin and forget them all. */
    method UnloadAll()
      requires Filed()
      modifies this`loaded, this`active, loaded.Values`running
      ensures loaded == map[] && active == map[] && Filed()
      ensures forall id :: id in old(loaded) ==> !old(loaded)[id].running
    {
      var todo := loaded.Keys;
      while todo != {}
        invariant todo <= loaded.Keys && unchanged(this)
        invariant forall id :: id in loaded && id !in todo ==> !loaded[id].running
      {
        var id :| id in todo;
        loaded[id].Stop();
        todo := todo - {id};
      }
      loaded, active := map[], map[];
    }

    /** Loading when everything on offer is loaded already, as after a first LoadAll, changes nothing. */
    lemma SecondLoadIsIdle()
      requires loaded == Loaded(map[], Concat(loaders))
      ensures Loaded(loaded, Concat(loaders)) == loaded && NewlyActive(loaded, Concat(loaders)) == map[]
    {
      LoadedExtends(map[], Concat(loaders));
      NothingNew(loaded, Concat(loaders));
    }

    /** How often `p` is listed as conflicting with `id`: once for each direction of the conflict. */
    ghost function Mentions(id: PluginId, p: Plugin): nat
      reads this
    {
      (if id in loaded && p.id in loaded && loaded[p.id] == p && p.id in loaded[id].conflicts then 1 else 0)
      + (if p.id != id && p.id in loaded && loaded[p.id] == p && id in p.conflicts then 1 else 0)
    }

    /** The loaded plugins that conflict with `id`, either way round; one that does so both ways round is listed twice. */
    method GetConflictList(id: PluginId) returns (plugins: seq<Plugin>)
      requires Filed()
      ensures forall p: Plugin :: multiset(plugins)[p] == Mentions(id, p)
    {
      plugins := [];
      var todo := loaded.Keys;
      while todo != {}
        invariant todo <= loaded.Keys
        invariant forall p: Plugin :: multiset(plugins)[p] ==
                    (if id in loaded && id !in todo && p.id in loaded && loaded[p.id] == p && p.id in loaded[id].conflicts then 1 else 0)
                    + (if p.id != id && p.id in loaded && p.id !in todo && loaded[p.id] == p && id in p.conflicts then 1 else 0)
      {
        var i :| i in todo;
        if i == id {
          var own := OwnConflicts(loaded[i]);
          plugins := plugins + own;
        } else if id in loaded[i].conflicts {
          plugins := plugins + [loaded[i]];
        }
        todo := todo - {i};
      }
    }

    /** The loaded plugins on the list of `plugin`, each once. */
    method OwnConflicts(plugin: Plugin) returns (plugins: seq<Plugin>)
      requires Filed()
      ensures forall p: Plugin :: multiset(plugins)[p] == if p.id in loaded && loaded[p.id] == p && p.id in plugin.conflicts then 1 else 0
    {
      plugins := [];
      var todo := plugin.conflicts;
      while todo != {}
        invariant todo <= plugin.conflicts
        invariant forall p: Plugin :: multiset(plugins)[p] == if p.id in loaded && loaded[p.id] == p && p.id in plugin.conflicts - todo then 1 else 0
      {
        var i :| i in todo;
        if i in loaded {
          plugins := plugins + [loaded[i]];
        }
        todo := todo - {i};
      }
    }

    /** In a peaceful state an active plugin's list of conflicts names no active plugin, and the other way round. */
    lemma PeaceSeenFromTheList(i: PluginId, j: PluginId)
      requires Filed() && Peaceful() && i in active && j in active
      ensures Mentions(i, active[j]) == 0 && Mentions(j, active[i]) == 0
    {
    }
  }

  /** Whether to load (again) or to unload. */
  datatype Step = Load | Unload

  /** Either nothing is loaded and nothing runs, or what the loaders have is loaded, and what is active and can start runs. */
  ghost predicate Settled(manager: PluginManager)
    reads manager, manager.Offered()`running
  {
    var offered := Concat(manager.loaders);
    && (forall p :: p in manager.Offered() ==> p.running == (Holds(manager.active, p) && p.starts))
    && (|| (manager.loaded == map[] && manager.active == map[])
        || (manager.loaded == Loaded(map[], offered) && manager.active == NewlyActive(map[], offered)))
  }

  /**
   * However often the plugins are loaded and unloaded, in whatever order: no two active plugins conflict, in either
   * direction; and once they are loaded, what is loaded, active and running is what a first load would make it.
   */
  method Run(manager: PluginManager, steps: seq<Step>)
    requires Settled(manager)
    modifies manager`loaded, manager`active, manager.Offered()`running
    ensures Settled(manager) && manager.Peaceful()
    ensures steps != [] ==>
              manager.loaded == if steps[|steps| - 1].Load? then Loaded(map[], Concat(manager.loaders)) else map[]
  {
    SettledIsPeaceful(manager);
    for i := 0 to |steps|
      invariant Settled(manager) && manager.Peaceful()
      invariant i > 0 ==> manager.loaded == if steps[i - 1].Load? then Loaded(map[], Concat(manager.loaders)) else map[]
    {
      match steps[i] {
        case Load => LoadStep(manager);
        case Unload => UnloadStep(manager);
      }
      SettledIsPeaceful(manager);
    }
  }

  lemma SettledIsPeaceful(manager: PluginManager)
    requires Settled(manager)
    ensures manager.Filed() && manager.Peaceful()
  {
    LoadedExtends(map[], Concat(manager.loaders));
    NewlyActiveInPeace(map[], Concat(manager.loaders));
  }

  method LoadStep(manager: PluginManager)
    requires Settled(manager)
    modifies manager`loaded, manager`active, manager.Offered()`running
    ensures Settled(manager) && manager.loaded == Loaded(map[], Concat(manager.loaders))
  {
    SettledIsPeaceful(manager);
    if manager.loaded == Loaded(map[], Concat(manager.loaders)) {
      manager.SecondLoadIsIdle();
    }
    hide Loaded;
    hide NewlyActive;
    hide Concat;
    hide Peace;
    hide PluginManager.Filed;
    AddNothing(manager.active);
    AddNothing(NewlyActive(map[], Concat(manager.loaders)));
    manager.LoadAll();
  }

  lemma AddNothing<K, V>(m: map<K, V>)
    ensures m + map[] == m && map[] + m == m
  {
  }

  method UnloadStep(manager: PluginManager)
    requires Settled(manager)
    modifies manager`loaded, manager`active, manager.Offered()`running
    ensures Settled(manager) && manager.loaded == map[]
  {
    SettledIsPeaceful(manager);
    LoadedExtends(map[], Concat(manager.loaders));
    ConcatIsAll(manager.loaders);
    manager.UnloadAll();
  }

  /**
   * Loading again after the loaders have come to offer more, with no unloading in between: a plugin that conflicts with
   * one already active becomes active beside it.
   */
  method LateOffer(first: Plugin, late: Plugin) returns (manager: PluginManager)
    requires first.id != late.id && first.preferencesLoad && first.preferred && late.preferencesLoad && late.preferred
    requires first.conflicts == {} && late.conflicts == {first.id}
    modifies first`running, late`running
    ensures first.id in manager.active && late.id in manager.active && !manager.Peaceful()
  {
    manager := new PluginManager([[first]]);
    OneMore(map[], [], first);
    assert Concat([[first]]) == [] + [first] by { assert [[first]][..0] == []; }
    manager.LoadAll();
    manager.Offer([[first], [late]]);
    assert Concat([[first], [late]]) == [first] + [late] by {
      assert [[first], [late]][..1] == [[first]] && [[first]][..0] == [];
    }
    OneMore(map[first.id := first], [], first);
    OneMore(map[first.id := first], [first], late);
    assert [] + [first] == [first];
    manager.LoadAll();
    assert late.id in manager.active && manager.active[late.id] == late;
  }
}
