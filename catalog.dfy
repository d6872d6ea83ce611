/** The catalog of registries, one per configuration type, created on first
    use, and the filing of a type's loaded trees into its registry. */
module Catalog {
  import opened Wrappers
  import opened Trees
  import opened Entries
  import opened Registry
  import opened Configurables
  import opened Resolver

  const EmptyView := RegistryView(map[], map[])

  /** What a registry view holds in one slot. */
  function SlotOf(v: RegistryView, k: Key): Option<EntryState>
  {
    match k
    case IdKey(id) => if id in v.byId then Some(v.byId[id]) else None
    case ModifierKey(m) => if m in v.byModifier then Some(v.byModifier[m]) else None
  }

  /** `v` with slot `k` (re)filed to `s`; every other slot is as it was. */
  function Filed(v: RegistryView, k: Key, s: EntryState): (r: RegistryView)
    ensures SlotOf(r, k) == Some(s)
    ensures forall k' :: k' != k ==> SlotOf(r, k') == SlotOf(v, k')
  {
    match k
    case IdKey(id) => v.(byId := v.byId[id := s])
    case ModifierKey(m) => v.(byModifier := v.byModifier[m := s])
  }

  /** The registry view reached by filing the trees of `list` in order, and
      whether every one of them could be classified. */
  datatype Installation = Installation(view: RegistryView, outcome: Outcome<LoadError>)

  /** Files each tree of `list` in turn, as a fresh unmerged entry under the
      slot its classification routes it to; the first tree the builder
      declines stops the filing. */
  function InstallAll(v: RegistryView, build: Builder, configType: string, list: seq<Tree>): (r: Installation)
    ensures r.outcome.Pass? <==> forall i :: 0 <= i < |list| ==> build(configType, list[i]).Some?
    ensures r.outcome.Fail? ==> r.outcome.error == NoClassification(configType)
    decreases |list|
  {
    if list == [] then Installation(v, Pass)
    else
      match build(configType, list[0])
      case None => Installation(v, Fail(NoClassification(configType)))
      case Some(c) =>
        InstallAll(Filed(v, RouteKey(c.configId, c.modifier), EntryState(list[0], false)), build, configType, list[1..])
  }

  /** A declined tree aborts the filing: what the trees before it filed stays
      filed, and nothing after it is filed. */
  lemma {:induction false} InstallStopsAtFirstDecline(v: RegistryView, build: Builder, configType: string, list: seq<Tree>, i: nat)
    requires i < |list| && build(configType, list[i]).None?
    requires forall j :: 0 <= j < i ==> build(configType, list[j]).Some?
    ensures InstallAll(v, build, configType, list) ==
            Installation(InstallAll(v, build, configType, list[..i]).view, Fail(NoClassification(configType)))
    decreases i
  {
    if i > 0 {
      var c := build(configType, list[0]).value;
      var v' := Filed(v, RouteKey(c.configId, c.modifier), EntryState(list[0], false));
      assert forall j :: 0 <= j < i - 1 ==> list[1..][j] == list[j + 1];
      InstallStopsAtFirstDecline(v', build, configType, list[1..], i - 1);
      assert list[..i][1..] == list[1..][..i - 1];
    }
  }

  /** The tree of `list` filed last under slot `k`, if any is. */
  function LastRoutedTo(build: Builder, configType: string, list: seq<Tree>, k: Key): Option<Tree>
    decreases |list|
  {
    if list == [] then None
    else
      var later := LastRoutedTo(build, configType, list[1..], k);
      if later.Some? then later
      else match build(configType, list[0])
        case Some(c) => if RouteKey(c.configId, c.modifier) == k then Some(list[0]) else None
        case None => None
  }

  /** After a complete filing, each slot holds, unmerged, the last tree of
      the list routed to it (a later tree silently overwrites an earlier
      one), and a slot no tree was routed to holds what it held before. */
  lemma {:induction false} LastWriteWins(v: RegistryView, build: Builder, configType: string, list: seq<Tree>, k: Key)
    requires InstallAll(v, build, configType, list).outcome.Pass?
    ensures var last := LastRoutedTo(build, configType, list, k);
            SlotOf(InstallAll(v, build, configType, list).view, k) ==
              if last.Some? then Some(EntryState(last.value, false)) else SlotOf(v, k)
    decreases |list|
  {
    if list != [] {
      var c := build(configType, list[0]).value;
      LastWriteWins(Filed(v, RouteKey(c.configId, c.modifier), EntryState(list[0], false)), build, configType, list[1..], k);
    }
  }

  /** The entry held in slot `k` of a registry with these two maps, if any. */
  function SlotEntry(byId: map<string, ConfigEntry>, byModifier: map<string, ConfigEntry>, k: Key): Option<ConfigEntry>
  {
    match k
    case IdKey(id) => if id in byId then Some(byId[id]) else None
    case ModifierKey(m) => if m in byModifier then Some(byModifier[m]) else None
  }

  /** No entry is held in two slots, so merging the entry one consumer
      resolves to never changes what another slot holds. */
  ghost predicate UnsharedSlots(byId: map<string, ConfigEntry>, byModifier: map<string, ConfigEntry>)
  {
    forall k1, k2 :: k1 != k2 && SlotEntry(byId, byModifier, k1).Some? && SlotEntry(byId, byModifier, k2).Some? ==>
      SlotEntry(byId, byModifier, k1) != SlotEntry(byId, byModifier, k2)
  }

  /** Filing `e` in slot `k` puts it there, leaves every other slot as it was,
      and keeps the slots unshared when `e` was not held anywhere before. */
  lemma RefiledSlots(byId: map<string, ConfigEntry>, byModifier: map<string, ConfigEntry>, k: Key, e: ConfigEntry)
    ensures var byId' := if k.IdKey? then byId[k.id := e] else byId;
            var byModifier' := if k.ModifierKey? then byModifier[k.modifier := e] else byModifier;
            && SlotEntry(byId', byModifier', k) == Some(e)
            && (forall k' :: k' != k ==> SlotEntry(byId', byModifier', k') == SlotEntry(byId, byModifier, k'))
            && (UnsharedSlots(byId, byModifier) && e !in byId.Values && e !in byModifier.Values ==>
                  UnsharedSlots(byId', byModifier'))
  {
    var byId' := if k.IdKey? then byId[k.id := e] else byId;
    var byModifier' := if k.ModifierKey? then byModifier[k.modifier := e] else byModifier;
    if UnsharedSlots(byId, byModifier) && e !in byId.Values && e !in byModifier.Values {
      forall k1, k2 | k1 != k2 && SlotEntry(byId', byModifier', k1).Some? && SlotEntry(byId', byModifier', k2).Some?
        ensures SlotEntry(byId', byModifier', k1) != SlotEntry(byId', byModifier', k2)
      {
        assert k1 != k ==> SlotEntry(byId', byModifier', k1) == SlotEntry(byId, byModifier, k1);
        assert k2 != k ==> SlotEntry(byId', byModifier', k2) == SlotEntry(byId, byModifier, k2);
        if k1 == k || k2 == k {
          var other := if k1 == k then k2 else k1;
          var x := SlotEntry(byId, byModifier, other).value;
          assert x in byId.Values || x in byModifier.Values;
        }
      }
    }
  }

  /** The entry a registry holds in slot `k`, if any. */
  ghost function EntryAt(m: ConfigManager, k: Key): Option<ConfigEntry>
    reads m
  {
    SlotEntry(m.configsById, m.configsByModifier, k)
  }

  /** No entry of the registry is held in two of its slots. */
  ghost predicate Unshared(m: ConfigManager)
    reads m
  {
    UnsharedSlots(m.configsById, m.configsByModifier)
  }

  class TypeManager {
    var managerMap: map<string, ConfigManager>
    const builder: Builder

    /** Each registry is filed under the type it was made for. */
    ghost predicate Valid()
      reads this
    {
      forall t :: t in managerMap ==> managerMap[t].configType == t
    }

    /** An empty catalog that classifies trees with `builder`. */
    constructor (builder: Builder)
      ensures Valid() && managerMap == map[] && this.builder == builder
    {
      managerMap := map[];
      this.builder := builder;
    }

    /** The registry of `configType`, created empty and filed on first use;
        later calls return that same registry. */
    method GetHoconConfigManager(configType: string) returns (m: ConfigManager)
      requires Valid()
      modifies this
      ensures Valid()
      ensures configType in managerMap && m == managerMap[configType] && m.configType == configType
      ensures configType in old(managerMap) ==> m == old(managerMap)[configType] && managerMap == old(managerMap)
      ensures configType !in old(managerMap) ==>
                fresh(m) && managerMap == old(managerMap)[configType := m] && m.View() == EmptyView &&
                m.configsById == map[] && m.configsByModifier == map[]
    {
      if configType in managerMap {
        m := managerMap[configType];
      } else {
        m := new ConfigManager(configType);
        managerMap := managerMap[configType := m];
      }
    }

    /** Classifies `config` and files it, wrapped in a fresh unmerged entry,
        by id, else by modifier, else as the default. A tree the builder
        declines is not filed (the source fails on it). */
    method BuildHoconConfig(configType: string, config: Tree, mgr: ConfigManager) returns (res: Outcome<LoadError>)
      modifies mgr
      ensures builder(configType, config).None? ==>
                res == Fail(NoClassification(configType)) && unchanged(mgr)
      ensures builder(configType, config).Some? ==>
                var c := builder(configType, config).value;
                res == Pass && mgr.View() == Filed(old(mgr.View()), RouteKey(c.configId, c.modifier), EntryState(config, false))
      ensures builder(configType, config).Some? ==>
                var c := builder(configType, config).value;
                var k := RouteKey(c.configId, c.modifier);
                && EntryAt(mgr, k).Some? && fresh(EntryAt(mgr, k).value)
                && (forall k' :: k' != k ==> EntryAt(mgr, k') == old(EntryAt(mgr, k')))
                && Resolve(mgr.configsById, mgr.configsByModifier, c.AsConsumer()).Some?
                && Resolve(mgr.configsById, mgr.configsByModifier, c.AsConsumer()).value.entry == EntryAt(mgr, k).value
      ensures old(Unshared(mgr)) ==> Unshared(mgr)
    {
      var configurable := builder(configType, config);
      if configurable.None? {
        return Fail(NoClassification(configType));
      }
      var configId := configurable.value.configId;
      var modifier := configurable.value.modifier;
      var hoconConfig := new ConfigEntry(config);
      ghost var k := RouteKey(configId, modifier);
      FiledIsResolved(mgr.configsById, mgr.configsByModifier, configurable.value.AsConsumer(), hoconConfig);
      if configId.Some? {
        mgr.AddConfigById(configId.value, hoconConfig);
      } else if modifier.Some? {
        mgr.AddConfigByModifier(modifier.value, hoconConfig);
      } else {
        mgr.AddConfigByModifier(Default, hoconConfig);
      }
      assert mgr.configsById == if k.IdKey? then old(mgr.configsById)[k.id := hoconConfig] else old(mgr.configsById);
      assert mgr.configsByModifier == if k.ModifierKey? then old(mgr.configsByModifier)[k.modifier := hoconConfig] else old(mgr.configsByModifier);
      RefiledSlots(old(mgr.configsById), old(mgr.configsByModifier), k, hoconConfig);
      res := Pass;
    }

    /** Files every tree of `managerList`, in order, into the registry of
        `configType` (created if need be). No other registry changes. */
    method AddManagers(configType: string, managerList: seq<Tree>) returns (res: Outcome<LoadError>)
      requires Valid()
      modifies this, if configType in managerMap then {managerMap[configType]} else {}
      ensures Valid()
      ensures managerMap.Keys == old(managerMap.Keys) + {configType}
      ensures forall t :: t in old(managerMap) ==> managerMap[t] == old(managerMap[t])
      ensures configType !in old(managerMap) ==> fresh(managerMap[configType])
      ensures (configType in old(managerMap) ==> old(Unshared(managerMap[configType]))) ==> Unshared(managerMap[configType])
      ensures forall k :: EntryAt(managerMap[configType], k).Some? ==>
                fresh(EntryAt(managerMap[configType], k).value) ||
                (configType in old(managerMap) && EntryAt(managerMap[configType], k) == old(EntryAt(managerMap[configType], k)))
      ensures forall t :: t in old(managerMap) && t != configType ==> managerMap[t].View() == old(managerMap[t].View())
      ensures var v0 := if configType in old(managerMap) then old(managerMap[configType].View()) else EmptyView;
              InstallAll(v0, builder, configType, managerList) == Installation(managerMap[configType].View(), res)
    {
      var manager := GetHoconConfigManager(configType);
      assert configType !in old(managerMap) ==> Unshared(manager) && forall k :: EntryAt(manager, k).None?;
      res := BuildAll(configType, managerList, manager);
      OthersUnchanged(configType);
    }

    /** The loop of `AddManagers`: classifies and files each tree in turn,
        stopping at the first one the builder declines. */
    method BuildAll(configType: string, managerList: seq<Tree>, manager: ConfigManager) returns (res: Outcome<LoadError>)
      modifies manager
      ensures InstallAll(old(manager.View()), builder, configType, managerList) == Installation(manager.View(), res)
      ensures old(Unshared(manager)) ==> Unshared(manager)
      ensures forall k :: EntryAt(manager, k).Some? ==> EntryAt(manager, k) == old(EntryAt(manager, k)) || fresh(EntryAt(manager, k).value)
    {
      var i := 0;
      while i < |managerList|
        invariant 0 <= i <= |managerList|
        invariant InstallAll(old(manager.View()), builder, configType, managerList) ==
                  InstallAll(manager.View(), builder, configType, managerList[i..])
        invariant old(Unshared(manager)) ==> Unshared(manager)
        invariant forall k :: EntryAt(manager, k).Some? ==> EntryAt(manager, k) == old(EntryAt(manager, k)) || fresh(EntryAt(manager, k).value)
      {
        var r := BuildHoconConfig(configType, managerList[i], manager);
        if r.Fail? {
          return r;
        }
        assert managerList[i..][1..] == managerList[i + 1..];
        i := i + 1;
      }
      res := Pass;
    }

    /** The views of the registries of other types are as they were. */
    twostate lemma OthersUnchanged(configType: string)
      requires old(Valid())
      requires forall t :: t in old(managerMap) ==> t in managerMap && managerMap[t] == old(managerMap[t])
      requires forall t :: t in old(managerMap) && t != configType ==> unchanged(managerMap[t])
      requires forall t, e :: t in old(managerMap) && t != configType && e in old(managerMap[t].Entries()) ==> unchanged(e)
      ensures forall t :: t in old(managerMap) && t != configType ==> managerMap[t].View() == old(managerMap[t].View())
    {
      forall t | t in old(managerMap) && t != configType
        ensures managerMap[t].View() == old(managerMap[t].View())
      {
        ViewUnchanged(managerMap[t]);
      }
    }
  }
}
