/** The lookup-and-merge logic shared by every registry: filing a
    configuration by its consumer's identity, and resolving a consumer to the
    most specific configuration, merged once with the less specific ones. */
module Resolver {
  import opened Wrappers
  import opened Trees
  import opened Entries
  import opened Registry
  import opened Configurables

  /** The reserved modifier under which the type-wide default is filed. */
  const Default: string := "*"

  datatype ConfigLevel = IdLevel | ModifierLevel | DefaultLevel

  /** A slot of a registry: a key of the id map or a key of the modifier map. */
  datatype Key = IdKey(id: string) | ModifierKey(modifier: string)

  /** Where a configuration with this identity is filed: by id when it has
      one, else by modifier when it has one, else as the type default. */
  function RouteKey(configId: Option<string>, modifier: Option<string>): (k: Key)
    ensures k.IdKey? <==> configId.Some?
    ensures k.IdKey? ==> k.id == configId.value
    ensures k.ModifierKey? && modifier.Some? ==> k.modifier == modifier.value
    ensures k.ModifierKey? && modifier.None? ==> k.modifier == Default
  {
    if configId.Some? then IdKey(configId.value)
    else if modifier.Some? then ModifierKey(modifier.value)
    else ModifierKey(Default)
  }

  /** Files `config` for `consumer`, following `RouteKey`: the other map is untouched. */
  method AddConfig(mgr: ConfigManager, consumer: Consumer, config: ConfigEntry)
    modifies mgr
    ensures var k := RouteKey(consumer.configId, consumer.modifier);
      && mgr.configsById == (if k.IdKey? then old(mgr.configsById)[k.id := config] else old(mgr.configsById))
      && mgr.configsByModifier == (if k.ModifierKey? then old(mgr.configsByModifier)[k.modifier := config] else old(mgr.configsByModifier))
  {
    var configId := consumer.configId;
    var modifier := consumer.modifier;
    if configId.Some? {
      mgr.AddConfigById(configId.value, config);
    } else {
      if modifier.Some? {
        mgr.AddConfigByModifier(modifier.value, config);
      } else {
        mgr.AddConfigByModifier(Default, config);
      }
    }
  }

  method GetDefaultConfigByModifier(mgr: ConfigManager) returns (r: Option<ConfigEntry>)
    ensures r.Some? <==> Default in mgr.configsByModifier
    ensures r.Some? ==> r.value == mgr.configsByModifier[Default]
  {
    r := mgr.GetConfigByModifier(Default);
  }

  /** The entry a consumer resolves to, and at which level it was found. */
  datatype Resolution = Resolution(entry: ConfigEntry, level: ConfigLevel)

  /** The three-level lookup: the id entry if the consumer's id has one; else
      the modifier entry if the consumer's modifier has one; else the default
      entry; absent only when none of the three exists. */
  function Resolve(byId: map<string, ConfigEntry>, byModifier: map<string, ConfigEntry>, consumer: Consumer): (r: Option<Resolution>)
    ensures (r.Some? && r.value.level == IdLevel) <==> consumer.configId.Some? && consumer.configId.value in byId
    ensures (r.Some? && r.value.level == ModifierLevel) <==>
      (consumer.configId.None? || consumer.configId.value !in byId) &&
      consumer.modifier.Some? && consumer.modifier.value in byModifier
    ensures r.None? <==>
      (consumer.configId.None? || consumer.configId.value !in byId) &&
      (consumer.modifier.None? || consumer.modifier.value !in byModifier) &&
      Default !in byModifier
    ensures r.Some? ==> r.value.entry == match r.value.level
                                          case IdLevel => byId[consumer.configId.value]
                                          case ModifierLevel => byModifier[consumer.modifier.value]
                                          case DefaultLevel => byModifier[Default]
  {
    if consumer.configId.Some? && consumer.configId.value in byId then
      Some(Resolution(byId[consumer.configId.value], IdLevel))
    else if consumer.modifier.Some? && consumer.modifier.value in byModifier then
      Some(Resolution(byModifier[consumer.modifier.value], ModifierLevel))
    else if Default in byModifier then
      Some(Resolution(byModifier[Default], DefaultLevel))
    else
      None
  }

  /** Filing and lookup agree: an entry filed for a consumer by `RouteKey`
      is the entry that consumer then resolves to, at the level of its most
      specific identity. */
  lemma FiledIsResolved(byId: map<string, ConfigEntry>, byModifier: map<string, ConfigEntry>, consumer: Consumer, e: ConfigEntry)
    ensures var k := RouteKey(consumer.configId, consumer.modifier);
      var r := Resolve(if k.IdKey? then byId[k.id := e] else byId,
                       if k.ModifierKey? then byModifier[k.modifier := e] else byModifier, consumer);
      && r.Some? && r.value.entry == e
      && r.value.level == (if consumer.configId.Some? then IdLevel
                           else if consumer.modifier.Some? then ModifierLevel
                           else DefaultLevel)
  {
  }

  /** `t` with `fallback` as fallback, when there is one. */
  function Over(t: Tree, fallback: Option<Tree>): Tree
  {
    if fallback.Some? then WithFallback(t, fallback.value) else t
  }

  /** The tree an entry found at `level` ends up with after its one merge:
      at id level, over the modifier tree and then over the default tree; at
      modifier level, over the default tree; at default level, unchanged. */
  function MergedTree(level: ConfigLevel, t: Tree, modifierTree: Option<Tree>, defaultTree: Option<Tree>): Tree
  {
    match level
    case IdLevel => Over(Over(t, modifierTree), defaultTree)
    case ModifierLevel => Over(t, defaultTree)
    case DefaultLevel => t
  }

  /** The current tree of the consumer's modifier entry, if it has one. */
  ghost function ModifierTree(mgr: ConfigManager, consumer: Consumer): Option<Tree>
    reads mgr, mgr.configsByModifier.Values
  {
    if consumer.modifier.Some? && consumer.modifier.value in mgr.configsByModifier
    then Some(mgr.configsByModifier[consumer.modifier.value].tree)
    else None
  }

  /** The current tree of the default entry, if there is one. */
  ghost function DefaultTree(mgr: ConfigManager): Option<Tree>
    reads mgr, mgr.configsByModifier.Values
  {
    if Default in mgr.configsByModifier then Some(mgr.configsByModifier[Default].tree) else None
  }

  /** Merges `ret`, found at `level`, with the less specific entries and marks
      it merged. `ret` may itself be filed under the modifier or default key
      too; merging a tree with a fallback it already covers changes nothing. */
  method MergeConfig(mgr: ConfigManager, ret: ConfigEntry, consumer: Consumer, level: ConfigLevel)
    modifies ret
    ensures ret.merged
    ensures ret.tree == MergedTree(level, old(ret.tree), old(ModifierTree(mgr, consumer)), old(DefaultTree(mgr)))
  {
    ghost var t0, m0 := ret.tree, ModifierTree(mgr, consumer);
    match level {
      case IdLevel =>
        var modifier := consumer.modifier;
        if modifier.Some? {
          var config := mgr.GetConfigByModifier(modifier.value);
          if config.Some? {
            ret.MergeSuper(config.value);
          }
        }
        assert ret.tree == Over(t0, m0);
        var config := GetDefaultConfigByModifier(mgr);
        if config.Some? {
          if config.value == ret {
            // the default entry is `ret` itself, whose tree already covers t0
            SelfFallback(ret.tree);
            if m0.Some? { FallbackAbsorbed(t0, m0.value); } else { SelfFallback(t0); }
          }
          ret.MergeSuper(config.value);
        }
      case ModifierLevel =>
        var config := GetDefaultConfigByModifier(mgr);
        if config.Some? {
          ret.MergeSuper(config.value);
        }
      case DefaultLevel =>
    }
    ret.SetMerged(true);
  }

  /** Resolves `consumer` and, the first time an entry is resolved, merges it
      with its fallbacks. No map of the registry changes and no entry other
      than the one returned does either. */
  method GetConfig(mgr: ConfigManager, consumer: Consumer) returns (r: Option<ConfigEntry>)
    modifies mgr.Entries()
    ensures var res := Resolve(mgr.configsById, mgr.configsByModifier, consumer);
      && (res.None? ==> r.None?)
      && (res.Some? ==> r == Some(res.value.entry))
      && (res.Some? && !old(res.value.entry.merged) ==>
            res.value.entry.tree == MergedTree(res.value.level, old(res.value.entry.tree),
                                               old(ModifierTree(mgr, consumer)), old(DefaultTree(mgr))))
    ensures r.Some? ==> r.value.merged
    ensures r.Some? && old(r.value.merged) ==> r.value.tree == old(r.value.tree)
    ensures forall e :: e in old(mgr.Entries()) && r != Some(e) ==> e.State() == old(e.State())
  {
    var ret := mgr.GetConfigById(consumer.configId);
    var level := IdLevel;
    if ret.None? {
      var modifier := consumer.modifier;
      if modifier.Some? {
        ret := mgr.GetConfigByModifier(modifier.value);
        level := ModifierLevel;
      }
      if ret.None? || modifier.None? {
        ret := GetDefaultConfigByModifier(mgr);
        level := DefaultLevel;
      }
    }
    if ret.Some? {
      var done := ret.value.IsMerged();
      if !done {
        MergeConfig(mgr, ret.value, consumer, level);
      }
    }
    r := ret;
  }

  /** Whatever the level, every leaf of the resolved entry's own tree keeps
      its value: the more specific configuration always wins. */
  lemma OwnLeavesKept(level: ConfigLevel, t: Tree, modifierTree: Option<Tree>, defaultTree: Option<Tree>,
                      path: seq<string>, x: Value)
    requires Get(t, path) == Some(x) && !x.Obj?
    ensures Get(MergedTree(level, t, modifierTree, defaultTree), path) == Some(x)
  {
    var mid := Over(t, modifierTree);
    if modifierTree.Some? { PrimaryLeafKept(t, modifierTree.value, path, x); }
    if defaultTree.Some? {
      PrimaryLeafKept(t, defaultTree.value, path, x);
      PrimaryLeafKept(mid, defaultTree.value, path, x);
    }
  }

  /** At id level, a leaf the id tree leaves open is taken from the modifier
      tree even when the default tree defines it too. */
  lemma ModifierBeatsDefault(t: Tree, modifierTree: Tree, defaultTree: Option<Tree>, path: seq<string>, y: Value)
    requires Get(t, path) == None && !Shadowed(t, path)
    requires Get(modifierTree, path) == Some(y) && !y.Obj?
    ensures Get(MergedTree(IdLevel, t, Some(modifierTree), defaultTree), path) == Some(y)
  {
    FallbackFillsGap(t, modifierTree, path, y);
    if defaultTree.Some? {
      PrimaryLeafKept(WithFallback(t, modifierTree), defaultTree.value, path, y);
    }
  }

  /** At id or modifier level, a leaf that no more specific tree defines or
      blocks is taken from the default tree. */
  lemma DefaultFillsGaps(level: ConfigLevel, t: Tree, modifierTree: Option<Tree>, defaultTree: Tree,
                         path: seq<string>, z: Value)
    requires level != DefaultLevel
    requires Get(t, path) == None && !Shadowed(t, path)
    requires level == IdLevel && modifierTree.Some? ==>
               Get(modifierTree.value, path) == None && !Shadowed(modifierTree.value, path)
    requires Get(defaultTree, path) == Some(z)
    ensures Get(MergedTree(level, t, modifierTree, Some(defaultTree)), path) == Some(z)
  {
    var mid := if level == IdLevel then Over(t, modifierTree) else t;
    if level == IdLevel && modifierTree.Some? {
      GetWithFallback(t, modifierTree.value, path);
      if Shadowed(mid, path) {
        ShadowedWithFallback(t, modifierTree.value, path);
      }
    }
    FallbackFillsGap(mid, defaultTree, path, z);
  }

  /** Scenario: the default `{port: 8080}` under the id entry `{host: "x"}`
      gives `{port: 8080, host: "x"}`. */
  lemma DefaultUnderIdScenario()
    ensures MergedTree(IdLevel, Obj(map["host" := Leaf("x")]), None, Some(Obj(map["port" := Leaf("8080")])))
            == Obj(map["host" := Leaf("x"), "port" := Leaf("8080")])
  {
    DisjointUnion(Obj(map["host" := Leaf("x")]), Obj(map["port" := Leaf("8080")]));
  }

  /** Scenario: the modifier entry `{logLevel: "warn"}` over the default
      `{logLevel: "info", port: 8080}` gives `{logLevel: "warn", port: 8080}`. */
  lemma ModifierOverDefaultScenario()
    ensures MergedTree(ModifierLevel, Obj(map["logLevel" := Leaf("warn")]), None,
                       Some(Obj(map["logLevel" := Leaf("info"), "port" := Leaf("8080")])))
            == Obj(map["logLevel" := Leaf("warn"), "port" := Leaf("8080")])
  {
    var r := WithFallback(Obj(map["logLevel" := Leaf("warn")]), Obj(map["logLevel" := Leaf("info"), "port" := Leaf("8080")]));
    assert r.fields.Keys == {"logLevel", "port"};
    assert r.fields["logLevel"] == Leaf("warn");
  }
}
