/** The loader: groups the parsed fragments by type, expands each type's
    fragments into the trees to file through the modifier pass and the id
    pass, and files them into the catalog, type by type. */
module Loader {
  import opened Wrappers
  import opened Trees
  import opened Registry
  import opened Configurables
  import opened Resolver
  import opened Catalog
  import opened LoaderSpec

  /** How loading one type ends, on a catalog that does not yet know it:
      its first duplicate, else nothing to file, else how filing its trees
      into a new registry ends. */
  function TypeOutcome(build: Builder, configType: string, group: seq<Tree>): Outcome<LoadError>
  {
    match LoadList(build, configType, group)
    case Failure(e) => Fail(e)
    case Success(list) => if list == [] then Pass else InstallAll(EmptyView, build, configType, list).outcome
  }

  /** The registry loading one type leaves behind, if any: none when a pass
      fails or produces no tree, else what filing its trees into a new
      registry makes, whether or not filing completes. */
  function Filing(build: Builder, configType: string, group: seq<Tree>): Option<RegistryView>
  {
    match LoadList(build, configType, group)
    case Failure(_) => None
    case Success(list) => if list == [] then None else Some(InstallAll(EmptyView, build, configType, list).view)
  }

  class ConfigLoader {
    const builder: Builder
    /** The key a parsed root object yields first. */
    const firstKey: Tree -> string
    const manager: TypeManager

    /** A loader over an empty catalog sharing the loader's builder. */
    constructor (builder: Builder, firstKey: Tree -> string)
      ensures this.builder == builder && this.firstKey == firstKey
      ensures fresh(manager) && manager.Valid() && manager.managerMap == map[] && manager.builder == builder
    {
      this.builder := builder;
      this.firstKey := firstKey;
      manager := new TypeManager(builder);
    }

    /** The modifier pass over one type's fragments, appending to `confs`:
        the trees of the default, modifier and modifier-list slots in
        fragment order, or the first duplicate default or modifier. */
    method AddConfigByModifiersToList(value: seq<Tree>, configType: string, confs: seq<Tree>)
      returns (res: Result<seq<Tree>, LoadError>)
      ensures res == Extend(confs, Admit(configType, PassSlots(builder, configType, ModifierPass, value), {}))
    {
      ghost var goal := Extend(confs, Admit(configType, PassSlots(builder, configType, ModifierPass, value), {}));
      var out: seq<Tree> := confs;
      var seen: set<string> := {};
      var i := 0;
      while i < |value|
        invariant 0 <= i <= |value|
        invariant goal == Extend(out, Admit(configType, PassSlots(builder, configType, ModifierPass, value[i..]), seen))
      {
        var config: Tree := value[i];
        PassSlotsStep(builder, configType, ModifierPass, value, i);
        var rest := PassSlots(builder, configType, ModifierPass, value[i + 1..]);
        assert [] + rest == rest;
        var configurable := builder(configType, config);
        if configurable.Some? {
          var c := configurable.value;
          if c.configIdList.None? && c.modifierList.None? {
            if c.configId.None? && c.modifier.None? {
              assert OwnSlots(builder, configType, ModifierPass, config) == [Slot(DefaultSlot, Default, config)];
              AdmitStep(configType, out, Slot(DefaultSlot, Default, config), rest, seen);
              if Default in seen {
                return Failure(Duplicate(configType, DefaultSlot, Default));
              }
              out := out + [config];
              seen := seen + {Default};
            } else if c.modifier.Some? {
              var modifier := c.modifier.value;
              assert OwnSlots(builder, configType, ModifierPass, config) == [Slot(ModifierSlot, modifier, config)];
              AdmitStep(configType, out, Slot(ModifierSlot, modifier, config), rest, seen);
              if modifier in seen {
                return Failure(Duplicate(configType, ModifierSlot, modifier));
              }
              out := out + [config];
              seen := seen + {modifier};
            } else {
              assert OwnSlots(builder, configType, ModifierPass, config) == [];
            }
          } else if c.modifierList.Some? {
            assert OwnSlots(builder, configType, ModifierPass, config) == Chain(ModifierSlot, c.createByModifier, c.modifierList.value, config);
            var failed;
            failed, out, seen := AppendChain(configType, ModifierSlot, c.createByModifier, c.modifierList.value, config, rest, out, seen);
            if failed.Some? {
              return Failure(failed.value);
            }
          } else {
            assert OwnSlots(builder, configType, ModifierPass, config) == [];
          }
        } else {
          assert OwnSlots(builder, configType, ModifierPass, config) == [];
        }
        i := i + 1;
      }
      assert value[i..] == [] && out + [] == out;
      res := Success(out);
    }

    /** The loop over an identifier list shared by both passes: each
        identifier's tree is materialised over the previous one and gathered
        unless its key is already taken, in which case the pass fails. */
    static method AppendChain(configType: string, kind: SlotKind, create: string -> Tree, keys: seq<string>, base: Tree,
                              ghost rest: seq<Slot>, out: seq<Tree>, seen: set<string>)
      returns (failed: Option<LoadError>, out': seq<Tree>, seen': set<string>)
      ensures Extend(out, Admit(configType, Chain(kind, create, keys, base) + rest, seen)) ==
              if failed.Some? then Failure(failed.value) else Extend(out', Admit(configType, rest, seen'))
    {
      var config: Tree := base;
      out', seen' := out, seen;
      var j := 0;
      assert keys[0..] == keys;
      while j < |keys|
        invariant 0 <= j <= |keys|
        invariant Extend(out, Admit(configType, Chain(kind, create, keys, base) + rest, seen)) ==
                  Extend(out', Admit(configType, Chain(kind, create, keys[j..], config) + rest, seen'))
      {
        var key := keys[j];
        ChainAdmitStep(configType, kind, create, keys, j, config, rest, out', seen');
        config := WithFallback(create(key), config);
        if key in seen' {
          return Some(Duplicate(configType, kind, key)), out', seen';
        }
        out' := out' + [config];
        seen' := seen' + {key};
        j := j + 1;
      }
      assert keys[j..] == [] && [] + rest == rest;
      failed := None;
    }

    /** The id pass over one type's fragments, appending to `confs`: the
        trees of the id and id-list slots in fragment order, or the first
        duplicate id. */
    method AddConfigByIdsToList(value: seq<Tree>, configType: string, confs: seq<Tree>)
      returns (res: Result<seq<Tree>, LoadError>)
      ensures res == Extend(confs, Admit(configType, PassSlots(builder, configType, IdPass, value), {}))
    {
      ghost var goal := Extend(confs, Admit(configType, PassSlots(builder, configType, IdPass, value), {}));
      var out: seq<Tree> := confs;
      var seen: set<string> := {};
      var i := 0;
      while i < |value|
        invariant 0 <= i <= |value|
        invariant goal == Extend(out, Admit(configType, PassSlots(builder, configType, IdPass, value[i..]), seen))
      {
        var config: Tree := value[i];
        PassSlotsStep(builder, configType, IdPass, value, i);
        var rest := PassSlots(builder, configType, IdPass, value[i + 1..]);
        assert [] + rest == rest;
        var configurable := builder(configType, config);
        if configurable.Some? {
          var c := configurable.value;
          if c.configIdList.None? && c.modifierList.None? {
            if c.configId.Some? {
              var id := c.configId.value;
              assert OwnSlots(builder, configType, IdPass, config) == [Slot(IdSlot, id, config)];
              AdmitStep(configType, out, Slot(IdSlot, id, config), rest, seen);
              if id in seen {
                return Failure(Duplicate(configType, IdSlot, id));
              }
              out := out + [config];
              seen := seen + {id};
            } else {
              assert OwnSlots(builder, configType, IdPass, config) == [];
            }
          } else if c.configIdList.Some? {
            assert OwnSlots(builder, configType, IdPass, config) == Chain(IdSlot, c.createById, c.configIdList.value, config);
            var failed;
            failed, out, seen := AppendChain(configType, IdSlot, c.createById, c.configIdList.value, config, rest, out, seen);
            if failed.Some? {
              return Failure(failed.value);
            }
          } else {
            assert OwnSlots(builder, configType, IdPass, config) == [];
          }
        } else {
          assert OwnSlots(builder, configType, IdPass, config) == [];
        }
        i := i + 1;
      }
      assert value[i..] == [] && out + [] == out;
      res := Success(out);
    }

    /** The body of the loading loop for one type the catalog does not yet
        know: both passes, then, if they produced any tree, the filing of
        those trees into the type's new registry. */
    method LoadType(configType: string, value: seq<Tree>) returns (res: Outcome<LoadError>)
      requires manager.Valid() && manager.builder == builder && configType !in manager.managerMap
      modifies manager
      ensures manager.Valid()
      ensures res == TypeOutcome(builder, configType, value)
      ensures configType in manager.managerMap <==> Filing(builder, configType, value).Some?
      ensures configType in manager.managerMap ==>
                fresh(manager.managerMap[configType]) && Filing(builder, configType, value) == Some(manager.managerMap[configType].View())
      ensures configType in manager.managerMap ==>
                var m := manager.managerMap[configType];
                Unshared(m) && forall k :: EntryAt(m, k).Some? ==> fresh(EntryAt(m, k).value)
      ensures manager.managerMap.Keys <= old(manager.managerMap.Keys) + {configType}
      ensures forall t :: t in old(manager.managerMap) ==>
                t in manager.managerMap && manager.managerMap[t] == old(manager.managerMap[t]) &&
                manager.managerMap[t].View() == old(manager.managerMap[t].View())
    {
      var confs := AddConfigByModifiersToList(value, configType, []);
      if confs.Success? {
        confs := AddConfigByIdsToList(value, configType, confs.value);
      }
      match Admit(configType, PassSlots(builder, configType, ModifierPass, value), {}) {
        case Success(ts) => assert [] + ts == ts;
        case Failure(_) =>
      }
      assert confs == LoadList(builder, configType, value);
      if confs.Failure? {
        return Fail(confs.error);
      }
      if |confs.value| != 0 {
        res := manager.AddManagers(configType, confs.value);
      } else {
        res := Pass;
      }
    }

    /** Loads the parsed fragments into the (still empty) catalog: groups them
        by root key, and for each type, in no particular order, runs the
        modifier pass and then the id pass and files the resulting trees, if
        any, into the type's new registry. The first failure ends loading;
        the types loaded before it stay loaded. */
    method Load(fragments: seq<Tree>) returns (res: Outcome<LoadError>)
      requires manager.Valid() && manager.builder == builder && manager.managerMap == map[]
      modifies manager
      ensures manager.Valid()
      ensures GroupByRoot(fragments, firstKey).Failure? ==> res == Fail(EmptyFragment) && manager.managerMap == map[]
      ensures GroupByRoot(fragments, firstKey).Success? ==>
        var groups := GroupByRoot(fragments, firstKey).value;
        && (res.Pass? ==> forall t :: t in groups ==> TypeOutcome(builder, t, groups[t]).Pass?)
        && (res.Fail? ==> exists t :: t in groups && TypeOutcome(builder, t, groups[t]) == res)
        && (res.Pass? ==> forall t :: t in groups && Filing(builder, t, groups[t]).Some? ==> t in manager.managerMap)
        && (forall t :: t in manager.managerMap ==> t in groups && Filing(builder, t, groups[t]) == Some(manager.managerMap[t].View()))
      ensures forall t :: t in manager.managerMap ==> Unshared(manager.managerMap[t])
    {
      var grouped := GroupByRoot(fragments, firstKey);
      if grouped.Failure? {
        return Fail(grouped.error);
      }
      res := LoadGroups(grouped.value);
    }

    /** The loading loop over the grouped fragments, one type at a time in
        no particular order, stopping at the first type that fails. */
    method LoadGroups(groups: map<string, seq<Tree>>) returns (res: Outcome<LoadError>)
      requires manager.Valid() && manager.builder == builder && manager.managerMap == map[]
      modifies manager
      ensures manager.Valid()
      ensures res.Pass? ==> forall t :: t in groups ==> TypeOutcome(builder, t, groups[t]).Pass?
      ensures res.Fail? ==> exists t :: t in groups && TypeOutcome(builder, t, groups[t]) == res
      ensures res.Pass? ==> forall t :: t in groups && Filing(builder, t, groups[t]).Some? ==> t in manager.managerMap
      ensures forall t :: t in manager.managerMap ==> t in groups && Filing(builder, t, groups[t]) == Some(manager.managerMap[t].View())
      ensures forall t :: t in manager.managerMap ==> Unshared(manager.managerMap[t])
    {
      var todo := groups.Keys;
      while todo != {}
        invariant todo <= groups.Keys
        invariant manager.Valid()
        invariant forall t :: t in todo ==> t !in manager.managerMap
        invariant forall t :: t in groups && t !in todo ==> TypeOutcome(builder, t, groups[t]).Pass?
        invariant forall t :: t in groups && t !in todo && Filing(builder, t, groups[t]).Some? ==> t in manager.managerMap
        invariant forall t :: t in manager.managerMap ==> t in groups && Filing(builder, t, groups[t]) == Some(manager.managerMap[t].View())
        invariant forall t :: t in manager.managerMap ==> Unshared(manager.managerMap[t])
        decreases todo
      {
        var configType :| configType in todo;
        ghost var before := manager.managerMap;
        label step:
        res := LoadType(configType, groups[configType]);
        forall t | t in manager.managerMap
          ensures t in groups && Filing(builder, t, groups[t]) == Some(manager.managerMap[t].View())
          ensures Unshared(manager.managerMap[t])
        {
          if t != configType {
            assert t in before && manager.managerMap[t].View() == old@step(before[t].View());
            assert manager.managerMap[t] == before[t] && old@step(Unshared(before[t]));
          }
        }
        if res.Fail? {
          return res;
        }
        todo := todo - {configType};
      }
      res := Pass;
    }
  }
}
