/** What loading computes, as functions over the fragments: grouping by root
    key, the slots each fragment claims in the modifier pass and in the id
    pass, and the duplicate check that admits or rejects a pass. */
module LoaderSpec {
  import opened Wrappers
  import opened Trees
  import opened Configurables
  import opened Resolver

  /** The two classification passes run over each type's fragments. */
  datatype Pass = ModifierPass | IdPass

  /** One registry slot claimed during a pass, with the tree claiming it. */
  datatype Slot = Slot(kind: SlotKind, key: string, tree: Tree)

  /** Slots for a list of identifiers: tree i is the tree materialised for
      identifier i with, as fallback, tree i - 1 (tree -1 is the fragment). */
  function Chain(kind: SlotKind, create: string -> Tree, keys: seq<string>, base: Tree): seq<Slot>
    decreases |keys|
  {
    if keys == [] then []
    else
      var t: Tree := WithFallback(create(keys[0]), base);
      [Slot(kind, keys[0], t)] + Chain(kind, create, keys[1..], t)
  }

  /** The slots one classified fragment claims in a pass. In the modifier
      pass a scalar fragment claims the default slot when it has neither id
      nor modifier, and its modifier's slot when it has a modifier, whether or
      not it also has an id; in the id pass it claims its id's slot. A
      fragment with lists claims one slot per entry of the pass's list. */
  function FragmentSlots(pass: Pass, c: Classification, fragment: Tree): seq<Slot>
  {
    if c.configIdList.None? && c.modifierList.None? then
      match pass
      case ModifierPass =>
        if c.configId.None? && c.modifier.None? then [Slot(DefaultSlot, Default, fragment)]
        else if c.modifier.Some? then [Slot(ModifierSlot, c.modifier.value, fragment)]
        else []
      case IdPass =>
        if c.configId.Some? then [Slot(IdSlot, c.configId.value, fragment)] else []
    else
      match pass
      case ModifierPass =>
        if c.modifierList.Some? then Chain(ModifierSlot, c.createByModifier, c.modifierList.value, fragment) else []
      case IdPass =>
        if c.configIdList.Some? then Chain(IdSlot, c.createById, c.configIdList.value, fragment) else []
  }

  /** The slots all fragments of a type claim in a pass, in fragment order;
      a fragment the builder declines claims none. */
  function PassSlots(build: Builder, configType: string, pass: Pass, fragments: seq<Tree>): seq<Slot>
    decreases |fragments|
  {
    if fragments == [] then []
    else OwnSlots(build, configType, pass, fragments[0]) + PassSlots(build, configType, pass, fragments[1..])
  }

  function OwnSlots(build: Builder, configType: string, pass: Pass, fragment: Tree): seq<Slot>
  {
    match build(configType, fragment)
    case None => []
    case Some(c) => FragmentSlots(pass, c, fragment)
  }

  /** The slots of a pass over two fragments. */
  lemma PassSlotsOfTwo(build: Builder, configType: string, pass: Pass, first: Tree, second: Tree)
    ensures PassSlots(build, configType, pass, [first, second]) ==
            OwnSlots(build, configType, pass, first) + OwnSlots(build, configType, pass, second)
  {
    assert [first, second][1..] == [second];
    assert [second][1..] == [];
    assert PassSlots(build, configType, pass, [second]) ==
           OwnSlots(build, configType, pass, second) + PassSlots(build, configType, pass, []);
  }

  /** No two slots share a key, and none uses a key of `seen`. */
  predicate Distinct(slots: seq<Slot>, seen: set<string>)
  {
    && (forall i :: 0 <= i < |slots| ==> slots[i].key !in seen)
    && (forall i, j :: 0 <= i < j < |slots| ==> slots[i].key != slots[j].key)
  }

  function TreesOf(slots: seq<Slot>): (ts: seq<Tree>)
    ensures |ts| == |slots| && forall i :: 0 <= i < |slots| ==> ts[i] == slots[i].tree
  {
    seq(|slots|, i requires 0 <= i < |slots| => slots[i].tree)
  }

  /** The duplicate check of a pass, given the keys already taken: the trees
      of the slots in order, or the first slot whose key is already taken. */
  function Admit(configType: string, slots: seq<Slot>, seen: set<string>): Result<seq<Tree>, LoadError>
    decreases |slots|
  {
    if slots == [] then Success([])
    else if slots[0].key in seen then Failure(Duplicate(configType, slots[0].kind, slots[0].key))
    else
      match Admit(configType, slots[1..], seen + {slots[0].key})
      case Success(ts) => Success([slots[0].tree] + ts)
      case Failure(e) => Failure(e)
  }

  /** A pass is admitted exactly when its keys are distinct and untaken; it
      then yields the slots' trees in order, and otherwise reports one of its
      slots as the duplicate. */
  lemma {:induction false} AdmitSound(configType: string, slots: seq<Slot>, seen: set<string>)
    ensures var r := Admit(configType, slots, seen);
      && (r.Success? <==> Distinct(slots, seen))
      && (r.Success? ==> r.value == TreesOf(slots))
      && (r.Failure? ==> exists i :: 0 <= i < |slots| && r.error == Duplicate(configType, slots[i].kind, slots[i].key))
    decreases |slots|
  {
    if slots != [] && slots[0].key !in seen {
      var k := slots[0].key;
      var tail := slots[1..];
      AdmitSound(configType, tail, seen + {k});
      assert forall i :: 0 < i < |slots| ==> slots[i] == tail[i - 1];
      if Distinct(tail, seen + {k}) {
        assert Distinct(slots, seen);
        assert TreesOf(slots) == [slots[0].tree] + TreesOf(tail);
      } else {
        var r := Admit(configType, tail, seen + {k});
        var i :| 0 <= i < |tail| && r.error == Duplicate(configType, tail[i].kind, tail[i].key);
        assert slots[i + 1] == tail[i];
        DistinctTail(slots, seen);
      }
    }
  }

  /** Distinct slots stay distinct without their first, once its key is taken. */
  lemma DistinctTail(slots: seq<Slot>, seen: set<string>)
    requires slots != []
    ensures Distinct(slots, seen) ==> Distinct(slots[1..], seen + {slots[0].key})
  {
    if Distinct(slots, seen) {
      var tail := slots[1..];
      forall a | 0 <= a < |tail| ensures tail[a].key !in seen + {slots[0].key} {
        assert slots[a + 1] == tail[a];
      }
      forall a, b | 0 <= a < b < |tail| ensures tail[a].key != tail[b].key {
        assert slots[a + 1] == tail[a] && slots[b + 1] == tail[b];
      }
    }
  }

  /** The error a failing pass reports names the first slot whose key was
      already taken, by an earlier slot or before the pass began. */
  lemma {:induction false} FirstDuplicateReported(configType: string, slots: seq<Slot>, seen: set<string>, i: nat)
    requires i < |slots| && Distinct(slots[..i], seen)
    requires slots[i].key in seen || exists j :: 0 <= j < i && slots[j].key == slots[i].key
    ensures Admit(configType, slots, seen) == Failure(Duplicate(configType, slots[i].kind, slots[i].key))
    decreases i
  {
    if i > 0 {
      assert slots[0] == slots[..i][0];
      var seen' := seen + {slots[0].key};
      assert slots[1..][..i - 1] == slots[..i][1..];
      if slots[i].key !in seen' {
        var j :| 0 <= j < i && slots[j].key == slots[i].key;
        assert slots[1..][j - 1] == slots[j];
      }
      FirstDuplicateReported(configType, slots[1..], seen', i - 1);
    }
  }

  /** The slots of an identifier list: one per identifier, in list order, each
      tree materialised for its identifier with the previous tree (the
      fragment, for the first) as fallback. */
  lemma {:induction false} ChainLinks(kind: SlotKind, create: string -> Tree, keys: seq<string>, base: Tree)
    ensures var slots := Chain(kind, create, keys, base);
      && |slots| == |keys|
      && forall i :: 0 <= i < |keys| ==>
           && slots[i].kind == kind && slots[i].key == keys[i]
           && slots[i].tree == WithFallback(create(keys[i]), if i == 0 then base else slots[i - 1].tree)
    decreases |keys|
  {
    if keys != [] {
      var t: Tree := WithFallback(create(keys[0]), base);
      ChainLinks(kind, create, keys[1..], t);
    }
  }

  lemma {:induction false} PassSlotsAppend(build: Builder, configType: string, pass: Pass, a: seq<Tree>, b: seq<Tree>)
    ensures PassSlots(build, configType, pass, a + b) == PassSlots(build, configType, pass, a) + PassSlots(build, configType, pass, b)
    decreases |a|
  {
    if a == [] {
      assert a + b == b;
    } else {
      assert (a + b)[0] == a[0] && (a + b)[1..] == a[1..] + b;
      PassSlotsAppend(build, configType, pass, a[1..], b);
    }
  }

  /** A fragment the builder declines contributes nothing to either pass. */
  lemma DeclinedFragmentIgnored(build: Builder, configType: string, pass: Pass, before: seq<Tree>, fragment: Tree, after: seq<Tree>)
    requires build(configType, fragment).None?
    ensures PassSlots(build, configType, pass, before + [fragment] + after) == PassSlots(build, configType, pass, before + after)
  {
    assert [fragment][1..] == [];
    assert PassSlots(build, configType, pass, [fragment]) == [];
    calc {
      PassSlots(build, configType, pass, before + [fragment] + after);
      { PassSlotsAppend(build, configType, pass, before + [fragment], after); }
      PassSlots(build, configType, pass, before + [fragment]) + PassSlots(build, configType, pass, after);
      { PassSlotsAppend(build, configType, pass, before, [fragment]); }
      PassSlots(build, configType, pass, before) + PassSlots(build, configType, pass, after);
      { PassSlotsAppend(build, configType, pass, before, after); }
      PassSlots(build, configType, pass, before + after);
    }
  }

  /** A pass's outcome appended to the trees gathered before it. */
  function Extend(prefix: seq<Tree>, r: Result<seq<Tree>, LoadError>): Result<seq<Tree>, LoadError>
  {
    match r
    case Success(ts) => Success(prefix + ts)
    case Failure(e) => Failure(e)
  }

  /** One step of the duplicate check: the first slot either clashes with a
      taken key, or its tree is gathered and its key taken. */
  lemma AdmitStep(configType: string, prefix: seq<Tree>, s: Slot, rest: seq<Slot>, seen: set<string>)
    ensures Extend(prefix, Admit(configType, [s] + rest, seen)) ==
            if s.key in seen then Failure(Duplicate(configType, s.kind, s.key))
            else Extend(prefix + [s.tree], Admit(configType, rest, seen + {s.key}))
  {
    assert ([s] + rest)[0] == s && ([s] + rest)[1..] == rest;
    match Admit(configType, rest, seen + {s.key})
    case Success(ts) =>
      assert prefix + ([s.tree] + ts) == prefix + [s.tree] + ts;
    case Failure(e) =>
  }

  /** The slots of a pass from fragment i on. */
  lemma PassSlotsStep(build: Builder, configType: string, pass: Pass, fragments: seq<Tree>, i: nat)
    requires i < |fragments|
    ensures PassSlots(build, configType, pass, fragments[i..]) ==
            OwnSlots(build, configType, pass, fragments[i]) + PassSlots(build, configType, pass, fragments[i + 1..])
  {
    assert fragments[i..][0] == fragments[i] && fragments[i..][1..] == fragments[i + 1..];
  }

  /** The slots of an identifier list from identifier j on. */
  lemma ChainStep(kind: SlotKind, create: string -> Tree, keys: seq<string>, j: nat, base: Tree)
    requires j < |keys|
    ensures var t: Tree := WithFallback(create(keys[j]), base);
            Chain(kind, create, keys[j..], base) == [Slot(kind, keys[j], t)] + Chain(kind, create, keys[j + 1..], t)
  {
    assert keys[j..][0] == keys[j] && keys[j..][1..] == keys[j + 1..];
  }

  /** One step of the duplicate check along an identifier list followed by
      the slots of later fragments. */
  lemma ChainAdmitStep(configType: string, kind: SlotKind, create: string -> Tree, keys: seq<string>, j: nat,
                       base: Tree, rest: seq<Slot>, prefix: seq<Tree>, seen: set<string>)
    requires j < |keys|
    ensures var t: Tree := WithFallback(create(keys[j]), base);
            Extend(prefix, Admit(configType, Chain(kind, create, keys[j..], base) + rest, seen)) ==
            if keys[j] in seen then Failure(Duplicate(configType, kind, keys[j]))
            else Extend(prefix + [t], Admit(configType, Chain(kind, create, keys[j + 1..], t) + rest, seen + {keys[j]}))
  {
    var t: Tree := WithFallback(create(keys[j]), base);
    var tail := Chain(kind, create, keys[j + 1..], t);
    ChainStep(kind, create, keys, j, base);
    assert Chain(kind, create, keys[j..], base) + rest == [Slot(kind, keys[j], t)] + (tail + rest);
    AdmitStep(configType, prefix, Slot(kind, keys[j], t), tail + rest, seen);
  }

  /** The trees filed for one type: the modifier pass's trees followed by the
      id pass's trees, or the first duplicate either pass meets. */
  function LoadList(build: Builder, configType: string, group: seq<Tree>): Result<seq<Tree>, LoadError>
  {
    match Admit(configType, PassSlots(build, configType, ModifierPass, group), {})
    case Failure(e) => Failure(e)
    case Success(byModifier) =>
      match Admit(configType, PassSlots(build, configType, IdPass, group), {})
      case Failure(e) => Failure(e)
      case Success(byId) => Success(byModifier + byId)
  }

  /** The fragments whose root key is `k`, in their original order. */
  function Members(fragments: seq<Tree>, firstKey: Tree -> string, k: string): seq<Tree>
    decreases |fragments|
  {
    if fragments == [] then []
    else (if firstKey(fragments[0]) == k then [fragments[0]] else []) + Members(fragments[1..], firstKey, k)
  }

  function RootKeys(fragments: seq<Tree>, firstKey: Tree -> string): set<string>
  {
    set i | 0 <= i < |fragments| :: firstKey(fragments[i])
  }

  /** Groups the fragments by the first key of their root object; a fragment
      whose root has no key at all makes grouping fail. `firstKey` is the key
      the parsed object yields first. */
  function GroupByRoot(fragments: seq<Tree>, firstKey: Tree -> string): (r: Result<map<string, seq<Tree>>, LoadError>)
    ensures r.Failure? <==> exists i :: 0 <= i < |fragments| && fragments[i].fields == map[]
    ensures r.Failure? ==> r.error == EmptyFragment
    ensures r.Success? ==>
      && (forall i :: 0 <= i < |fragments| ==> firstKey(fragments[i]) in r.value)
      && (forall k :: k in r.value ==> r.value[k] != [])
      && (forall k, t :: k in r.value ==>
            multiset(r.value[k])[t] == if firstKey(t) == k then multiset(fragments)[t] else 0)
  {
    if exists i :: 0 <= i < |fragments| && |fragments[i].fields| == 0 then Failure(EmptyFragment)
    else GroupsPartition(fragments, firstKey); Success(Groups(fragments, firstKey))
  }

  function Groups(fragments: seq<Tree>, firstKey: Tree -> string): map<string, seq<Tree>>
  {
    map k | k in RootKeys(fragments, firstKey) :: Members(fragments, firstKey, k)
  }

  lemma {:induction false} MembersCount(fragments: seq<Tree>, firstKey: Tree -> string, k: string, t: Tree)
    ensures multiset(Members(fragments, firstKey, k))[t] == if firstKey(t) == k then multiset(fragments)[t] else 0
    decreases |fragments|
  {
    if fragments != [] {
      MembersCount(fragments[1..], firstKey, k, t);
      assert fragments == [fragments[0]] + fragments[1..];
    }
  }

  lemma {:induction false} MemberKept(fragments: seq<Tree>, firstKey: Tree -> string, i: nat)
    requires i < |fragments|
    ensures fragments[i] in Members(fragments, firstKey, firstKey(fragments[i]))
    decreases i
  {
    if i > 0 {
      MemberKept(fragments[1..], firstKey, i - 1);
    }
  }

  /** Grouping keeps the fragments' relative order: the group of a
      concatenation is the concatenation of the groups. */
  lemma {:induction false} MembersAppend(a: seq<Tree>, b: seq<Tree>, firstKey: Tree -> string, k: string)
    ensures Members(a + b, firstKey, k) == Members(a, firstKey, k) + Members(b, firstKey, k)
    decreases |a|
  {
    if a == [] {
      assert a + b == b;
    } else {
      assert (a + b)[0] == a[0] && (a + b)[1..] == a[1..] + b;
      MembersAppend(a[1..], b, firstKey, k);
    }
  }

  /** Grouping partitions the fragments: a group exists exactly for each root
      key that occurs, no group is empty, and each group holds every fragment
      with its key, as often as it occurs, and no other. */
  lemma GroupsPartition(fragments: seq<Tree>, firstKey: Tree -> string)
    ensures var groups := Groups(fragments, firstKey);
      && (forall i :: 0 <= i < |fragments| ==> firstKey(fragments[i]) in groups)
      && (forall k :: k in groups ==> groups[k] != [])
      && (forall k, t :: k in groups ==>
            multiset(groups[k])[t] == if firstKey(t) == k then multiset(fragments)[t] else 0)
  {
    GroupsNonEmpty(fragments, firstKey);
    GroupsCount(fragments, firstKey);
  }

  lemma GroupsNonEmpty(fragments: seq<Tree>, firstKey: Tree -> string)
    ensures forall k :: k in Groups(fragments, firstKey) ==> Groups(fragments, firstKey)[k] != []
  {
    forall k | k in Groups(fragments, firstKey) ensures Groups(fragments, firstKey)[k] != [] {
      var i :| 0 <= i < |fragments| && firstKey(fragments[i]) == k;
      MemberKept(fragments, firstKey, i);
    }
  }

  lemma GroupsCount(fragments: seq<Tree>, firstKey: Tree -> string)
    ensures forall k, t :: k in Groups(fragments, firstKey) ==>
              multiset(Groups(fragments, firstKey)[k])[t] == if firstKey(t) == k then multiset(fragments)[t] else 0
  {
    forall k, t | k in Groups(fragments, firstKey)
      ensures multiset(Groups(fragments, firstKey)[k])[t] == if firstKey(t) == k then multiset(fragments)[t] else 0
    {
      MembersCount(fragments, firstKey, k, t);
    }
  }

  /** A classification in scalar form: no id list and no modifier list. */
  predicate Scalar(c: Classification)
  {
    c.configIdList.None? && c.modifierList.None?
  }

  /** Two fragments that both declare neither id nor modifier: the second is
      a duplicate default and the type fails to load. */
  lemma DuplicateDefaultRejected(build: Builder, configType: string, first: Tree, second: Tree)
    requires build(configType, first).Some? && build(configType, second).Some?
    requires var c1, c2 := build(configType, first).value, build(configType, second).value;
      Scalar(c1) && c1.configId.None? && c1.modifier.None? &&
      Scalar(c2) && c2.configId.None? && c2.modifier.None?
    ensures LoadList(build, configType, [first, second]) == Failure(Duplicate(configType, DefaultSlot, Default))
  {
    PassSlotsOfTwo(build, configType, ModifierPass, first, second);
    var slots := PassSlots(build, configType, ModifierPass, [first, second]);
    assert slots == [Slot(DefaultSlot, Default, first), Slot(DefaultSlot, Default, second)];
    FirstDuplicateReported(configType, slots, {}, 1);
  }

  /** Two scalar fragments with the same modifier fail to load, whether or not
      they carry ids, even distinct ones: the modifier pass does not look at
      the id. */
  lemma DuplicateModifierRejected(build: Builder, configType: string, first: Tree, second: Tree, modifier: string)
    requires build(configType, first).Some? && build(configType, second).Some?
    requires var c1, c2 := build(configType, first).value, build(configType, second).value;
      Scalar(c1) && c1.modifier == Some(modifier) && Scalar(c2) && c2.modifier == Some(modifier)
    ensures LoadList(build, configType, [first, second]) == Failure(Duplicate(configType, ModifierSlot, modifier))
  {
    PassSlotsOfTwo(build, configType, ModifierPass, first, second);
    var slots := PassSlots(build, configType, ModifierPass, [first, second]);
    assert slots == [Slot(ModifierSlot, modifier, first), Slot(ModifierSlot, modifier, second)];
    FirstDuplicateReported(configType, slots, {}, 1);
  }

  /** Two scalar fragments with the same id and no modifier fail to load. */
  lemma DuplicateIdRejected(build: Builder, configType: string, first: Tree, second: Tree, id: string)
    requires build(configType, first).Some? && build(configType, second).Some?
    requires var c1, c2 := build(configType, first).value, build(configType, second).value;
      Scalar(c1) && c1.configId == Some(id) && c1.modifier.None? &&
      Scalar(c2) && c2.configId == Some(id) && c2.modifier.None?
    ensures LoadList(build, configType, [first, second]) == Failure(Duplicate(configType, IdSlot, id))
  {
    PassSlotsOfTwo(build, configType, ModifierPass, first, second);
    PassSlotsOfTwo(build, configType, IdPass, first, second);
    assert PassSlots(build, configType, ModifierPass, [first, second]) == [];
    var slots := PassSlots(build, configType, IdPass, [first, second]);
    assert slots == [Slot(IdSlot, id, first), Slot(IdSlot, id, second)];
    FirstDuplicateReported(configType, slots, {}, 1);
  }

  /** Each pass keeps its own record of taken keys: one name may be both a
      modifier and an id of the same type. */
  lemma IdMayEqualModifier(build: Builder, configType: string, first: Tree, second: Tree, name: string)
    requires build(configType, first).Some? && build(configType, second).Some?
    requires var c1, c2 := build(configType, first).value, build(configType, second).value;
      Scalar(c1) && c1.configId.None? && c1.modifier == Some(name) &&
      Scalar(c2) && c2.configId == Some(name) && c2.modifier.None?
    ensures LoadList(build, configType, [first, second]) == Success([first, second])
  {
    PassSlotsOfTwo(build, configType, ModifierPass, first, second);
    PassSlotsOfTwo(build, configType, IdPass, first, second);
    var byModifier := [Slot(ModifierSlot, name, first)];
    var byId := [Slot(IdSlot, name, second)];
    assert PassSlots(build, configType, ModifierPass, [first, second]) == byModifier;
    assert PassSlots(build, configType, IdPass, [first, second]) == byId;
    assert Distinct(byModifier, {}) && Distinct(byId, {});
    assert TreesOf(byModifier) == [first] && TreesOf(byId) == [second];
    AdmitSound(configType, byModifier, {});
    AdmitSound(configType, byId, {});
    assert Admit(configType, byModifier, {}) == Success([first]);
    assert Admit(configType, byId, {}) == Success([second]);
    assert [first] + [second] == [first, second];
  }

  /** A fragment declaring the id list [a, b] yields two trees: the one for a
      over the fragment, and the one for b over the tree for a. */
  lemma IdListExpanded(build: Builder, configType: string, fragment: Tree, a: string, b: string)
    requires build(configType, fragment).Some?
    requires var c := build(configType, fragment).value;
      c.configIdList == Some([a, b]) && c.modifierList.None? && a != b
    ensures var c := build(configType, fragment).value;
      var forA := WithFallback(c.createById(a), fragment);
      LoadList(build, configType, [fragment]) == Success([forA, WithFallback(c.createById(b), forA)])
  {
    var c := build(configType, fragment).value;
    ChainLinks(IdSlot, c.createById, [a, b], fragment);
    assert [fragment][1..] == [];
    assert PassSlots(build, configType, ModifierPass, [fragment]) == [];
    assert PassSlots(build, configType, IdPass, [fragment]) == Chain(IdSlot, c.createById, [a, b], fragment);
    var ids := Chain(IdSlot, c.createById, [a, b], fragment);
    assert Distinct(ids, {});
    var forA := WithFallback(c.createById(a), fragment);
    assert TreesOf(ids) == [forA, WithFallback(c.createById(b), forA)];
    AdmitSound(configType, ids, {});
    assert Admit(configType, ids, {}) == Success([forA, WithFallback(c.createById(b), forA)]);
    assert [] + [forA, WithFallback(c.createById(b), forA)] == [forA, WithFallback(c.createById(b), forA)];
  }
}
