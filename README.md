# sppconfig resolution-and-merge engine, in Dafny

sppconfig is a layered-configuration library. Applications describe their
components with HOCON fragments. Each fragment belongs to a configuration
*type* (the fragment's first root key). Within a type it is filed under one
of three slots:

- a consumer **id**;
- a **modifier**;
- the type-wide **default**, filed under the reserved modifier `"*"`.

Lookup for a consumer takes the most specific entry that exists: id, then
modifier, then default. The first time an entry is handed out, it is merged
once, by fallback, with the less specific entries, and it is marked as
merged.

This project models that engine and proves what it promises:

- **Trees** (`trees.dfy`): a configuration tree is a `Value`: a leaf, a list,
  or an object of named children. `WithFallback` is the library's fallback
  merge. The primary side wins; two objects merge key by key, recursively.
  `GetWithFallback` characterises the result path by path.
- **Entries** (`entries.dfy`): `ConfigEntry` is the `HoconConfigImpl` class.
  It holds a tree and a one-shot `merged` flag, and `MergeSuper` and
  `SetMerged` update them in place.
- **Registries** (`registry.dfy`): `ConfigManager` is the per-type
  `HoconConfigManager`, with its two string-keyed maps of entries.
- **Resolver** (`resolver.dfy`): the default methods of `IConfigManager`:
  - `AddConfig` files by id, else by modifier, else as the default;
  - `GetConfig` resolves over the three levels and merges at most once;
  - `MergeConfig` performs the level-dependent fallback merge.
- **Catalog** (`catalog.dfy`): `TypeManager` is `HoconConfigTypeManager`. It
  creates registries on demand, and `AddManagers` re-classifies each loaded
  tree and files it with the same id > modifier > default precedence.
- **Loader** (`loader_spec.dfy`, `loader.dfy`): `HoconConfigLoader` without
  its file walking.
  - The fragments are grouped by root key.
  - Each type runs a modifier pass and then an id pass. A fragment that
    lists several ids or modifiers expands into one tree per identifier,
    chained by fallback.
  - A repeated default, modifier or id within one pass of one type is a
    fatal error.
  - The loader methods are proved against pure specification functions:
    `PassSlots`, `Admit`, `LoadList`, `GroupByRoot`.

Outside collaborators are parameters of the model:

- The application's builder (`IConfigurableBuilder`) is a function
  `Builder = (string, Tree) -> Option<Classification>`. `None` stands for the
  builder's `null`.
- The key a parsed root object yields first is a function `firstKey`.

A Java `null` is an `Option`. Java exceptions are failure values:

- a duplicate key is `Duplicate`;
- a null classification met while filing is `NoClassification`;
- a fragment with an empty root is `EmptyFragment`.

In each case the state the Java code had reached when it threw is kept.

The modifier pass takes a scalar fragment that has a modifier even when the
fragment also has an id. That is what `HoconConfigLoader.java:72` does; a
narrower reading ("a modifier and no id") would exclude such fragments. The
model follows the code, and `DuplicateModifierRejected` shows the
consequence: two such fragments with distinct ids but the same modifier make
their type fail to load. Because the default slot is the modifier key `"*"`,
a scalar fragment whose modifier is literally `"*"` collides with the
default in that pass, as it does in the code.

## Model

| member | source | states |
|---|---|---|
| Trees.WithFallback | src/main/java/free/servpp/config/hocon/HoconConfigImpl.java:23-25 | the merge of two objects is an object whose keys are the union of both; a non-object primary is returned unchanged |
| Trees.GetWithFallback | src/main/java/free/servpp/config/hocon/HoconConfigImpl.java:23-25 | at every path, the merged tree holds the primary's value, merged with the fallback's when both exist; otherwise the fallback's value, unless a non-object in the primary shadows that path |
| Trees.ShadowedWithFallback | src/main/java/free/servpp/config/hocon/HoconConfigImpl.java:23-25 | a path is hidden in a merged tree only when it was hidden in one of the two inputs |
| Trees.PrimaryLeafKept | src/main/java/free/servpp/config/hocon/HoconConfigImpl.java:23-25 | every leaf of the primary tree keeps its value after merging |
| Trees.FallbackFillsGap | src/main/java/free/servpp/config/hocon/HoconConfigImpl.java:23-25 | a path absent from (and not shadowed in) the primary takes the fallback's value |
| Trees.PrimaryObjectKept | src/main/java/free/servpp/config/hocon/HoconConfigImpl.java:23-25 | an object of the primary remains an object at the same path |
| Trees.DisjointUnion | src/main/java/ConfigExample.java:21-22 | merging objects with disjoint keys yields the union of their fields |
| Trees.SameKeysPrimaryWins | src/main/java/ConfigExample.java:21-22 | with identical keys holding leaves, the primary's values override the fallback's |
| Trees.CoveredFallbackIgnored | src/main/java/free/servpp/config/hocon/HoconConfigImpl.java:23-25 | merging onto a fallback that the primary already covers changes nothing |
| Trees.CoversItself | src/main/java/free/servpp/config/hocon/HoconConfigImpl.java:23-25 | every tree covers itself |
| Trees.MergeCoversBoth | src/main/java/free/servpp/config/hocon/HoconConfigImpl.java:23-25 | a merged tree covers both of its inputs |
| Trees.SelfFallback | src/main/java/free/servpp/config/hocon/HoconConfigImpl.java:23-25 | a tree merged with itself is unchanged |
| Trees.FallbackAbsorbed | src/main/java/free/servpp/config/hocon/HoconConfigImpl.java:23-25 | merging a merged tree again with either of its inputs changes nothing |
| Entries.ConfigEntry.constructor | src/main/java/free/servpp/config/hocon/HoconConfigImpl.java:13-15 | a new entry holds exactly the given tree and is unmerged |
| Entries.ConfigEntry.IsMerged | src/main/java/free/servpp/config/hocon/HoconConfigImpl.java:18-20 | returns the current flag |
| Entries.ConfigEntry.MergeSuper | src/main/java/free/servpp/config/hocon/HoconConfigImpl.java:23-25 | the tree becomes "old tree with fallback the other's old tree"; the flag and the other entry are untouched |
| Entries.ConfigEntry.SetMerged | src/main/java/free/servpp/config/hocon/HoconConfigImpl.java:28-30 | the flag becomes the argument; the tree is unchanged |
| Entries.ConfigEntry.GetConfigObject | src/main/java/free/servpp/config/hocon/HoconConfigImpl.java:33-35 | returns the current tree and changes nothing |
| Registry.ConfigManager.constructor | src/main/java/free/servpp/config/hocon/HoconConfigManager.java:21-23 | a new registry reports its type and holds nothing |
| Registry.ConfigManager.GetConfigType | src/main/java/free/servpp/config/hocon/HoconConfigManager.java:26-28 | returns the type the registry was made for |
| Registry.ConfigManager.AddConfigByModifier | src/main/java/free/servpp/config/hocon/HoconConfigManager.java:31-33 | overwrites (last write wins) only that modifier's slot; the id map and the other modifiers are unchanged |
| Registry.ConfigManager.AddConfigById | src/main/java/free/servpp/config/hocon/HoconConfigManager.java:36-38 | overwrites only that id's slot; the modifier map and the other ids are unchanged |
| Registry.ConfigManager.GetConfigById | src/main/java/free/servpp/config/hocon/HoconConfigManager.java:41-43 | present exactly when the id is given and was added; then the entry filed under it |
| Registry.ConfigManager.GetConfigByModifier | src/main/java/free/servpp/config/hocon/HoconConfigManager.java:46-48 | present exactly when the modifier was added; then the entry filed under it |
| Resolver.RouteKey | src/main/java/free/servpp/config/IConfigManager.java:15-26 | the slot is the id's exactly when there is an id; otherwise it is the modifier's, or the default key `"*"` when there is no modifier |
| Resolver.FiledIsResolved | src/main/java/free/servpp/config/IConfigManager.java:15-47 | an entry filed for a consumer is the entry that consumer then resolves to, at id level if it has an id, else at modifier level if it has a modifier, else at default level |
| Resolver.AddConfig | src/main/java/free/servpp/config/IConfigManager.java:15-26 | files the entry under the routed slot; the other map is unchanged |
| Resolver.GetDefaultConfigByModifier | src/main/java/free/servpp/config/IConfigManager.java:56-58 | the entry under `"*"`, absent when none |
| Resolver.Resolve | src/main/java/free/servpp/config/IConfigManager.java:32-47 | for each level, exactly when that level is the one resolved (id if filed; else modifier if given and filed; else default; absent only if none exists), and which entry is returned |
| Resolver.MergeConfig | src/main/java/free/servpp/config/IConfigManager.java:62-90 | the entry is marked merged; at id level its tree goes over the modifier tree and then the default tree, at modifier level over the default tree, and at default level it is unchanged (also when the entry is itself the modifier or default entry) |
| Resolver.GetConfig | src/main/java/free/servpp/config/IConfigManager.java:32-52 | returns the resolved entry; merges it only if it was unmerged; leaves it merged; leaves an already merged tree unchanged; changes no other entry and neither map |
| Resolver.OwnLeavesKept | src/main/java/free/servpp/config/IConfigManager.java:62-90 | at every level, the entry's own leaves survive the merge |
| Resolver.ModifierBeatsDefault | src/main/java/free/servpp/config/IConfigManager.java:64-77 | at id level, a value the entry lacks comes from the modifier entry in preference to the default |
| Resolver.DefaultFillsGaps | src/main/java/free/servpp/config/IConfigManager.java:62-85 | at id and modifier level, a value missing from the more specific trees comes from the default |
| Resolver.DefaultUnderIdScenario | src/main/java/free/servpp/config/IConfigManager.java:64-77 | an id entry without modifier gains the default's keys |
| Resolver.ModifierOverDefaultScenario | src/main/java/free/servpp/config/IConfigManager.java:78-83 | a modifier entry overrides the default's value for a shared key and gains the default's other keys |
| Catalog.Filed | src/main/java/free/servpp/config/hocon/HoconConfigTypeManager.java:35-41 | filing sets exactly the routed slot |
| Catalog.InstallAll | src/main/java/free/servpp/config/hocon/HoconConfigTypeManager.java:23-42 | filing succeeds exactly when the builder classifies every tree; a failure is `NoClassification` |
| Catalog.InstallStopsAtFirstDecline | src/main/java/free/servpp/config/hocon/HoconConfigTypeManager.java:25-27 | the first declined tree ends the filing; the trees before it stay filed |
| Catalog.LastWriteWins | src/main/java/free/servpp/config/hocon/HoconConfigTypeManager.java:25-27 | after a complete filing, each slot holds, unmerged, the last tree routed to it, or what it held before |
| Catalog.TypeManager.constructor | src/main/java/free/servpp/config/hocon/HoconConfigTypeManager.java:18-21 | an empty catalog using the given builder |
| Catalog.TypeManager.GetHoconConfigManager | src/main/java/free/servpp/config/hocon/HoconConfigTypeManager.java:44-56 | returns the stored registry of the type, or creates, stores and returns a new empty one for that type |
| Catalog.TypeManager.BuildHoconConfig | src/main/java/free/servpp/config/hocon/HoconConfigTypeManager.java:30-42 | files the tree as an unmerged entry under the slot its classification routes to; that entry is a newly allocated object, every other slot holds the same entry as before, and the classification's consumer now resolves to it; an unshared registry stays unshared; a declined tree fails and leaves the registry untouched |
| Catalog.TypeManager.AddManagers | src/main/java/free/servpp/config/hocon/HoconConfigTypeManager.java:23-28 | the type's registry becomes what `InstallAll` computes; each of its slots holds either a newly allocated entry or the one it held before; it is unshared if it was (or is new); no other registry changes |
| Catalog.TypeManager.BuildAll | src/main/java/free/servpp/config/hocon/HoconConfigTypeManager.java:25-27 | the loop of filings equals `InstallAll` from the registry's initial view; every slot holds its old entry or a newly allocated one; unsharedness is kept |
| Catalog.RefiledSlots | src/main/java/free/servpp/config/hocon/HoconConfigTypeManager.java:34-41 | filing an entry puts it in the routed slot, leaves every other slot as it was, and keeps the slots unshared when the entry was not held before |
| LoaderSpec.AdmitSound | src/main/java/free/servpp/config/hocon/HoconConfigLoader.java:54-118 | a pass succeeds exactly when its keys are distinct and untaken; it then yields its trees in order, and otherwise reports one of its slots |
| LoaderSpec.FirstDuplicateReported | src/main/java/free/servpp/config/hocon/HoconConfigLoader.java:68-69 | the reported duplicate is the first slot whose key was already taken |
| LoaderSpec.ChainLinks | src/main/java/free/servpp/config/hocon/HoconConfigLoader.java:79-86 | a list of n identifiers gives n slots; slot i is the tree created for identifier i over the tree of slot i-1 (the fragment for slot 0) |
| LoaderSpec.PassSlotsAppend | src/main/java/free/servpp/config/hocon/HoconConfigLoader.java:56-88 | the slots of a pass over concatenated fragments are the concatenation of the slots |
| LoaderSpec.DeclinedFragmentIgnored | src/main/java/free/servpp/config/hocon/HoconConfigLoader.java:57-59 | a fragment the builder declines contributes nothing to either pass |
| LoaderSpec.MembersCount | src/main/java/free/servpp/config/hocon/HoconConfigLoader.java:120-129 | a group holds each fragment with its key exactly as often as the input does |
| LoaderSpec.MemberKept | src/main/java/free/servpp/config/hocon/HoconConfigLoader.java:120-129 | every fragment lands in the group of its key |
| LoaderSpec.MembersAppend | src/main/java/free/servpp/config/hocon/HoconConfigLoader.java:120-129 | grouping keeps relative order: the group of a concatenation is the concatenation of the groups |
| LoaderSpec.GroupByRoot | src/main/java/free/servpp/config/hocon/HoconConfigLoader.java:120-129 | fails with `EmptyFragment` exactly when some fragment's root object has no key (the Java `iterator().next()` on it throws); otherwise there is one non-empty group per root key that occurs, holding every fragment with that key as often as it occurs and no other |
| LoaderSpec.GroupsPartition | src/main/java/free/servpp/config/hocon/HoconConfigLoader.java:120-129 | there is a group for every root key that occurs; no group is empty; the groups partition the fragments |
| LoaderSpec.DuplicateDefaultRejected | src/main/java/free/servpp/config/hocon/HoconConfigLoader.java:67-71 | two fragments with neither id nor modifier make the type fail with a duplicate default |
| LoaderSpec.DuplicateModifierRejected | src/main/java/free/servpp/config/hocon/HoconConfigLoader.java:72-77 | two scalar fragments with the same modifier fail, whatever their ids |
| LoaderSpec.DuplicateIdRejected | src/main/java/free/servpp/config/hocon/HoconConfigLoader.java:99-106 | two scalar fragments with the same id and no modifier fail |
| LoaderSpec.IdMayEqualModifier | src/main/java/free/servpp/config/hocon/HoconConfigLoader.java:55-56 | the same name may be a modifier and an id in one type; both trees are kept, modifier pass first |
| LoaderSpec.IdListExpanded | src/main/java/free/servpp/config/hocon/HoconConfigLoader.java:108-116 | an id list [a, b] yields the tree for a over the fragment, then the tree for b over that |
| Loader.ConfigLoader.constructor | src/main/java/free/servpp/config/hocon/HoconConfigLoader.java:27-34 | a loader over a new, empty catalog that uses the loader's builder |
| Loader.ConfigLoader.AddConfigByModifiersToList | src/main/java/free/servpp/config/hocon/HoconConfigLoader.java:54-89 | appends the modifier pass's trees to the list, or returns the pass's first duplicate, as `Admit` of `PassSlots` specifies |
| Loader.ConfigLoader.AppendChain | src/main/java/free/servpp/config/hocon/HoconConfigLoader.java:79-86 | the list loop continues the duplicate check along the chained slots of the identifier list |
| Loader.ConfigLoader.AddConfigByIdsToList | src/main/java/free/servpp/config/hocon/HoconConfigLoader.java:91-118 | appends the id pass's trees to the list, or returns the pass's first duplicate, as `Admit` of `PassSlots` specifies |
| Loader.ConfigLoader.LoadType | src/main/java/free/servpp/config/hocon/HoconConfigLoader.java:45-51 | one type's outcome; a registry is made only if both passes succeed with at least one tree, and it is then the filing of that list, holding only newly allocated entries, none in two slots; other registries are unchanged |
| Loader.ConfigLoader.Load | src/main/java/free/servpp/config/hocon/HoconConfigLoader.java:40-53 | an empty-rooted fragment fails before anything is filed; otherwise loading succeeds exactly when every type does; a failure is some type's failure; every registry is its type's filing and holds no entry in two slots |
| Loader.ConfigLoader.LoadGroups | src/main/java/free/servpp/config/hocon/HoconConfigLoader.java:44-52 | the loop over types, in any order, with the same guarantees as `Load` for the grouped fragments |

## Left out

- Resource discovery and parsing (`loadConfigsFromResources` and the file-system and jar walkers, `HoconConfigLoader.java:131-195`) are classpath and file I/O. The parsed fragments are an input `seq<Tree>` of `Load`.
- HOCON parsing and the internals of the Typesafe `Config` library are not modelled. `WithFallback` is this model's definition of the merge.
- Trees.WithFallback: does not track Typesafe's "ignores fallbacks" state. The library sets it on an object that was merged over a non-object, and a later fallback merge then leaves that object alone. The model merges such an object again, so for id-level entries whose object overrode a leaf of the modifier entry, the default may contribute keys that the library would not add. No associativity of the merge is claimed.
- Loader.ConfigLoader.Load: states that no registry holds one entry in two slots. It does not also state that registries of different types share no entry, although each type's entries are allocated when that type is loaded.
- The `synchronized` double-checked locking in `getHoconConfigManager` and the unsynchronised first-merge race in `getConfig` are concurrency concerns. The model is sequential.
- The `default:` arm of `mergeConfig` cannot be reached: `ConfigLevel` has three constructors, and the match over them is exhaustive.
- `HoconConfigTypeManager.setBuilder` is modelled as the catalog constructor's builder argument.
- `getManager` is the loader's `manager` field.
- The Java constructor of `HoconConfigLoader` calls `load()` itself. Here `Load` is a separate method, and it requires the catalog the constructor made, still empty.
- Loader.ConfigLoader.Load: the Java loop visits the types in `HashMap` order. The model picks any remaining type at each step, so its contract holds for every order. Which types are loaded before a failure therefore depends on that order, and the contract states only that each loaded type's registry is that type's own filing.
- The consumer and classification getters are assumed to return the same value on every call. Consumers and classifications are therefore values.
- `IConfigurableForLoad.getConfigType` is never called by the core and is not modelled.
- `InterfaceImplementor`, `ConfigExample.main` and the test harness are outside the engine.
