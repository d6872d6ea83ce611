/** The per-type store: configurations filed by consumer id and by modifier.
    The modifier map also holds the type-wide default under a reserved key. */
module Registry {
  import opened Wrappers
  import opened Entries

  /** The contents of a registry as values. */
  datatype RegistryView = RegistryView(byId: map<string, EntryState>, byModifier: map<string, EntryState>)

  class ConfigManager {
    const configType: string
    var configsById: map<string, ConfigEntry>
    var configsByModifier: map<string, ConfigEntry>

    /** Every entry the registry holds, under either map. */
    ghost function Entries(): set<ConfigEntry>
      reads this
    {
      configsById.Values + configsByModifier.Values
    }

    ghost function View(): RegistryView
      reads this, configsById.Values, configsByModifier.Values
    {
      RegistryView(map k | k in configsById :: configsById[k].State(),
                   map k | k in configsByModifier :: configsByModifier[k].State())
    }

    /** A new registry reports the type it was made for and holds nothing. */
    constructor (configType: string)
      ensures this.configType == configType
      ensures configsById == map[] && configsByModifier == map[]
    {
      this.configType := configType;
      configsById := map[];
      configsByModifier := map[];
    }

    method GetConfigType() returns (t: string)
      ensures t == configType
    {
      t := configType;
    }

    /** Files `config` under `modifier`, silently replacing whatever was there;
        the id map and every other modifier are untouched. */
    method AddConfigByModifier(modifier: string, config: ConfigEntry)
      modifies this
      ensures configsByModifier == old(configsByModifier)[modifier := config]
      ensures configsById == old(configsById)
      ensures View() == old(View()).(byModifier := old(View()).byModifier[modifier := config.State()])
    {
      configsByModifier := configsByModifier[modifier := config];
      assert View().byModifier == old(View()).byModifier[modifier := config.State()];
    }

    /** Files `config` under `configId`, silently replacing whatever was there;
        the modifier map and every other id are untouched. */
    method AddConfigById(configId: string, config: ConfigEntry)
      modifies this
      ensures configsById == old(configsById)[configId := config]
      ensures configsByModifier == old(configsByModifier)
      ensures View() == old(View()).(byId := old(View()).byId[configId := config.State()])
    {
      configsById := configsById[configId := config];
      assert View().byId == old(View()).byId[configId := config.State()];
    }

    /** The entry filed under the id; absent for an id never added and for a
        consumer that has no id at all. */
    method GetConfigById(configId: Option<string>) returns (r: Option<ConfigEntry>)
      ensures r.Some? <==> configId.Some? && configId.value in configsById
      ensures r.Some? ==> r.value == configsById[configId.value]
    {
      if configId.Some? && configId.value in configsById {
        r := Some(configsById[configId.value]);
      } else {
        r := None;
      }
    }

    /** The entry filed under the modifier; absent for one never added. */
    method GetConfigByModifier(modifier: string) returns (r: Option<ConfigEntry>)
      ensures r.Some? <==> modifier in configsByModifier
      ensures r.Some? ==> r.value == configsByModifier[modifier]
    {
      if modifier in configsByModifier {
        r := Some(configsByModifier[modifier]);
      } else {
        r := None;
      }
    }
  }

  /** A registry whose fields and entries are untouched shows the same view. */
  twostate lemma ViewUnchanged(m: ConfigManager)
    requires unchanged(m)
    requires forall e :: e in m.Entries() ==> unchanged(e)
    ensures m.View() == old(m.View())
  {
    forall k | k in m.configsById ensures m.configsById[k].State() == old(m.configsById[k].State()) {
      assert m.configsById[k] in m.Entries();
    }
    forall k | k in m.configsByModifier ensures m.configsByModifier[k].State() == old(m.configsByModifier[k].State()) {
      assert m.configsByModifier[k] in m.Entries();
    }
  }
}
