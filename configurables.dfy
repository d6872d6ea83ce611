/** What the library learns about a consumer or a configuration fragment from
    the application: its identity, and, for fragments shared by several
    identifiers, the lists of those identifiers. */
module Configurables {
  import opened Wrappers
  import opened Trees

  /** A consumer of configuration: an optional id and an optional modifier. */
  datatype Consumer = Consumer(configId: Option<string>, modifier: Option<string>)

  /** What the application's builder says about one fragment of a type: the
      scalar identity, the optional id and modifier lists, and the trees it
      materialises for "this fragment applied to id x" or "to modifier m". */
  datatype Classification = Classification(
    configId: Option<string>,
    modifier: Option<string>,
    configIdList: Option<seq<string>>,
    modifierList: Option<seq<string>>,
    createById: string -> Tree,
    createByModifier: string -> Tree)
  {
    /** The classification seen as a consumer identity. */
    function AsConsumer(): Consumer
    {
      Consumer(configId, modifier)
    }
  }

  /** The application's builder: classifies a fragment of a given type, or
      declines (null) when it does not recognise it. */
  type Builder = (string, Tree) -> Option<Classification>

  /** The registry slot a loader duplicate was found in. */
  datatype SlotKind = DefaultSlot | ModifierSlot | IdSlot

  /** Why loading fails. */
  datatype LoadError =
    | Duplicate(configType: string, kind: SlotKind, key: string)  // a fatal duplicate default, modifier or id
    | NoClassification(configType: string)                       // the builder declined a tree being filed
    | EmptyFragment                                               // a fragment with no root key
}
