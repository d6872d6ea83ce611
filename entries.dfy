/** One stored configuration: a tree plus the one-shot flag recording that the
    tree has already been merged with its less specific fallbacks. */
module Entries {
  import opened Trees

  /** What an entry holds at some moment. */
  datatype EntryState = EntryState(tree: Tree, merged: bool)

  class ConfigEntry {
    var merged: bool
    var tree: Tree

    /** The entry's current state as a value. */
    function State(): EntryState
      reads this
    {
      EntryState(tree, merged)
    }

    /** A new entry holds exactly the tree it was given and is not yet merged. */
    constructor (tree: Tree)
      ensures this.tree == tree && !merged
    {
      this.tree := tree;
      merged := false;
    }

    method IsMerged() returns (b: bool)
      ensures b == merged
    {
      b := merged;
    }

    /** Replaces this entry's tree by "this tree with fallback the other
        entry's tree". The flag is left alone, and so is `other` (which may be
        this very entry). */
    method MergeSuper(other: ConfigEntry)
      modifies this
      ensures tree == WithFallback(old(tree), old(other.tree))
      ensures merged == old(merged)
      ensures other != this ==> other.tree == old(other.tree) && other.merged == old(other.merged)
    {
      tree := WithFallback(tree, other.tree);
    }

    method SetMerged(b: bool)
      modifies this
      ensures merged == b && tree == old(tree)
    {
      merged := b;
    }

    method GetConfigObject() returns (t: Tree)
      ensures t == tree
    {
      t := tree;
    }
  }
}
