/** Configuration trees and the fallback merge that `Config.withFallback`
    performs on them: the receiver's keys win, the fallback fills the gaps,
    and objects present on both sides are merged key by key. */
module Trees {
  import opened Wrappers

  /** A configuration value. Arrays are leaves: a merge never looks inside them. */
  datatype Value =
    | Leaf(text: string)
    | List(items: seq<Value>)
    | Obj(fields: map<string, Value>)

  /** A parsed configuration: its root is always an object. */
  type Tree = v: Value | v.Obj? witness Obj(map[])

  /** `primary.withFallback(fallback)`. */
  function WithFallback(primary: Value, fallback: Value): (r: Value)
    ensures r.Obj? <==> primary.Obj?
    ensures !primary.Obj? ==> r == primary
    ensures r.Obj? && fallback.Obj? ==> r.fields.Keys == primary.fields.Keys + fallback.fields.Keys
    ensures r.Obj? && !fallback.Obj? ==> r == primary
    decreases primary
  {
    if primary.Obj? && fallback.Obj? then
      Obj(map k | k in primary.fields.Keys + fallback.fields.Keys ::
            if k in primary.fields && k in fallback.fields then WithFallback(primary.fields[k], fallback.fields[k])
            else if k in primary.fields then primary.fields[k]
            else fallback.fields[k])
    else
      primary
  }

  /** The value at a key path, if the path leads through objects to one. */
  function Get(v: Value, path: seq<string>): Option<Value>
    decreases |path|
  {
    if path == [] then Some(v)
    else if v.Obj? && path[0] in v.fields then Get(v.fields[path[0]], path[1..])
    else None
  }

  /** Some proper prefix of `path` holds a non-object in `v`, so nothing
      below that prefix can ever be reached in a tree `v` is merged into. */
  predicate Shadowed(v: Value, path: seq<string>)
    decreases |path|
  {
    path != [] && (!v.Obj? || (path[0] in v.fields && Shadowed(v.fields[path[0]], path[1..])))
  }

  /** The reference, path-by-path meaning of a fallback merge: what the merged
      tree holds at `path`, given only what each side holds there. */
  function MergedAt(primary: Value, fallback: Value, path: seq<string>): Option<Value>
  {
    match (Get(primary, path), Get(fallback, path))
    case (Some(x), Some(y)) => Some(WithFallback(x, y))
    case (Some(x), None) => Some(x)
    case (None, Some(y)) => if Shadowed(primary, path) then None else Some(y)
    case (None, None) => None
  }

  /** The merge computed on whole trees agrees, at every key path, with its
      path-wise meaning. */
  lemma {:induction false} GetWithFallback(primary: Value, fallback: Value, path: seq<string>)
    ensures Get(WithFallback(primary, fallback), path) == MergedAt(primary, fallback, path)
    decreases |path|
  {
    if path != [] {
      var k, rest := path[0], path[1..];
      if primary.Obj? && fallback.Obj? {
        if k in primary.fields && k in fallback.fields {
          GetWithFallback(primary.fields[k], fallback.fields[k], rest);
        } else if k in primary.fields {
          assert Get(fallback, path) == None;
        } else if k in fallback.fields {
          assert Get(primary, path) == None && !Shadowed(primary, path);
        }
      }
    }
  }

  /** A path blocked in a merge result was already blocked in one of its sources. */
  lemma {:induction false} ShadowedWithFallback(primary: Value, fallback: Value, path: seq<string>)
    requires Shadowed(WithFallback(primary, fallback), path)
    ensures Shadowed(primary, path) || Shadowed(fallback, path)
    decreases |path|
  {
    var k, rest := path[0], path[1..];
    if primary.Obj? && fallback.Obj? && k in primary.fields && k in fallback.fields {
      ShadowedWithFallback(primary.fields[k], fallback.fields[k], rest);
    }
  }

  /** Every leaf of the primary tree keeps its value after the merge. */
  lemma PrimaryLeafKept(primary: Value, fallback: Value, path: seq<string>, x: Value)
    requires Get(primary, path) == Some(x) && !x.Obj?
    ensures Get(WithFallback(primary, fallback), path) == Some(x)
  {
    GetWithFallback(primary, fallback, path);
  }

  /** A leaf that only the fallback defines, at a path the primary does not
      shadow, is taken from the fallback. */
  lemma FallbackFillsGap(primary: Value, fallback: Value, path: seq<string>, y: Value)
    requires Get(primary, path) == None && !Shadowed(primary, path)
    requires Get(fallback, path) == Some(y)
    ensures Get(WithFallback(primary, fallback), path) == Some(y)
  {
    GetWithFallback(primary, fallback, path);
  }

  /** An object-valued path of the primary stays an object after the merge. */
  lemma PrimaryObjectKept(primary: Value, fallback: Value, path: seq<string>)
    requires Get(primary, path).Some? && Get(primary, path).value.Obj?
    ensures Get(WithFallback(primary, fallback), path).Some?
    ensures Get(WithFallback(primary, fallback), path).value.Obj?
  {
    GetWithFallback(primary, fallback, path);
  }

  /** Merging two trees whose top-level keys are disjoint yields their union. */
  lemma DisjointUnion(primary: Tree, fallback: Tree)
    requires primary.fields.Keys !! fallback.fields.Keys
    ensures WithFallback(primary, fallback) == Obj(primary.fields + fallback.fields)
  {
    var r := WithFallback(primary, fallback);
    assert r.fields == primary.fields + fallback.fields;
  }

  /** `primary` already defines every key path that `fallback` defines. */
  ghost predicate Covers(primary: Value, fallback: Value)
    decreases primary
  {
    primary.Obj? && fallback.Obj? ==>
      forall k :: k in fallback.fields ==>
        k in primary.fields && Covers(primary.fields[k], fallback.fields[k])
  }

  /** A fallback that the primary covers contributes nothing. */
  lemma {:induction false} CoveredFallbackIgnored(primary: Value, fallback: Value)
    requires Covers(primary, fallback)
    ensures WithFallback(primary, fallback) == primary
    decreases primary
  {
    if primary.Obj? && fallback.Obj? {
      var r := WithFallback(primary, fallback);
      forall k | k in fallback.fields
        ensures r.fields[k] == primary.fields[k]
      {
        CoveredFallbackIgnored(primary.fields[k], fallback.fields[k]);
      }
      assert r.fields == primary.fields;
    }
  }

  lemma {:induction false} CoversItself(v: Value)
    ensures Covers(v, v)
    decreases v
  {
    if v.Obj? {
      forall k | k in v.fields ensures Covers(v.fields[k], v.fields[k]) {
        CoversItself(v.fields[k]);
      }
    }
  }

  lemma {:induction false} MergeCoversBoth(a: Value, b: Value)
    ensures Covers(WithFallback(a, b), a)
    ensures Covers(WithFallback(a, b), b)
    decreases a
  {
    var r := WithFallback(a, b);
    CoversItself(a);
    if a.Obj? && b.Obj? {
      forall k | k in a.fields ensures Covers(r.fields[k], a.fields[k]) {
        if k in b.fields { MergeCoversBoth(a.fields[k], b.fields[k]); } else { CoversItself(a.fields[k]); }
      }
      forall k | k in b.fields ensures Covers(r.fields[k], b.fields[k]) {
        if k in a.fields { MergeCoversBoth(a.fields[k], b.fields[k]); } else { CoversItself(b.fields[k]); }
      }
    }
  }

  /** With identical key sets holding leaves, the primary's values win
      throughout: the fallback overrides nothing. */
  lemma SameKeysPrimaryWins(primary: Tree, fallback: Tree)
    requires primary.fields.Keys == fallback.fields.Keys
    requires forall k :: k in primary.fields ==> !primary.fields[k].Obj?
    ensures WithFallback(primary, fallback) == primary
  {
    CoveredFallbackIgnored(primary, fallback);
  }

  /** A tree merged with itself is unchanged. */
  lemma SelfFallback(v: Value)
    ensures WithFallback(v, v) == v
  {
    CoversItself(v);
    CoveredFallbackIgnored(v, v);
  }

  /** Merging a merge result again with either of its sources changes nothing:
      re-applying a fallback that is already in place is harmless. */
  lemma FallbackAbsorbed(a: Value, b: Value)
    ensures WithFallback(WithFallback(a, b), a) == WithFallback(a, b)
    ensures WithFallback(WithFallback(a, b), b) == WithFallback(a, b)
  {
    MergeCoversBoth(a, b);
    CoveredFallbackIgnored(WithFallback(a, b), a);
    CoveredFallbackIgnored(WithFallback(a, b), b);
  }
}
