/** The visibility tag (`sec::Visibility`) stored on every scope-tree node. */
module Sec {
  datatype Visibility = VisNone | VisCrate | VisSuper | VisPublic | VisPrivate | VisInherit
}

/** The older, path-based visibility predicate of crates/rune/src/sec/vis.rs. */
module SecVis {
  import opened Components

  /** `Vis`: the visibility argument of the older predicate. */
  datatype Vis = None | Pub | Super | Crate | Path(within: Item)

  /**
   * `paths_eq`: walks both component iterators in step; false on the first
   * difference or when only one runs out.
   */
  function PathsEq(source: Item, target: Item): (r: bool)
    ensures r <==> source == target
  {
    if source == [] then target == []
    else if target == [] then false
    else if source[0] != target[0] then false
    else
      assert source == [source[0]] + source[1..] && target == [target[0]] + target[1..];
      PathsEq(source[1..], target[1..])
  }

  /**
   * `is_ancestor`: the source repeats the loop of `paths_eq` verbatim, so it
   * decides component-wise equality, not ancestry.
   */
  function IsAncestor(source: Item, target: Item): bool {
    PathsEq(source, target)
  }

  /** `is_parent`: the same loop again, so again equality. */
  function IsParent(source: Item, target: Item): bool {
    PathsEq(source, target)
  }

  /** `is_same_crate`: compares only the first components, which must both be names. */
  function IsSameCrate(source: Item, target: Item): bool {
    if source == [] && target == [] then true
    else if source != [] && target != [] && source[0].String? && target[0].String? then
      source[0].name == target[0].name
    else false
  }

  /** `is_visible_to`: decides by the visibility argument alone. */
  function IsVisibleTo(source: Item, target: Item, vis: Vis): bool {
    match vis
    case Pub => true
    case None => PathsEq(source, target)
    case Super => false
    case Crate => IsSameCrate(source, target)
    case Path(_) => false
  }

  lemma PubAlwaysVisible(source: Item, target: Item)
    ensures IsVisibleTo(source, target, Pub)
  {
  }

  /** Under `Vis::None` an item is visible only from exactly its own path. */
  lemma NoneVisibleIffSamePath(source: Item, target: Item)
    ensures IsVisibleTo(source, target, None) <==> source == target
  {
  }

  lemma SuperAndPathNeverVisible(source: Item, target: Item, within: Item)
    ensures !IsVisibleTo(source, target, Super)
    ensures !IsVisibleTo(source, target, Path(within))
  {
  }

  /** Under `Vis::Crate`: both first components are equal names, or both items are empty. */
  lemma CrateVisibleIffSameFirstName(source: Item, target: Item)
    ensures IsVisibleTo(source, target, Crate) <==>
      (source == [] && target == []) ||
      (source != [] && target != [] && source[0].String? && target[0] == source[0])
  {
  }

  /** `paths_eq` is reflexive and symmetric, and false when the lengths differ. */
  lemma PathsEqProperties(a: Item, b: Item)
    ensures PathsEq(a, a)
    ensures PathsEq(a, b) == PathsEq(b, a)
    ensures |a| != |b| ==> !PathsEq(a, b)
  {
  }

  /** `is_ancestor` and `is_parent` decide exactly what `paths_eq` decides. */
  lemma AncestorAndParentAreEquality(a: Item, b: Item)
    ensures IsAncestor(a, b) <==> a == b
    ensures IsParent(a, b) <==> a == b
  {
  }

  /** The unit tests `test_vis_pub` and `test_vis_none`. */
  lemma VisTests()
    ensures IsVisibleTo([], [], Pub)
    ensures IsVisibleTo([String("a"), String("b"), String("c")], [String("a"), String("b")], Pub)
    ensures IsVisibleTo([], [], None)
    ensures IsVisibleTo([String("a")], [String("a")], None)
    ensures IsVisibleTo([String("a"), String("b"), String("c")], [String("a"), String("b"), String("c")], None)
    ensures !IsVisibleTo([String("a"), String("b"), String("c")], [String("a"), String("b")], None)
  {
  }
}
