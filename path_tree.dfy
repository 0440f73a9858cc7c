/**
 * The scope tree of crates/rune/src/path_tree.rs: an arena of path parts
 * (`Vec<PathPart>`) addressed by index, with a cursor `current` that
 * `push_scoped` moves down and a guard's drop moves back up.
 *
 * The value-level functions below specify every operation on a
 * `TreeState`; the class `Tree` holds the same two fields and its methods
 * are proved to leave exactly the state the functions describe.
 */
module PathTrees {
  import opened Wrappers
  import opened Sec
  import opened QualifiedPaths

  /** `TreeUsize::max_value()`: ids and parent ids are `u32`. */
  const TREE_USIZE_MAX: nat := 0xFFFF_FFFF
  const PACKAGE_IDX: nat := 0
  const CRATE_IDX: nat := 1

  datatype PathKind =
    | Package | Crate | File | Mod
    | Use(target: nat)
    | Struct | Enum | TypeAlias | Impl | Fn | Const | Field | Variant
    | Macro | Closure | Block
  {
    predicate IsCrate() { Crate? }
    predicate IsStructOrEnum() { Struct? || Enum? }
    predicate IsFile() { File? }
    predicate IsClosure() { Closure? }
    predicate IsBlock() { Block? }
    predicate IsFunction() { Fn? }
    /** A module scope is a `mod` or the crate itself. */
    predicate IsModule() { Mod? || Crate? }
  }

  datatype PathPart = PathPart(
    id: nat,
    vis: Visibility,
    parent: Option<nat>,
    name: string,
    kind: PathKind,
    children: seq<nat>)

  /** Why a path could not be resolved (the source formats these as messages). */
  datatype Unresolved =
    | FailedAt(path: QualifiedPath, part: string)
    | CouldNotFind(path: QualifiedPath)
    | SuperOf(path: QualifiedPath)
    | TooManySuper
    | NoSelfContext
    | UnresolvedSelfType

  datatype PathTreeError =
    | UnresolvablePath(reason: Unresolved)
    | TooManyPaths(limit: nat)

  function TooManyPathsError(): PathTreeError { TooManyPaths(TREE_USIZE_MAX) }

  /**
   * The arena shape every operation keeps: node 0 is the parentless root,
   * each node's id is its index, every other node has an earlier parent,
   * a `Use` link points to an earlier node, and a registered child lies
   * after its parent and names it as parent.
   */
  ghost predicate WellFormed(s: seq<PathPart>) {
    && |s| > 0
    && s[0].parent.None?
    && (forall i :: 0 <= i < |s| ==> s[i].id == i)
    && (forall i :: 0 < i < |s| ==> s[i].parent.Some? && s[i].parent.value < i)
    && (forall i :: 0 <= i < |s| && s[i].kind.Use? ==> s[i].kind.target < i)
    && (forall i :: 0 <= i < |s| ==> ChildrenBelong(s, i))
  }

  /** Every registered child of node `i` lies after it and names it as parent. */
  ghost predicate ChildrenBelong(s: seq<PathPart>, i: nat)
    requires i < |s|
  {
    forall k :: 0 <= k < |s[i].children| ==>
      i < s[i].children[k] < |s| && s[s[i].children[k]].parent == Some(i)
  }

  datatype TreeState = TreeState(storage: seq<PathPart>, current: nat)

  ghost predicate TreeValid(t: TreeState) {
    WellFormed(t.storage) && t.current < |t.storage|
  }

  type ValidTree = t: TreeState | TreeValid(t) witness TreeState(EmptyParts(), PACKAGE_IDX)

  /** A live `Guard` remembers the index of the node it entered. */
  datatype TreeGuard = TreeGuard(idx: nat)

  // ---------------------------------------------------------------- shapes

  /** `Inner::empty`: only the package root, which is also current. */
  function EmptyParts(): (s: seq<PathPart>)
    ensures WellFormed(s) && |s| == 1 && s[0].kind == Package && s[0].children == []
  {
    [PathPart(0, VisPublic, None, "", Package, [])]
  }

  /** `Inner::with_crate_name`: the root with the crate as its only child. */
  function WithCrateNameParts(name: string): (s: seq<PathPart>)
    ensures WellFormed(s) && |s| == 2
    ensures s[0].kind == Package && s[0].children == [CRATE_IDX]
    ensures s[1].kind == Crate && s[1].name == name && s[1].parent == Some(PACKAGE_IDX)
  {
    [ PathPart(0, VisPublic, None, "", Package, [1]),
      PathPart(1, VisCrate, Some(0), name, Crate, []) ]
  }

  // ------------------------------------------------------------- mutation

  /**
   * `PathTree::push`: appends one node under `parentIdx` without
   * registering it with the parent; fails once the new id or the parent id
   * no longer fits a `u32`.
   */
  function PushNode(s: seq<PathPart>, parentIdx: nat, name: string, kind: PathKind, vis: Visibility)
    : (r: Result<seq<PathPart>, PathTreeError>)
    requires WellFormed(s) && parentIdx < |s| && (kind.Use? ==> kind.target < |s|)
    ensures r.Ok? <==> |s| <= TREE_USIZE_MAX
    ensures r.Err? ==> r.error == TooManyPathsError()
    ensures r.Ok? ==> WellFormed(r.value) && |r.value| == |s| + 1 && r.value[..|s|] == s
    ensures r.Ok? ==> r.value[|s|] == PathPart(|s|, vis, Some(parentIdx), name, kind, [])
  {
    if |s| > TREE_USIZE_MAX || parentIdx > TREE_USIZE_MAX then Err(TooManyPathsError())
    else
      var n := PathPart(|s|, vis, Some(parentIdx), name, kind, []);
      AppendKeepsWellFormed(s, n);
      Ok(s + [n])
  }

  lemma AppendKeepsWellFormed(s: seq<PathPart>, n: PathPart)
    requires WellFormed(s) && n.id == |s| && n.parent.Some? && n.parent.value < |s|
    requires n.kind.Use? ==> n.kind.target < |s|
    requires n.children == []
    ensures WellFormed(s + [n])
  {
    var s' := s + [n];
    forall i | 0 <= i < |s'|
      ensures ChildrenBelong(s', i)
    {
      if i < |s| {
        assert s'[i] == s[i];
        assert ChildrenBelong(s, i);
        forall k | 0 <= k < |s'[i].children|
          ensures s'[s'[i].children[k]] == s[s[i].children[k]]
        {
        }
      }
    }
  }

  lemma RegisterChildKeepsWellFormed(s: seq<PathPart>, at: nat)
    requires WellFormed(s) && |s| > 1 && at < |s| - 1 && s[|s| - 1].parent == Some(at)
    requires forall k :: 0 <= k < |s[at].children| ==> s[at].children[k] < |s| - 1
    ensures WellFormed(s[at := s[at].(children := s[at].children + [|s| - 1])])
  {
    var s' := s[at := s[at].(children := s[at].children + [|s| - 1])];
    forall i | 0 <= i < |s'|
      ensures ChildrenBelong(s', i)
    {
      assert ChildrenBelong(s, i);
      forall k | 0 <= k < |s'[i].children|
        ensures i < s'[i].children[k] < |s'| && s'[s'[i].children[k]].parent == Some(i)
      {
        if i == at && k == |s[at].children| {
        } else {
          assert s'[i].children[k] == s[i].children[k];
        }
      }
    }
  }

  /** `PathRef::append_child`: push under `at`, then register the new id with `at`. */
  function AppendChildNode(s: seq<PathPart>, at: nat, name: string, kind: PathKind, vis: Visibility)
    : (r: Result<seq<PathPart>, PathTreeError>)
    requires WellFormed(s) && at < |s| && (kind.Use? ==> kind.target < |s|)
    ensures r.Ok? <==> |s| <= TREE_USIZE_MAX
    ensures r.Err? ==> r.error == TooManyPathsError()
    ensures r.Ok? ==> WellFormed(r.value) && |r.value| == |s| + 1
    ensures r.Ok? ==> r.value[at].children == s[at].children + [|s|]
    ensures r.Ok? ==> r.value[|s|] == PathPart(|s|, vis, Some(at), name, kind, [])
    ensures r.Ok? ==> forall i :: 0 <= i < |s| && i != at ==> r.value[i] == s[i]
    ensures r.Ok? ==> forall i :: 0 <= i < |s| ==> r.value[i].parent == s[i].parent && r.value[i].name == s[i].name
  {
    match PushNode(s, at, name, kind, vis)
    case Err(e) => Err(e)
    case Ok(s1) =>
      assert ChildrenBelong(s, at);
      assert s1[at] == s[at];
      RegisterChildKeepsWellFormed(s1, at);
      Ok(s1[at := s1[at].(children := s1[at].children + [|s|])])
  }

  /**
   * `PathRef::append_sibling`: push under the parent of `at` (the root when
   * `at` has none) with visibility `None`; the parent's child list is left
   * as it is.
   */
  function AppendSiblingNode(s: seq<PathPart>, at: nat, name: string, kind: PathKind)
    : (r: Result<seq<PathPart>, PathTreeError>)
    requires WellFormed(s) && at < |s| && (kind.Use? ==> kind.target < |s|)
    ensures r.Ok? <==> |s| <= TREE_USIZE_MAX
    ensures r.Ok? ==> WellFormed(r.value) && |r.value| == |s| + 1 && r.value[..|s|] == s
    ensures r.Ok? ==> r.value[|s|].parent == (if at == 0 then Some(0) else s[at].parent)
    ensures r.Ok? ==> r.value[|s|].vis == VisNone && r.value[|s|].name == name
    ensures r.Ok? ==>
      r.value[|s|] == PathPart(|s|, VisNone, Some(if s[at].parent.Some? then s[at].parent.value else 0), name, kind, [])
  {
    var p := if s[at].parent.Some? then s[at].parent.value else 0;
    PushNode(s, p, name, kind, VisNone)
  }

  // ---------------------------------------------------------------- walks

  /** `PathRef::parent`: the parent id, kept only when it names a stored node. */
  function ParentOf(s: seq<PathPart>, i: nat): (r: Option<nat>)
    requires WellFormed(s) && i < |s|
    ensures r.Some? <==> i != 0
    ensures r.Some? ==> r.value < i
  {
    if s[i].parent.Some? && s[i].parent.value < |s| then s[i].parent else None
  }

  /** The node itself followed by its ancestors up to the root. */
  function Ancestors(s: seq<PathPart>, i: nat): (r: seq<nat>)
    requires WellFormed(s) && i < |s|
    ensures |r| > 0 && r[0] == i && r[|r| - 1] == 0
    ensures forall k :: 0 <= k < |r| ==> r[k] < |s|
    decreases i
  {
    match ParentOf(s, i)
    case None => [i]
    case Some(p) => [i] + Ancestors(s, p)
  }

  /** The first module among `xs`, scanning from the front. */
  function FirstModule(s: seq<PathPart>, xs: seq<nat>): Option<nat>
    requires forall k :: 0 <= k < |xs| ==> xs[k] < |s|
  {
    if xs == [] then None
    else if s[xs[0]].kind.IsModule() then Some(xs[0])
    else FirstModule(s, xs[1..])
  }

  /** `PathRef::self_mod`: the nearest module, the node itself included. */
  function SelfModOf(s: seq<PathPart>, i: nat): (r: Option<nat>)
    requires WellFormed(s) && i < |s|
    ensures r.Some? ==> r.value <= i && s[r.value].kind.IsModule()
    decreases i
  {
    if s[i].kind.IsModule() then Some(i)
    else match ParentOf(s, i)
      case None => None
      case Some(p) => SelfModOf(s, p)
  }

  /** `PathRef::parent_mod` (and `super_`): the nearest module strictly above the node. */
  function ParentModOf(s: seq<PathPart>, i: nat): (r: Option<nat>)
    requires WellFormed(s) && i < |s|
    ensures r.Some? ==> r.value < i && s[r.value].kind.IsModule()
    decreases i
  {
    match ParentOf(s, i)
    case None => None
    case Some(p) => if s[p].kind.IsModule() then Some(p) else ParentModOf(s, p)
  }

  /** `PathRef::qualified_path`: the names from the root down to the node. */
  function QualifiedPathOf(s: seq<PathPart>, i: nat): (r: QualifiedPath)
    requires WellFormed(s) && i < |s|
    ensures |r| > 0 && r[|r| - 1] == s[i].name
    decreases i
  {
    match ParentOf(s, i)
    case None => [s[i].name]
    case Some(p) => QualifiedPathOf(s, p) + [s[i].name]
  }

  /**
   * `PathRef::resolve`: follows `Use` links until a node that is not a
   * `Use`, or a `Use` of the root (id 0), which stops the walk.
   */
  function ResolveAlias(s: seq<PathPart>, i: nat): (r: nat)
    requires WellFormed(s) && i < |s|
    ensures r <= i
    ensures !(s[r].kind.Use? && s[r].kind.target != 0)
    decreases i
  {
    if s[i].kind.Use? && s[i].kind.target != 0 then ResolveAlias(s, s[i].kind.target) else i
  }

  // ----------------------------------------------------------------- find

  /** The first of `cs` whose name is `name`. */
  function FirstNamed(s: seq<PathPart>, cs: seq<nat>, name: string): (r: Option<nat>)
    requires forall k :: 0 <= k < |cs| ==> cs[k] < |s|
    ensures r.Some? ==> r.value in cs && s[r.value].name == name
    ensures r.Some? ==> exists k :: 0 <= k < |cs| && cs[k] == r.value && NoneNamedBefore(s, cs, name, k)
    ensures r.None? <==> forall k :: 0 <= k < |cs| ==> s[cs[k]].name != name
  {
    if cs == [] then None
    else if s[cs[0]].name == name then
      assert NoneNamedBefore(s, cs, name, 0);
      Some(cs[0])
    else
      assert forall k :: 0 <= k < |cs[1..]| && NoneNamedBefore(s, cs[1..], name, k) ==>
        cs[k + 1] == cs[1..][k] && NoneNamedBefore(s, cs, name, k + 1);
      FirstNamed(s, cs[1..], name)
  }

  /** No child among the first `k` of `cs` is named `name`. */
  predicate NoneNamedBefore(s: seq<PathPart>, cs: seq<nat>, name: string, k: nat)
    requires k <= |cs| && forall j :: 0 <= j < |cs| ==> cs[j] < |s|
  {
    forall j :: 0 <= j < k ==> s[cs[j]].name != name
  }

  /** The converse: a child named `name` with no such child before it is the one found. */
  lemma {:induction false} FirstNamedIsFirst(s: seq<PathPart>, cs: seq<nat>, name: string, k: nat)
    requires forall j :: 0 <= j < |cs| ==> cs[j] < |s|
    requires k < |cs| && s[cs[k]].name == name && NoneNamedBefore(s, cs, name, k)
    ensures FirstNamed(s, cs, name) == Some(cs[k])
    decreases k
  {
    if k > 0 {
      assert s[cs[0]].name != name;
      assert NoneNamedBefore(s, cs[1..], name, k - 1) by {
        forall j | 0 <= j < k - 1 ensures s[cs[1..][j]].name != name {
          assert cs[1..][j] == cs[j + 1];
        }
      }
      FirstNamedIsFirst(s, cs[1..], name, k - 1);
    }
  }

  lemma ChildrenInRange(s: seq<PathPart>, i: nat)
    requires WellFormed(s) && i < |s|
    ensures forall k :: 0 <= k < |s[i].children| ==> s[i].children[k] < |s|
  {
    assert ChildrenBelong(s, i);
  }

  /** What `find` reports once the component iterator has run dry. */
  function LastOrMissing(q: QualifiedPath, last: Option<nat>): Result<nat, PathTreeError> {
    match last
    case Some(n) => Ok(n)
    case None => Err(UnresolvablePath(CouldNotFind(q)))
  }

  /**
   * The `'depth` loop of `PathTree::find` from cursor `node` with the
   * non-empty components `rest` still unread. A component that matches no
   * child of `node` ends the walk and the error names the component after
   * it; when it was the last one, the result is `last`, which a non-matching
   * child resets but which survives a childless `node`.
   */
  function FindFrom(s: seq<PathPart>, q: QualifiedPath, rest: QualifiedPath, node: nat, last: Option<nat>)
    : (r: Result<nat, PathTreeError>)
    requires WellFormed(s) && node < |s| && (last.Some? ==> last.value < |s|)
    ensures r.Ok? ==> r.value < |s|
    decreases |rest|
  {
    if rest == [] then LastOrMissing(q, last)
    else
      ChildrenInRange(s, node);
      match FirstNamed(s, s[node].children, rest[0])
      case Some(c) => FindFrom(s, q, rest[1..], c, Some(c))
      case None =>
        var last' := if s[node].children == [] then last else None;
        if |rest| > 1 then Err(UnresolvablePath(FailedAt(q, rest[1])))
        else LastOrMissing(q, last')
  }

  /** `PathTree::find`: walk from the root over the non-empty components of `q`. */
  function FindPath(s: seq<PathPart>, q: QualifiedPath): (r: Result<nat, PathTreeError>)
    requires WellFormed(s)
    ensures r.Ok? ==> r.value < |s|
  {
    FindFrom(s, q, NonEmpty(q), PACKAGE_IDX, None)
  }

  // --------------------------------------------------------- scope cursor

  /** `PathTree::self_`: the module enclosing the current scope. */
  function SelfScope(t: ValidTree): (r: Result<nat, PathTreeError>)
    ensures r.Ok? ==> r.value < |t.storage| && t.storage[r.value].kind.IsModule()
    ensures r.Err? <==> SelfModOf(t.storage, t.current).None?
  {
    match SelfModOf(t.storage, t.current)
    case Some(m) => Ok(m)
    case None => Err(UnresolvablePath(NoSelfContext))
  }

  /**
   * `PathTree::super_`: the module above the one enclosing the current
   * scope; a missing `self` context is reported as too many `super`s too.
   */
  function SuperScope(t: ValidTree): (r: Result<nat, PathTreeError>)
    ensures r.Err? ==> r.error == UnresolvablePath(TooManySuper)
    ensures r.Ok? ==> r.value < |t.storage| && t.storage[r.value].kind.IsModule()
  {
    match SelfScope(t)
    case Err(_) => Err(UnresolvablePath(TooManySuper))
    case Ok(m) =>
      match ParentModOf(t.storage, m)
      case Some(p) => Ok(p)
      case None => Err(UnresolvablePath(TooManySuper))
  }

  /** `PathTree::push_scoped`: append a child of the current node and enter it. */
  function PushScopedState(t: ValidTree, name: string, kind: PathKind, vis: Visibility)
    : (r: Result<(ValidTree, TreeGuard), PathTreeError>)
    requires kind.Use? ==> kind.target < |t.storage|
    ensures r.Ok? <==> |t.storage| <= TREE_USIZE_MAX
    ensures r.Ok? ==> var (t', g) := r.value;
      && g.idx == |t.storage| && t'.current == g.idx
      && |t'.storage| == |t.storage| + 1
      && t'.storage[g.idx].parent == Some(t.current) && t'.storage[g.idx].name == name
      && (forall i :: 0 <= i < |t.storage| ==>
            t'.storage[i].parent == t.storage[i].parent && t'.storage[i].name == t.storage[i].name)
  {
    match AppendChildNode(t.storage, t.current, name, kind, vis)
    case Err(e) => Err(e)
    case Ok(s') => Ok((TreeState(s', |t.storage|), TreeGuard(|t.storage|)))
  }

  /** `PathTree::pop`: move `current` to its parent, reporting the node left. */
  function PopState(t: ValidTree): (r: Option<(ValidTree, nat)>)
    ensures r.Some? <==> t.current != PACKAGE_IDX
    ensures r.Some? ==>
      (r.value.1 == t.current && r.value.0.storage == t.storage
       && Some(r.value.0.current) == t.storage[t.current].parent)
  {
    match t.storage[t.current].parent
    case Some(p) => Some((TreeState(t.storage, p), t.current))
    case None => None
  }

  /**
   * Dropping a `Guard`: pops and checks that the node left is the guard's
   * own; the flag is false where the source panics ("path tree was
   * corrupted"), the state then being whatever the pop left.
   */
  function DropGuardState(t: ValidTree, g: TreeGuard): (r: (ValidTree, bool))
    ensures r.1 <==> t.current != PACKAGE_IDX && t.current == g.idx
    ensures r.0.storage == t.storage
    ensures t.current != PACKAGE_IDX ==> Some(r.0.current) == t.storage[t.current].parent
    ensures t.current == PACKAGE_IDX ==> r.0 == t
  {
    match PopState(t)
    case Some((t', dropped)) => (t', dropped == g.idx)
    case None => (t, false)
  }

  // ----------------------------------------------------------- visibility

  /**
   * `PathTree::is_visible_to`: looks the target up first, then the source,
   * resolves both through `Use` links and decides by the target's tag.
   */
  function VisibleTo(s: seq<PathPart>, source: QualifiedPath, target: QualifiedPath)
    : (r: Result<bool, PathTreeError>)
    requires WellFormed(s)
  {
    match FindPath(s, target)
    case Err(e) => Err(e)
    case Ok(t0) =>
      match FindPath(s, source)
      case Err(e) => Err(e)
      case Ok(s0) =>
        var tp := ResolveAlias(s, t0);
        var sp := ResolveAlias(s, s0);
        match s[tp].vis
        case VisNone => Ok(false)
        case VisCrate => Ok(true)
        case VisSuper =>
          (match ParentModOf(s, tp)
           case None => Err(UnresolvablePath(SuperOf(target)))
           case Some(sup) =>
             var superPath := QualifiedPathOf(s, sup);
             var ancestor := CommonAncestor(source, target);
             Ok(superPath == ancestor || IsAncestorOf(superPath, ancestor)))
        case VisPublic => Ok(true)
        case VisPrivate =>
          var ts := SelfModOf(s, tp);
          var ss := SelfModOf(s, sp);
          Ok(ss.Some? && ts.Some? && ss.value == ts.value)
        case VisInherit => Ok(false)
  }

  /** The sequence read from its last element to its first (`Vec::reverse`). */
  function Reversed<T>(xs: seq<T>): (r: seq<T>)
    ensures |r| == |xs|
    ensures |xs| > 0 ==> r[0] == xs[|xs| - 1]
  {
    if xs == [] then [] else [xs[|xs| - 1]] + Reversed(xs[..|xs| - 1])
  }

  /**
   * The `'breadth` loop of `PathTree::find`: scan `children` (the child
   * list of the cursor node) for `part`; every child that does not match
   * resets `last`.
   */
  method ScanChildren(s: seq<PathPart>, children: seq<nat>, part: string, last: Option<nat>)
    returns (matched: Option<nat>, last': Option<nat>)
    requires forall k :: 0 <= k < |children| ==> children[k] < |s|
    ensures matched == FirstNamed(s, children, part)
    ensures matched.None? ==> last' == (if children == [] then last else None)
  {
    last' := last;
    var j := 0;
    matched := None;
    while j < |children|
      invariant j <= |children| && matched.None?
      invariant FirstNamed(s, children[j..], part) == FirstNamed(s, children, part)
      invariant last' == (if j == 0 then last else None)
    {
      assert children[j..] == [children[j]] + children[j + 1..];
      if s[children[j]].name == part {
        matched := Some(children[j]);
        return;
      }
      last' := None;
      j := j + 1;
    }
  }

  // ---------------------------------------------------------------- class

  /**
   * `PathTree` (its shared `Inner`): the node arena and the cursor. Every
   * method is proved to leave the state the functions above describe.
   */
  class Tree {
    var storage: seq<PathPart>
    var current: nat

    ghost predicate Valid()
      reads this
    {
      WellFormed(storage) && current < |storage|
    }

    function State(): ValidTree
      requires Valid()
      reads this
    {
      TreeState(storage, current)
    }

    /** `PathTree::with_crate_name`: the crate node is current. */
    constructor WithCrateName(name: string)
      ensures Valid() && storage == WithCrateNameParts(name) && current == CRATE_IDX
    {
      storage := WithCrateNameParts(name);
      current := CRATE_IDX;
    }

    /** `PathTree::empty`: the package root is current. */
    constructor Empty()
      ensures Valid() && storage == EmptyParts() && current == PACKAGE_IDX
    {
      storage := EmptyParts();
      current := PACKAGE_IDX;
    }

    /** `PathTree::cloned`: a separate tree with copies of both fields. */
    method Cloned() returns (t: Tree)
      requires Valid()
      ensures fresh(t) && t.Valid() && t.storage == storage && t.current == current
    {
      t := new Tree.Empty();
      t.storage := storage;
      t.current := current;
    }

    /** `PathTree::get`: a reference to node `idx` when it is stored. */
    method Get(idx: nat) returns (r: Option<nat>)
      requires Valid()
      ensures r.Some? <==> idx < |storage|
      ensures r.Some? ==> r.value == idx && storage[idx].id == idx
    {
      if idx < |storage| {
        r := Some(idx);
      } else {
        r := None;
      }
    }

    /** `PathTree::push`. */
    method Push(parentIdx: nat, name: string, kind: PathKind, vis: Visibility)
      returns (r: Result<nat, PathTreeError>)
      requires Valid() && parentIdx < |storage| && (kind.Use? ==> kind.target < |storage|)
      modifies this
      ensures Valid() && current == old(current)
      ensures var spec := PushNode(old(storage), parentIdx, name, kind, vis);
        match spec
        case Ok(s') => r == Ok(old(|storage|)) && storage == s'
        case Err(e) => r == Err(e) && storage == old(storage)
    {
      var idx := |storage|;
      if idx > TREE_USIZE_MAX {
        return Err(TooManyPathsError());
      }
      if parentIdx > TREE_USIZE_MAX {
        return Err(TooManyPathsError());
      }
      var part := PathPart(idx, vis, Some(parentIdx), name, kind, []);
      AppendKeepsWellFormed(storage, part);
      storage := storage + [part];
      r := Ok(idx);
    }

    /** `PathRef::append_child` on node `at`. */
    method AppendChild(at: nat, name: string, kind: PathKind, vis: Visibility)
      returns (r: Result<nat, PathTreeError>)
      requires Valid() && at < |storage| && (kind.Use? ==> kind.target < |storage|)
      modifies this
      ensures Valid() && current == old(current)
      ensures var spec := AppendChildNode(old(storage), at, name, kind, vis);
        match spec
        case Ok(s') => r == Ok(old(|storage|)) && storage == s'
        case Err(e) => r == Err(e) && storage == old(storage)
    {
      assert ChildrenBelong(storage, at);
      r := Push(at, name, kind, vis);
      if r.Ok? {
        RegisterChildKeepsWellFormed(storage, at);
        storage := storage[at := storage[at].(children := storage[at].children + [r.value])];
      }
    }

    /** `PathRef::append_sibling` on node `at`. */
    method AppendSibling(at: nat, name: string, kind: PathKind)
      returns (r: Result<nat, PathTreeError>)
      requires Valid() && at < |storage| && (kind.Use? ==> kind.target < |storage|)
      modifies this
      ensures Valid() && current == old(current)
      ensures var spec := AppendSiblingNode(old(storage), at, name, kind);
        match spec
        case Ok(s') => r == Ok(old(|storage|)) && storage == s'
        case Err(e) => r == Err(e) && storage == old(storage)
    {
      var parentIdx := if storage[at].parent.Some? then storage[at].parent.value else 0;
      r := Push(parentIdx, name, kind, VisNone);
    }

    /** `PathTree::push_scoped`. */
    method PushScoped(name: string, kind: PathKind, vis: Visibility)
      returns (r: Result<TreeGuard, PathTreeError>)
      requires Valid() && (kind.Use? ==> kind.target < |storage|)
      modifies this
      ensures Valid()
      ensures var spec := PushScopedState(old(State()), name, kind, vis);
        match spec
        case Ok((t', g)) => r == Ok(g) && State() == t'
        case Err(e) => r == Err(e) && storage == old(storage) && current == old(current)
    {
      var child := AppendChild(current, name, kind, vis);
      match child {
        case Err(e) =>
          r := Err(e);
        case Ok(idx) =>
          current := idx;
          r := Ok(TreeGuard(idx));
      }
    }

    /** `PathTree::pop`. */
    method Pop() returns (r: Option<nat>)
      requires Valid()
      modifies this
      ensures Valid()
      ensures match PopState(old(State()))
        case Some((t', dropped)) => r == Some(dropped) && State() == t'
        case None => r == None && storage == old(storage) && current == old(current)
    {
      var idx := current;
      match storage[idx].parent {
        case Some(p) =>
          current := p;
          r := Some(idx);
        case None =>
          r := None;
      }
    }

    /** Dropping a `Guard`; `ok` is false where the source panics. */
    method DropGuard(g: TreeGuard) returns (ok: bool)
      requires Valid()
      modifies this
      ensures Valid()
      ensures (State(), ok) == DropGuardState(old(State()), g)
    {
      var dropped := Pop();
      match dropped {
        case Some(idx) => ok := idx == g.idx;
        case None => ok := false;
      }
    }

    /** `PathRef::parent` of node `i`. */
    method Parent(i: nat) returns (r: Option<nat>)
      requires Valid() && i < |storage|
      ensures r == ParentOf(storage, i)
    {
      var p := storage[i].parent;
      if p.Some? && p.value < |storage| {
        r := p;
      } else {
        r := None;
      }
    }

    /** `PathRef::parent_mod` of node `i`. */
    method ParentMod(i: nat) returns (r: Option<nat>)
      requires Valid() && i < |storage|
      ensures r == ParentModOf(storage, i)
    {
      var node: nat := i;
      while true
        invariant node < |storage| && ParentModOf(storage, node) == ParentModOf(storage, i)
        decreases node
      {
        var parent := Parent(node);
        if parent.None? {
          return None;
        }
        if storage[parent.value].kind.IsModule() {
          return parent;
        }
        node := parent.value;
      }
    }

    /** `PathRef::self_mod` of node `i`. */
    method SelfMod(i: nat) returns (r: Option<nat>)
      requires Valid() && i < |storage|
      ensures r == SelfModOf(storage, i)
    {
      var node: Option<nat> := Some(i);
      while node.Some?
        invariant node.Some? ==> node.value < |storage| && SelfModOf(storage, node.value) == SelfModOf(storage, i)
        invariant node.None? ==> SelfModOf(storage, i).None?
        decreases if node.Some? then node.value + 1 else 0
      {
        var next := node.value;
        if storage[next].kind.IsModule() {
          return Some(next);
        }
        node := Parent(next);
      }
      r := None;
    }

    /** `PathRef::qualified_path` of node `i`: collect names upwards, then reverse. */
    method QualifiedPath(i: nat) returns (q: QualifiedPath)
      requires Valid() && i < |storage|
      ensures q == QualifiedPathOf(storage, i)
    {
      var node: nat := i;
      var parts := [storage[node].name];
      var parent := Parent(node);
      while parent.Some?
        invariant node < |storage| && parent == ParentOf(storage, node)
        invariant |parts| > 0 && parts[|parts| - 1] == storage[node].name
        invariant QualifiedPathOf(storage, node) + Reversed(parts)[1..] == QualifiedPathOf(storage, i)
        decreases node
      {
        var p := parent.value;
        var parts' := parts + [storage[p].name];
        assert parts'[..|parts|] == parts;
        assert Reversed(parts') == [storage[p].name] + Reversed(parts);
        assert Reversed(parts) == [storage[node].name] + Reversed(parts)[1..];
        parts := parts';
        node := p;
        parent := Parent(node);
      }
      assert Reversed(parts) == [storage[node].name] + Reversed(parts)[1..];
      q := Reversed(parts);
    }

    /** `PathRef::resolve` of node `i`. */
    method Resolve(i: nat) returns (r: nat)
      requires Valid() && i < |storage|
      ensures r == ResolveAlias(storage, i)
    {
      var node: nat := i;
      while storage[node].kind.Use?
        invariant node < |storage| && ResolveAlias(storage, node) == ResolveAlias(storage, i)
        decreases node
      {
        var idx := storage[node].kind.target;
        if idx == 0 {
          break;
        }
        node := idx;
      }
      r := node;
    }

    /** `PathTree::find`. */
    method Find(q: QualifiedPath) returns (r: Result<nat, PathTreeError>)
      requires Valid()
      ensures r == FindPath(storage, q)
    {
      var rest := NonEmpty(q);
      var node: nat := PACKAGE_IDX;
      var last: Option<nat> := None;
      while rest != []
        invariant node < |storage| && (last.Some? ==> last.value < |storage|)
        invariant FindFrom(storage, q, rest, node, last) == FindPath(storage, q)
        decreases |rest|
      {
        var part := rest[0];
        ChildrenInRange(storage, node);
        var matched;
        matched, last := ScanChildren(storage, storage[node].children, part, last);
        rest := rest[1..];
        if matched.None? {
          if rest != [] {
            return Err(UnresolvablePath(FailedAt(q, rest[0])));
          }
          return LastOrMissing(q, last);
        }
        node := matched.value;
        last := matched;
      }
      r := LastOrMissing(q, last);
    }

    /** `PathTree::self_type`: the most recently pushed struct or enum. */
    method SelfType() returns (r: Result<nat, PathTreeError>)
      requires Valid()
      ensures r.Ok? ==> r.value < |storage| && storage[r.value].kind.IsStructOrEnum()
      ensures r.Ok? ==> forall j :: r.value < j < |storage| ==> !storage[j].kind.IsStructOrEnum()
      ensures r.Err? ==> r.error == UnresolvablePath(UnresolvedSelfType)
      ensures r.Err? ==> forall j :: 0 <= j < |storage| ==> !storage[j].kind.IsStructOrEnum()
    {
      var k: nat := |storage|;
      while k > 0
        invariant k <= |storage|
        invariant forall j :: k <= j < |storage| ==> !storage[j].kind.IsStructOrEnum()
      {
        k := k - 1;
        if storage[k].kind.IsStructOrEnum() {
          return Ok(storage[k].id);
        }
      }
      r := Err(UnresolvablePath(UnresolvedSelfType));
    }

    /** `PathTree::self_`. */
    method Self_() returns (r: Result<nat, PathTreeError>)
      requires Valid()
      ensures r == SelfScope(State())
    {
      var m := SelfMod(current);
      if m.None? {
        return Err(UnresolvablePath(NoSelfContext));
      }
      r := Ok(m.value);
    }

    /** `PathTree::super_`. */
    method Super_() returns (r: Result<nat, PathTreeError>)
      requires Valid()
      ensures r == SuperScope(State())
    {
      var m := Self_();
      if m.Err? {
        return Err(UnresolvablePath(TooManySuper));
      }
      var p := ParentMod(m.value);
      if p.None? {
        return Err(UnresolvablePath(TooManySuper));
      }
      r := Ok(p.value);
    }

    /** `PathTree::is_visible_to`. */
    method IsVisibleTo(source: QualifiedPath, target: QualifiedPath) returns (r: Result<bool, PathTreeError>)
      requires Valid()
      ensures r == VisibleTo(storage, source, target)
    {
      var t0 := Find(target);
      if t0.Err? {
        return Err(t0.error);
      }
      var targetPath := Resolve(t0.value);
      var s0 := Find(source);
      if s0.Err? {
        return Err(s0.error);
      }
      var sourcePath := Resolve(s0.value);
      match storage[targetPath].vis {
        case VisNone => r := Ok(false);
        case VisCrate => r := Ok(true);
        case VisSuper =>
          var sup := ParentMod(targetPath);
          if sup.None? {
            return Err(UnresolvablePath(SuperOf(target)));
          }
          var superPath := QualifiedPath(sup.value);
          var ancestor := CommonAncestor(source, target);
          r := Ok(superPath == ancestor || IsAncestorOf(superPath, ancestor));
        case VisPublic => r := Ok(true);
        case VisPrivate =>
          var targetSelf := SelfMod(targetPath);
          var sourceSelf := SelfMod(sourcePath);
          r := Ok(sourceSelf.Some? && targetSelf.Some? && sourceSelf.value == targetSelf.value);
        case VisInherit => r := Ok(false);
      }
    }
  }
}
