/**
 * The item path builder of crates/rune/src/items.rs: a stack of components,
 * each with a counter that numbers its anonymous children, kept in step
 * with a scope tree whose cursor follows the stack.
 */
module ItemPaths {
  import opened Wrappers
  import opened Sec
  import opened Components
  import opened QualifiedPaths
  import opened PathTrees
  import opened PathTreeLemmas

  /** One stack entry: the component and how many anonymous children it has numbered. */
  datatype Node = Node(children: nat, component: Component)

  datatype ItemsState = ItemsState(path: seq<Node>, tree: ValidTree)

  /** An items `Guard`: pops one component, and one tree level when it holds a tree guard. */
  datatype ItemsGuard = ItemsGuard(treeGuard: Option<TreeGuard>)

  /** The four anonymous pushes. */
  datatype Anonymous = AnonBlock | AnonClosure | AnonAsyncBlock | AnonMacro
  {
    function ComponentFor(index: nat): (c: Component)
      ensures c.IsNumbered()
    {
      match this
      case AnonBlock => Component.Block(index)
      case AnonClosure => Component.Closure(index)
      case AnonAsyncBlock => AsyncBlock(index)
      case AnonMacro => Component.Macro(index)
    }

    /** The tree kind pushed alongside; a macro gets no tree node. */
    function TreeKind(): Option<PathKind> {
      match this
      case AnonBlock => Some(PathKind.Block)
      case AnonClosure => Some(PathKind.Closure)
      case AnonAsyncBlock => Some(PathKind.Block)
      case AnonMacro => None
    }
  }

  /** The scope `Items::new` pushes for a base component. */
  datatype BaseScope = BaseScope(name: string, kind: PathKind, vis: Visibility)

  function BaseScopeOf(c: Component): (r: BaseScope)
    ensures r.name == ComponentString(c) && !r.kind.Use?
  {
    if c.String? then BaseScope(c.name, Mod, VisPublic)
    else BaseScope(DecimalString(c.index), PathKind.Block, VisNone)
  }

  /**
   * The tree `Items::new` builds: one scope per base component, pushed in
   * order with the guards forgotten, so each scope is a child of the one
   * before it and the cursor stays on the deepest.
   */
  function BaseTree(base: seq<Component>): (t: ValidTree)
    requires |base| <= TREE_USIZE_MAX
    ensures |t.storage| == |base| + 1 && t.current == |base| && t.storage[0].name == ""
    ensures forall i :: 0 < i < |t.storage| ==>
      t.storage[i].parent == Some(i - 1) && t.storage[i].name == ComponentString(base[i - 1])
    decreases |base|
  {
    if base == [] then TreeState(EmptyParts(), PACKAGE_IDX)
    else
      var t0 := BaseTree(base[..|base| - 1]);
      var sc := BaseScopeOf(base[|base| - 1]);
      match PushScopedState(t0, sc.name, sc.kind, sc.vis)
      case Ok((t1, _)) => ChainExtends(t0.storage, t1.storage, base); t1
      case Err(_) => assert false; t0
  }

  /** Appending a child of the last node, named by the next component, extends the chain. */
  lemma ChainExtends(s: seq<PathPart>, s': seq<PathPart>, base: seq<Component>)
    requires |base| > 0 && |s| == |base| && |s'| == |s| + 1
    requires forall i :: 0 < i < |s| ==>
      s[i].parent == Some(i - 1) && s[i].name == ComponentString(base[..|base| - 1][i - 1])
    requires s'[|s|].parent == Some(|s| - 1) && s'[|s|].name == ComponentString(base[|base| - 1])
    requires forall i :: 0 <= i < |s| ==> s'[i].parent == s[i].parent && s'[i].name == s[i].name
    ensures forall i :: 0 < i < |s'| ==> s'[i].parent == Some(i - 1) && s'[i].name == ComponentString(base[i - 1])
  {
    forall i | 0 < i < |s'|
      ensures s'[i].parent == Some(i - 1) && s'[i].name == ComponentString(base[i - 1])
    {
      if i < |s| {
        assert base[..|base| - 1][i - 1] == base[i - 1];
      }
    }
  }

  /** One more base component is one more `push_scoped` on the tree built so far. */
  lemma BaseTreeSnoc(base: seq<Component>, k: nat)
    requires k < |base| <= TREE_USIZE_MAX
    ensures var sc := BaseScopeOf(base[k]);
      PushScopedState(BaseTree(base[..k]), sc.name, sc.kind, sc.vis).Ok?
      && PushScopedState(BaseTree(base[..k]), sc.name, sc.kind, sc.vis).value.0 == BaseTree(base[..k + 1])
  {
    assert base[..k + 1][..k] == base[..k];
  }

  lemma FromItemSnoc(init: Item, c: Component)
    ensures FromItem(init + [c]) == FromItem(init) + [ComponentString(c)]
  {
    var a := FromItem(init + [c]);
    var b := FromItem(init) + [ComponentString(c)];
    forall i | 0 <= i < |a|
      ensures a[i] == b[i]
    {
      if i < |init| {
        assert (init + [c])[i] == init[i];
      }
    }
  }

  /** Along a chain of scopes named after `base`, node `i` spells the first `i` components. */
  lemma {:induction false} ChainPath(s: seq<PathPart>, base: seq<Component>, i: nat)
    requires WellFormed(s) && |s| == |base| + 1 && i < |s|
    requires forall j :: 0 < j < |s| ==> s[j].parent == Some(j - 1) && s[j].name == ComponentString(base[j - 1])
    ensures |QualifiedPathOf(s, i)| == i + 1 && QualifiedPathOf(s, i)[0] == s[0].name
    ensures forall k :: 0 <= k < i ==> QualifiedPathOf(s, i)[k + 1] == ComponentString(base[k])
    decreases i
  {
    if i > 0 {
      ChainPath(s, base, i - 1);
      assert ParentOf(s, i) == Some(i - 1);
    }
  }

  /** The last node of such a chain spells the whole item under the root's name. */
  lemma ChainEndPath(s: seq<PathPart>, base: seq<Component>)
    requires WellFormed(s) && |s| == |base| + 1
    requires forall j :: 0 < j < |s| ==> s[j].parent == Some(j - 1) && s[j].name == ComponentString(base[j - 1])
    ensures QualifiedPathOf(s, |base|) == [s[0].name] + FromItem(base)
  {
    ChainPath(s, base, |base|);
    var q := QualifiedPathOf(s, |base|);
    forall k | 0 <= k < |q|
      ensures q[k] == ([s[0].name] + FromItem(base))[k]
    {
      if k > 0 {
        assert q[(k - 1) + 1] == ComponentString(base[k - 1]);
      }
    }
  }

  /** After `Items::new`, the tree cursor's path is the base item under the empty root name. */
  lemma NewItemsCursorPath(base: seq<Component>)
    requires |base| <= TREE_USIZE_MAX
    ensures var t := NewItemsState(base).tree;
      QualifiedPathOf(t.storage, t.current) == [""] + FromItem(base)
  {
    var t := NewItemsState(base).tree;
    ChainEndPath(t.storage, base);
  }

  function FreshNodes(base: seq<Component>): (r: seq<Node>)
    ensures |r| == |base|
    ensures forall i :: 0 <= i < |base| ==> r[i] == Node(0, base[i])
  {
    seq(|base|, i requires 0 <= i < |base| => Node(0, base[i]))
  }

  /** `Items::item`: the components of the stack, bottom first. */
  function ItemOf(st: ItemsState): (r: Item)
    ensures |r| == |st.path| && forall i :: 0 <= i < |r| ==> r[i] == st.path[i].component
  {
    seq(|st.path|, i requires 0 <= i < |st.path| => st.path[i].component)
  }

  /** `Items::new`. */
  function NewItemsState(base: seq<Component>): (st: ItemsState)
    requires |base| <= TREE_USIZE_MAX
    ensures ItemOf(st) == base
    ensures forall i :: 0 <= i < |st.path| ==> st.path[i].children == 0
    ensures |st.tree.storage| == |base| + 1 && st.tree.current == |base|
    ensures forall i :: 0 < i < |st.tree.storage| ==>
      st.tree.storage[i].parent == Some(i - 1) && st.tree.storage[i].name == ComponentString(base[i - 1])
  {
    ItemsState(FreshNodes(base), BaseTree(base))
  }

  /**
   * `Items::next_child`: hands out the top node's counter and advances it
   * by one; with an empty stack it hands out 0 and changes nothing.
   */
  function NextChildState(st: ItemsState): (r: (nat, ItemsState))
    ensures r.1.tree == st.tree && |r.1.path| == |st.path|
    ensures st.path == [] ==> r == (0, st)
    ensures st.path != [] ==>
      var n := |st.path| - 1;
      && r.0 == st.path[n].children
      && r.1.path[n] == st.path[n].(children := st.path[n].children + 1)
      && r.1.path[..n] == st.path[..n]
  {
    if st.path == [] then (0, st)
    else
      var n := |st.path| - 1;
      (st.path[n].children, st.(path := st.path[n := st.path[n].(children := st.path[n].children + 1)]))
  }

  /**
   * `push_block`, `push_closure`, `push_async_block` and `push_macro`:
   * number the component with the next sibling index; all but the macro
   * also enter a tree scope named by that index, with visibility `None`.
   * A failed tree push panics in the source, hence the size requirement.
   */
  function PushAnonymousState(st: ItemsState, a: Anonymous): (r: (ItemsState, ItemsGuard))
    requires a.TreeKind().Some? ==> |st.tree.storage| <= TREE_USIZE_MAX
    ensures var (idx, st1) := NextChildState(st);
      && r.0.path == st1.path + [Node(0, a.ComponentFor(idx))]
      && (a.TreeKind().None? ==> r.0.tree == st.tree && r.1 == ItemsGuard(None))
      && (a.TreeKind().Some? ==>
            && r.1.treeGuard.Some?
            && PushScopedState(st.tree, DecimalString(idx), a.TreeKind().value, VisNone) == Ok((r.0.tree, r.1.treeGuard.value)))
  {
    var (idx, st1) := NextChildState(st);
    var path' := st1.path + [Node(0, a.ComponentFor(idx))];
    match a.TreeKind()
    case None => (ItemsState(path', st1.tree), ItemsGuard(None))
    case Some(kind) =>
      match PushScopedState(st1.tree, DecimalString(idx), kind, VisNone)
      case Ok((t', g)) => (ItemsState(path', t'), ItemsGuard(Some(g)))
      case Err(_) => assert false; (st, ItemsGuard(None))
  }

  /**
   * `push_named_kind` (behind `push_mod` … `push_variant`): a `String`
   * component with a fresh counter, and a tree scope of the given kind and
   * visibility; no sibling index is consumed.
   */
  function PushNamedState(st: ItemsState, name: string, kind: PathKind, vis: Visibility): (r: (ItemsState, ItemsGuard))
    requires |st.tree.storage| <= TREE_USIZE_MAX && !kind.Use?
    ensures r.0.path == st.path + [Node(0, String(name))]
    ensures r.1.treeGuard.Some?
    ensures PushScopedState(st.tree, name, kind, vis) == Ok((r.0.tree, r.1.treeGuard.value))
  {
    match PushScopedState(st.tree, name, kind, vis)
    case Ok((t', g)) => (ItemsState(st.path + [Node(0, String(name))], t'), ItemsGuard(Some(g)))
    case Err(_) => assert false; (st, ItemsGuard(None))
  }

  /** `Items::pop`: remove and return the top component, if any. */
  function PopComponentState(st: ItemsState): (r: (Option<Component>, ItemsState))
    ensures r.1.tree == st.tree
    ensures st.path == [] ==> r == (None, st)
    ensures st.path != [] ==>
      r.0 == Some(st.path[|st.path| - 1].component) && ItemOf(r.1) + [r.0.value] == ItemOf(st)
  {
    if st.path == [] then (None, st)
    else
      var r := (Some(st.path[|st.path| - 1].component), st.(path := st.path[..|st.path| - 1]));
      assert ItemOf(r.1) + [r.0.value] == ItemOf(st);
      r
  }

  /**
   * Dropping an items `Guard`: pop one stack entry (its absence fails a
   * debug assertion), then drop the tree guard if there is one. The flag
   * is false where either check fails.
   */
  function DropItemsGuardState(st: ItemsState, g: ItemsGuard): (r: (ItemsState, bool))
    ensures r.0.path == if st.path == [] then [] else st.path[..|st.path| - 1]
    ensures g.treeGuard.None? ==> r == (ItemsState(r.0.path, st.tree), st.path != [])
    ensures g.treeGuard.Some? ==>
      var (t', ok) := DropGuardState(st.tree, g.treeGuard.value);
      r == (ItemsState(r.0.path, t'), st.path != [] && ok)
  {
    var path' := if st.path == [] then [] else st.path[..|st.path| - 1];
    match g.treeGuard
    case None => (ItemsState(path', st.tree), st.path != [])
    case Some(tg) =>
      var (t', ok) := DropGuardState(st.tree, tg);
      (ItemsState(path', t'), st.path != [] && ok)
  }

  /** `Items::self_`: the qualified path of the module enclosing the cursor. */
  function SelfPath(st: ItemsState): Result<QualifiedPath, PathTreeError> {
    match SelfScope(st.tree)
    case Ok(m) => Ok(QualifiedPathOf(st.tree.storage, m))
    case Err(e) => Err(e)
  }

  /** `Items::super_`: the qualified path of the module above that one. */
  function SuperPath(st: ItemsState): Result<QualifiedPath, PathTreeError> {
    match SuperScope(st.tree)
    case Ok(m) => Ok(QualifiedPathOf(st.tree.storage, m))
    case Err(e) => Err(e)
  }

  // ---------------------------------------------------------------- lemmas

  /**
   * A named push followed by its guard's drop leaves the stack exactly as
   * it was (no counter consumed) and the cursor back where it was.
   */
  lemma NamedPushThenDropRestores(st: ItemsState, name: string, kind: PathKind, vis: Visibility)
    requires |st.tree.storage| <= TREE_USIZE_MAX && !kind.Use?
    ensures var (st1, g) := PushNamedState(st, name, kind, vis);
      var (st2, ok) := DropItemsGuardState(st1, g);
      ok && st2.path == st.path && st2.tree.current == st.tree.current
  {
    var (st1, g) := PushNamedState(st, name, kind, vis);
    assert st1.path[..|st1.path| - 1] == st.path;
    PushScopedThenDrop(st.tree, name, kind, vis);
  }

  /**
   * An anonymous push followed by its guard's drop leaves the same
   * components on the stack and the cursor back where it was, but the top
   * node's counter has advanced by exactly one.
   */
  lemma AnonymousPushThenDropAdvancesCounter(st: ItemsState, a: Anonymous)
    requires |st.tree.storage| <= TREE_USIZE_MAX
    ensures var (st1, g) := PushAnonymousState(st, a);
      var (st2, ok) := DropItemsGuardState(st1, g);
      && ok
      && st2.path == NextChildState(st).1.path
      && ItemOf(st2) == ItemOf(st)
      && st2.tree.current == st.tree.current
  {
    var (idx, stn) := NextChildState(st);
    var (st1, g) := PushAnonymousState(st, a);
    assert st1.path[..|st1.path| - 1] == stn.path;
    if a.TreeKind().Some? {
      PushScopedThenDrop(st.tree, DecimalString(idx), a.TreeKind().value, VisNone);
    }
    var (st2, ok) := DropItemsGuardState(st1, g);
    assert ItemOf(st2) == ItemOf(st) by {
      forall i | 0 <= i < |st.path|
        ensures st2.path[i].component == st.path[i].component
      {
        if i < |st.path| - 1 {
          assert st2.path[i] == stn.path[..|st.path| - 1][i];
        }
      }
    }
  }

  /**
   * Two anonymous scopes opened one after the other under the same
   * non-empty stack get consecutive indices, so their tree names differ.
   */
  lemma SiblingsGetConsecutiveIndices(st: ItemsState, a: Anonymous, b: Anonymous)
    requires |st.tree.storage| < TREE_USIZE_MAX && st.path != []
    ensures var (st1, g) := PushAnonymousState(st, a);
      var (st2, _) := DropItemsGuardState(st1, g);
      var first := NextChildState(st).0;
      var second := NextChildState(st2).0;
      && second == first + 1
      && DecimalString(first) != DecimalString(second)
  {
    var (st1, g) := PushAnonymousState(st, a);
    assert st1.path[..|st1.path| - 1] == NextChildState(st).1.path;
    var first := NextChildState(st).0;
    if DecimalString(first) == DecimalString(first + 1) {
      DecimalInjective(first, first + 1);
    }
  }

  /** With an empty stack every anonymous push is numbered 0: the counter lives on the top node. */
  lemma EmptyStackReusesIndexZero(st: ItemsState, a: Anonymous)
    requires |st.tree.storage| <= TREE_USIZE_MAX && st.path == []
    ensures PushAnonymousState(st, a).0.path == [Node(0, a.ComponentFor(0))]
    ensures var (st1, g) := PushAnonymousState(st, a);
      DropItemsGuardState(st1, g).0.path == []
  {
  }

  /** Handing out a sibling index leaves the item unchanged. */
  lemma NextChildKeepsItem(st: ItemsState)
    ensures ItemOf(NextChildState(st).1) == ItemOf(st)
  {
    var stn := NextChildState(st).1;
    if st.path != [] {
      var n := |st.path| - 1;
      forall i | 0 <= i < |st.path|
        ensures stn.path[i].component == st.path[i].component
      {
        if i < n {
          assert stn.path[i] == stn.path[..n][i];
        }
      }
    }
  }

  /** A named push adds exactly its `String` component at the top of the item. */
  lemma PushNamedExtendsItem(st: ItemsState, name: string, kind: PathKind, vis: Visibility)
    requires |st.tree.storage| <= TREE_USIZE_MAX && !kind.Use?
    ensures ItemOf(PushNamedState(st, name, kind, vis).0) == ItemOf(st) + [String(name)]
  {
  }

  /** An anonymous push adds exactly its numbered component at the top of the item. */
  lemma PushAnonymousExtendsItem(st: ItemsState, a: Anonymous)
    requires a.TreeKind().Some? ==> |st.tree.storage| <= TREE_USIZE_MAX
    ensures ItemOf(PushAnonymousState(st, a).0) == ItemOf(st) + [a.ComponentFor(NextChildState(st).0)]
  {
    NextChildKeepsItem(st);
    var st1 := PushAnonymousState(st, a).0;
    var stn := NextChildState(st).1;
    assert st1.path == stn.path + [Node(0, a.ComponentFor(NextChildState(st).0))];
    assert ItemOf(st1) == ItemOf(stn) + [a.ComponentFor(NextChildState(st).0)];
  }

  // ----------------------------------------------------------------- class

  /** One step of `Items::new`: the scope for `base[k]`, whose guard is dropped. */
  method PushBaseScope(t: Tree, base: seq<Component>, k: nat)
    requires k < |base| <= TREE_USIZE_MAX
    requires t.Valid() && t.State() == BaseTree(base[..k])
    modifies t
    ensures t.Valid() && t.State() == BaseTree(base[..k + 1])
  {
    var sc := BaseScopeOf(base[k]);
    BaseTreeSnoc(base, k);
    var g := t.PushScoped(sc.name, sc.kind, sc.vis);
  }

  lemma FreshNodesSnoc(base: seq<Component>, k: nat)
    requires k < |base|
    ensures FreshNodes(base[..k + 1]) == FreshNodes(base[..k]) + [Node(0, base[k])]
  {
    var a := FreshNodes(base[..k + 1]);
    var b := FreshNodes(base[..k]) + [Node(0, base[k])];
    assert |a| == |b|;
    forall i | 0 <= i < |a| ensures a[i] == b[i] {
      if i < k {
        assert base[..k + 1][i] == base[..k][i];
      }
    }
  }

  /** The loop of `Items::new`: one scope and one fresh node per base component. */
  method BuildBase(base: seq<Component>) returns (t: Tree, p: seq<Node>)
    requires |base| <= TREE_USIZE_MAX
    ensures fresh(t) && t.Valid() && t.State() == BaseTree(base) && p == FreshNodes(base)
    ensures ItemsState(p, t.State()) == NewItemsState(base)
  {
    t := new Tree.Empty();
    p := [];
    var k := 0;
    while k < |base|
      invariant k <= |base| && t.Valid() && fresh(t)
      invariant t.State() == BaseTree(base[..k])
      invariant p == FreshNodes(base[..k])
    {
      PushBaseScope(t, base, k);
      FreshNodesSnoc(base, k);
      p := p + [Node(0, base[k])];
      k := k + 1;
    }
    assert base[..k] == base;
  }

  /** `Items`: the component stack and its scope tree. */
  class Items {
    var path: seq<Node>
    var tree: Tree

    ghost predicate Valid()
      reads this, tree
    {
      tree.Valid()
    }

    function State(): ItemsState
      requires Valid()
      reads this, tree
    {
      ItemsState(path, tree.State())
    }

    /** `Items::new`: push a scope per base component and forget the guards. */
    constructor New(base: seq<Component>)
      requires |base| <= TREE_USIZE_MAX
      ensures Valid() && fresh(tree) && State() == NewItemsState(base)
    {
      var t, p := BuildBase(base);
      path := p;
      tree := t;
    }

    /** `Items::crate_`: the name of node 1; the source panics when there is none. */
    method CrateName() returns (r: Option<string>)
      requires Valid()
      ensures r.Some? <==> CRATE_IDX < |tree.storage|
      ensures r.Some? ==> r.value == tree.storage[CRATE_IDX].name
    {
      if CRATE_IDX < |tree.storage| {
        r := Some(tree.storage[CRATE_IDX].name);
      } else {
        r := None;
      }
    }

    /** `Items::self_`. */
    method Self_() returns (r: Result<QualifiedPath, PathTreeError>)
      requires Valid()
      ensures r == SelfPath(State())
    {
      var m := tree.Self_();
      match m {
        case Ok(idx) =>
          var q := tree.QualifiedPath(idx);
          r := Ok(q);
        case Err(e) => r := Err(e);
      }
    }

    /** `Items::super_`. */
    method Super_() returns (r: Result<QualifiedPath, PathTreeError>)
      requires Valid()
      ensures r == SuperPath(State())
    {
      var m := tree.Super_();
      match m {
        case Ok(idx) =>
          var q := tree.QualifiedPath(idx);
          r := Ok(q);
        case Err(e) => r := Err(e);
      }
    }

    /** `Items::snapshot`: independent copies of the stack and the tree, cursor included. */
    method Snapshot() returns (s: Items)
      requires Valid()
      ensures fresh(s) && fresh(s.tree) && s.Valid() && s.State() == State()
    {
      s := new Items.New([]);
      var t := tree.Cloned();
      s.path := path;
      s.tree := t;
    }

    /** `Items::find`. */
    method Find(q: QualifiedPath) returns (r: Result<nat, PathTreeError>)
      requires Valid()
      ensures r == FindPath(tree.storage, q)
    {
      r := tree.Find(q);
    }

    /** `Items::is_empty`. */
    method IsEmpty() returns (b: bool)
      requires Valid()
      ensures b <==> ItemOf(State()) == []
    {
      b := path == [];
    }

    /** `Items::next_child`. */
    method NextChild() returns (idx: nat)
      requires Valid()
      modifies this
      ensures Valid() && tree == old(tree)
      ensures (idx, State()) == NextChildState(old(State()))
    {
      if path == [] {
        return 0;
      }
      var n := |path| - 1;
      idx := path[n].children;
      path := path[n := path[n].(children := idx + 1)];
    }

    method PushAnonymous(a: Anonymous) returns (g: ItemsGuard)
      requires Valid() && |tree.storage| <= TREE_USIZE_MAX
      modifies this, tree
      ensures Valid() && tree == old(tree)
      ensures (State(), g) == PushAnonymousState(old(State()), a)
    {
      var index := NextChild();
      path := path + [Node(0, a.ComponentFor(index))];
      match a.TreeKind() {
        case None =>
          g := ItemsGuard(None);
        case Some(kind) =>
          var r := tree.PushScoped(DecimalString(index), kind, VisNone);
          if r.Err? {
            assert false;
          }
          g := ItemsGuard(Some(r.value));
      }
    }

    /** `Items::push_block`. */
    method PushBlock() returns (g: ItemsGuard)
      requires Valid() && |tree.storage| <= TREE_USIZE_MAX
      modifies this, tree
      ensures Valid() && tree == old(tree)
      ensures (State(), g) == PushAnonymousState(old(State()), AnonBlock)
    {
      g := PushAnonymous(AnonBlock);
    }

    /** `Items::push_closure`. */
    method PushClosure() returns (g: ItemsGuard)
      requires Valid() && |tree.storage| <= TREE_USIZE_MAX
      modifies this, tree
      ensures Valid() && tree == old(tree)
      ensures (State(), g) == PushAnonymousState(old(State()), AnonClosure)
    {
      g := PushAnonymous(AnonClosure);
    }

    /** `Items::push_async_block`. */
    method PushAsyncBlock() returns (g: ItemsGuard)
      requires Valid() && |tree.storage| <= TREE_USIZE_MAX
      modifies this, tree
      ensures Valid() && tree == old(tree)
      ensures (State(), g) == PushAnonymousState(old(State()), AnonAsyncBlock)
    {
      g := PushAnonymous(AnonAsyncBlock);
    }

    /** `Items::push_macro`: no tree scope. */
    method PushMacro() returns (g: ItemsGuard)
      requires Valid()
      modifies this
      ensures Valid() && tree == old(tree)
      ensures g == ItemsGuard(None) && State() == PushAnonymousState(old(State()), AnonMacro).0
    {
      var index := NextChild();
      path := path + [Node(0, Component.Macro(index))];
      g := ItemsGuard(None);
    }

    /** `Items::push_named_kind`. */
    method PushNamedKind(name: string, kind: PathKind, vis: Visibility) returns (g: ItemsGuard)
      requires Valid() && |tree.storage| <= TREE_USIZE_MAX && !kind.Use?
      modifies this, tree
      ensures Valid() && tree == old(tree)
      ensures (State(), g) == PushNamedState(old(State()), name, kind, vis)
    {
      path := path + [Node(0, String(name))];
      var r := tree.PushScoped(name, kind, vis);
      if r.Err? {
        assert false;
      }
      g := ItemsGuard(Some(r.value));
    }

    /** `Items::push_mod`. */
    method PushMod(name: string, vis: Visibility) returns (g: ItemsGuard)
      requires Valid() && |tree.storage| <= TREE_USIZE_MAX
      modifies this, tree
      ensures Valid() && tree == old(tree)
      ensures (State(), g) == PushNamedState(old(State()), name, Mod, vis)
    {
      g := PushNamedKind(name, Mod, vis);
    }

    /** `Items::push_fn`. */
    method PushFn(name: string, vis: Visibility) returns (g: ItemsGuard)
      requires Valid() && |tree.storage| <= TREE_USIZE_MAX
      modifies this, tree
      ensures Valid() && tree == old(tree)
      ensures (State(), g) == PushNamedState(old(State()), name, Fn, vis)
    {
      g := PushNamedKind(name, Fn, vis);
    }

    /** `Items::push_const`. */
    method PushConst(name: string, vis: Visibility) returns (g: ItemsGuard)
      requires Valid() && |tree.storage| <= TREE_USIZE_MAX
      modifies this, tree
      ensures Valid() && tree == old(tree)
      ensures (State(), g) == PushNamedState(old(State()), name, Const, vis)
    {
      g := PushNamedKind(name, Const, vis);
    }

    /** `Items::push_struct`. */
    method PushStruct(name: string, vis: Visibility) returns (g: ItemsGuard)
      requires Valid() && |tree.storage| <= TREE_USIZE_MAX
      modifies this, tree
      ensures Valid() && tree == old(tree)
      ensures (State(), g) == PushNamedState(old(State()), name, Struct, vis)
    {
      g := PushNamedKind(name, Struct, vis);
    }

    /** `Items::push_enum`. */
    method PushEnum(name: string, vis: Visibility) returns (g: ItemsGuard)
      requires Valid() && |tree.storage| <= TREE_USIZE_MAX
      modifies this, tree
      ensures Valid() && tree == old(tree)
      ensures (State(), g) == PushNamedState(old(State()), name, Enum, vis)
    {
      g := PushNamedKind(name, Enum, vis);
    }

    /** `Items::push_field`. */
    method PushField(name: string, vis: Visibility) returns (g: ItemsGuard)
      requires Valid() && |tree.storage| <= TREE_USIZE_MAX
      modifies this, tree
      ensures Valid() && tree == old(tree)
      ensures (State(), g) == PushNamedState(old(State()), name, Field, vis)
    {
      g := PushNamedKind(name, Field, vis);
    }

    /** `Items::push_impl`. */
    method PushImpl(name: string, vis: Visibility) returns (g: ItemsGuard)
      requires Valid() && |tree.storage| <= TREE_USIZE_MAX
      modifies this, tree
      ensures Valid() && tree == old(tree)
      ensures (State(), g) == PushNamedState(old(State()), name, Impl, vis)
    {
      g := PushNamedKind(name, Impl, vis);
    }

    /** `Items::push_variant`. */
    method PushVariant(name: string, vis: Visibility) returns (g: ItemsGuard)
      requires Valid() && |tree.storage| <= TREE_USIZE_MAX
      modifies this, tree
      ensures Valid() && tree == old(tree)
      ensures (State(), g) == PushNamedState(old(State()), name, Variant, vis)
    {
      g := PushNamedKind(name, Variant, vis);
    }

    /** `Items::item`. */
    method Item() returns (item: Item)
      requires Valid()
      ensures item == ItemOf(State())
    {
      item := [];
      var i := 0;
      while i < |path|
        invariant i <= |path| && |item| == i
        invariant forall k :: 0 <= k < i ==> item[k] == path[k].component
      {
        item := item + [path[i].component];
        i := i + 1;
      }
    }

    /** `Items::pop`. */
    method Pop() returns (c: Option<Component>)
      requires Valid()
      modifies this
      ensures Valid() && tree == old(tree)
      ensures (c, State()) == PopComponentState(old(State()))
    {
      if path == [] {
        return None;
      }
      c := Some(path[|path| - 1].component);
      path := path[..|path| - 1];
    }

    /** Dropping an items `Guard`; `ok` is false where the source asserts or panics. */
    method DropGuard(g: ItemsGuard) returns (ok: bool)
      requires Valid()
      modifies this, tree
      ensures Valid() && tree == old(tree)
      ensures (State(), ok) == DropItemsGuardState(old(State()), g)
    {
      ok := path != [];
      if path != [] {
        path := path[..|path| - 1];
      }
      match g.treeGuard {
        case None =>
        case Some(tg) =>
          var treeOk := tree.DropGuard(tg);
          ok := ok && treeOk;
      }
    }
  }

  /**
   * A snapshot is unaffected by later pushes on the original: the two share
   * neither the stack nor the tree.
   */
  method SnapshotIsIndependent(items: Items) returns (snapshot: Items)
    requires items.Valid() && |items.tree.storage| <= TREE_USIZE_MAX
    modifies items, items.tree
    ensures snapshot.Valid() && snapshot.State() == old(items.State())
    ensures items.Valid() && ItemOf(items.State()) == old(ItemOf(items.State())) + [String("m")]
  {
    snapshot := items.Snapshot();
    var g := items.PushMod("m", VisPublic);
    PushNamedExtendsItem(old(items.State()), "m", Mod, VisPublic);
  }
}
