/** Properties of the scope tree of crates/rune/src/path_tree.rs. */
module PathTreeLemmas {
  import opened Wrappers
  import opened Sec
  import opened QualifiedPaths
  import opened PathTrees

  // ------------------------------------------------------------ module walks

  /** `parent_mod` is `self_mod` started from the parent. */
  lemma {:induction false} ParentModIsSelfModOfParent(s: seq<PathPart>, i: nat)
    requires WellFormed(s) && i < |s|
    ensures ParentModOf(s, i) == (match ParentOf(s, i) case None => None case Some(p) => SelfModOf(s, p))
    decreases i
  {
    match ParentOf(s, i)
    case None =>
    case Some(p) =>
      if !s[p].kind.IsModule() {
        ParentModIsSelfModOfParent(s, p);
      }
  }

  /** `self_mod` is the first `Mod` or `Crate` on the walk from the node up to the root. */
  lemma {:induction false} SelfModIsNearestModule(s: seq<PathPart>, i: nat)
    requires WellFormed(s) && i < |s|
    ensures SelfModOf(s, i) == FirstModule(s, Ancestors(s, i))
    decreases i
  {
    var xs := Ancestors(s, i);
    if !s[i].kind.IsModule() {
      match ParentOf(s, i)
      case None =>
      case Some(p) =>
        assert xs[1..] == Ancestors(s, p);
        SelfModIsNearestModule(s, p);
    }
  }

  /** Growing the arena without touching the parent or name of an old node keeps its path. */
  lemma {:induction false} QualifiedPathPreserved(s: seq<PathPart>, s': seq<PathPart>, i: nat)
    requires WellFormed(s) && WellFormed(s') && |s| <= |s'| && i < |s|
    requires forall j :: 0 <= j < |s| ==> s'[j].parent == s[j].parent && s'[j].name == s[j].name
    ensures QualifiedPathOf(s', i) == QualifiedPathOf(s, i)
    decreases i
  {
    match ParentOf(s, i)
    case None =>
    case Some(p) => QualifiedPathPreserved(s, s', p);
  }

  /** `push_scoped` enters a node whose path is the old current path plus the new name. */
  lemma PushScopedPath(t: ValidTree, name: string, kind: PathKind, vis: Visibility)
    requires kind.Use? ==> kind.target < |t.storage|
    ensures var r := PushScopedState(t, name, kind, vis);
      r.Ok? ==> QualifiedPathOf(r.value.0.storage, r.value.0.current) == QualifiedPathOf(t.storage, t.current) + [name]
  {
    var r := PushScopedState(t, name, kind, vis);
    if r.Ok? {
      var (t', g) := r.value;
      QualifiedPathPreserved(t.storage, t'.storage, t.current);
      assert ParentOf(t'.storage, g.idx) == Some(t.current);
    }
  }

  // -------------------------------------------------------------------- find

  /** A registered child's path is its parent's path followed by its own name. */
  lemma ChildQualifiedPath(s: seq<PathPart>, node: nat, c: nat)
    requires WellFormed(s) && node < |s| && c in s[node].children
    ensures node < c < |s| && QualifiedPathOf(s, c) == QualifiedPathOf(s, node) + [s[c].name]
  {
    var k :| 0 <= k < |s[node].children| && s[node].children[k] == c;
    assert ChildrenBelong(s, node);
  }

  /**
   * The walk from a cursor whose path is the root's path followed by
   * `done` ends at a node reached by matching every remaining component,
   * or, when the last step found no children, at the node matched by all
   * components but the last.
   */
  lemma {:induction false} FindFromSound(
    s: seq<PathPart>, q: QualifiedPath, done: QualifiedPath, rest: QualifiedPath, node: nat, last: Option<nat>)
    requires WellFormed(s) && node < |s| && (last.Some? ==> last.value == node && node > 0)
    requires QualifiedPathOf(s, node) == QualifiedPathOf(s, PACKAGE_IDX) + done
    ensures var r := FindFrom(s, q, rest, node, last);
      r.Ok? ==> FoundAt(s, r.value, QualifiedPathOf(s, PACKAGE_IDX) + done + rest, rest)
    decreases |rest|
  {
    if rest == [] {
      assert done + rest == done;
    } else {
      ChildrenInRange(s, node);
      match FirstNamed(s, s[node].children, rest[0])
      case Some(c) =>
        FindFromMatched(s, q, done, rest, node, c);
      case None =>
        FindFromUnmatched(s, q, done, rest, node, last);
    }
  }

  /** The names on the path of a node `n > 0` that `find` may return for the components `rest`. */
  ghost predicate FoundAt(s: seq<PathPart>, n: nat, path: QualifiedPath, rest: QualifiedPath)
    requires WellFormed(s) && n < |s|
  {
    && n > 0
    && (|| QualifiedPathOf(s, n) == path
        || (&& |rest| > 0
            && s[n].children == []
            && QualifiedPathOf(s, n) + [rest[|rest| - 1]] == path))
  }

  /** The step of `FindFromSound` that descends into the child `c` named by `rest[0]`. */
  lemma {:induction false} FindFromMatched(
    s: seq<PathPart>, q: QualifiedPath, done: QualifiedPath, rest: QualifiedPath, node: nat, c: nat)
    requires WellFormed(s) && node < |s| && rest != []
    requires QualifiedPathOf(s, node) == QualifiedPathOf(s, PACKAGE_IDX) + done
    requires c in s[node].children && c < |s| && s[c].name == rest[0]
    ensures var r := FindFrom(s, q, rest[1..], c, Some(c));
      r.Ok? ==> FoundAt(s, r.value, QualifiedPathOf(s, PACKAGE_IDX) + done + rest, rest)
    decreases |rest|, 0
  {
    ChildQualifiedPath(s, node, c);
    var root := QualifiedPathOf(s, PACKAGE_IDX);
    assert QualifiedPathOf(s, c) == root + (done + [rest[0]]);
    FindFromSound(s, q, done + [rest[0]], rest[1..], c, Some(c));
    assert done + [rest[0]] + rest[1..] == done + rest;
    assert root + (done + [rest[0]]) + rest[1..] == root + done + rest;
    if |rest| > 1 {
      assert rest[1..][|rest[1..]| - 1] == rest[|rest| - 1];
    }
  }

  /** The step of `FindFromSound` where no child is named by `rest[0]`. */
  lemma FindFromUnmatched(
    s: seq<PathPart>, q: QualifiedPath, done: QualifiedPath, rest: QualifiedPath, node: nat, last: Option<nat>)
    requires WellFormed(s) && node < |s| && (last.Some? ==> last.value == node && node > 0)
    requires QualifiedPathOf(s, node) == QualifiedPathOf(s, PACKAGE_IDX) + done
    requires rest != []
    requires forall k :: 0 <= k < |s[node].children| ==> s[node].children[k] < |s|
    requires FirstNamed(s, s[node].children, rest[0]).None?
    ensures var r := FindFrom(s, q, rest, node, last);
      r.Ok? ==> FoundAt(s, r.value, QualifiedPathOf(s, PACKAGE_IDX) + done + rest, rest)
  {
    if |rest| == 1 {
      assert rest == [rest[0]];
    }
  }

  /**
   * `find` soundness: a found node is never the root, and the names on its
   * path are the root's name followed by the non-empty components of `q`,
   * or all of them but the last when the node has no children.
   */
  lemma FindSound(s: seq<PathPart>, q: QualifiedPath)
    requires WellFormed(s)
    ensures var r := FindPath(s, q);
      r.Ok? ==>
        (&& r.value > 0
         && (|| QualifiedPathOf(s, r.value) == QualifiedPathOf(s, PACKAGE_IDX) + NonEmpty(q)
             || (&& |NonEmpty(q)| > 0
                 && s[r.value].children == []
                 && QualifiedPathOf(s, r.value) + [NonEmpty(q)[|NonEmpty(q)| - 1]]
                    == QualifiedPathOf(s, PACKAGE_IDX) + NonEmpty(q))))
  {
    assert QualifiedPathOf(s, PACKAGE_IDX) == QualifiedPathOf(s, PACKAGE_IDX) + [];
    FindFromSound(s, q, [], NonEmpty(q), PACKAGE_IDX, None);
    assert QualifiedPathOf(s, PACKAGE_IDX) + [] + NonEmpty(q) == QualifiedPathOf(s, PACKAGE_IDX) + NonEmpty(q);
  }

  /** A path with no non-empty component names nothing. */
  lemma FindEmptyPath(s: seq<PathPart>, q: QualifiedPath)
    requires WellFormed(s) && NonEmpty(q) == []
    ensures FindPath(s, q) == Err(UnresolvablePath(CouldNotFind(q)))
  {
  }

  /** The first step moves to the first child of the root, in child order, with the component's name. */
  lemma FindFirstStep(s: seq<PathPart>, q: QualifiedPath)
    requires WellFormed(s) && |NonEmpty(q)| > 0
    ensures forall k :: 0 <= k < |s[PACKAGE_IDX].children| ==> s[PACKAGE_IDX].children[k] < |s|
    ensures var first := FirstNamed(s, s[PACKAGE_IDX].children, NonEmpty(q)[0]);
      first.Some? ==> FindPath(s, q) == FindFrom(s, q, NonEmpty(q)[1..], first.value, first)
  {
    ChildrenInRange(s, PACKAGE_IDX);
  }

  /**
   * The childless-node quirk: in a fresh tree for crate `foo` the crate node
   * has no children, so `foo::bar` finds the crate node itself.
   */
  lemma FindReturnsChildlessNode()
    ensures FindPath(WithCrateNameParts("foo"), ["foo", "bar"]) == Ok(CRATE_IDX)
  {
    var s := WithCrateNameParts("foo");
    assert NonEmpty(["foo", "bar"]) == ["foo", "bar"];
    assert FirstNamed(s, s[0].children, "foo") == Some(CRATE_IDX);
  }

  /** The error-naming quirk: when `x` fails, the error names the component after it. */
  lemma FindErrorNamesNextComponent()
    ensures FindPath(WithCrateNameParts("foo"), ["x", "y", "z"])
      == Err(UnresolvablePath(FailedAt(["x", "y", "z"], "y")))
  {
    var s := WithCrateNameParts("foo");
    assert NonEmpty(["x", "y", "z"]) == ["x", "y", "z"];
    assert FirstNamed(s, s[0].children, "x") == None;
  }

  /**
   * `nodes` is the walk of `find` from `node` over the components `rest`
   * when every one of them matches: each node is the first child, in
   * children order, of the node before it that carries the component's name.
   */
  ghost predicate Chain(s: seq<PathPart>, node: nat, rest: QualifiedPath, nodes: seq<nat>)
    requires WellFormed(s) && node < |s|
    decreases |rest|
  {
    && |nodes| == |rest|
    && (forall i :: 0 <= i < |nodes| ==> nodes[i] < |s|)
    && (rest != [] ==>
          (ChildrenInRange(s, node);
           && FirstNamed(s, s[node].children, rest[0]) == Some(nodes[0])
           && Chain(s, nodes[0], rest[1..], nodes[1..])))
  }

  /** Where a chain from `node` ends: its last node, or `node` itself when it is empty. */
  function ChainEnd(node: nat, nodes: seq<nat>): nat {
    if nodes == [] then node else nodes[|nodes| - 1]
  }

  /** No child of `n` is named `name`. */
  ghost predicate NoChildNamed(s: seq<PathPart>, n: nat, name: string)
    requires n < |s|
  {
    forall k :: 0 <= k < |s[n].children| ==> s[n].children[k] < |s| && s[s[n].children[k]].name != name
  }

  /**
   * Every walk matches some prefix of the components along a chain and then
   * stops at a node with no child named by the next component, so the
   * `FindPath*` lemmas below together cover every call of `find`.
   */
  lemma {:induction false} MaximalChain(s: seq<PathPart>, node: nat, rest: QualifiedPath) returns (nodes: seq<nat>)
    requires WellFormed(s) && node < |s|
    ensures |nodes| <= |rest| && Chain(s, node, rest[..|nodes|], nodes)
    ensures |nodes| < |rest| ==> ChainEnd(node, nodes) < |s| && NoChildNamed(s, ChainEnd(node, nodes), rest[|nodes|])
    decreases |rest|
  {
    if rest == [] {
      return [];
    }
    ChildrenInRange(s, node);
    match FirstNamed(s, s[node].children, rest[0])
    case None =>
      nodes := [];
    case Some(c) =>
      var tail := MaximalChain(s, c, rest[1..]);
      nodes := [c] + tail;
      assert rest[..|nodes|][1..] == rest[1..][..|tail|];
      assert nodes[1..] == tail;
      if |nodes| < |rest| {
        assert rest[1..][|tail|] == rest[|nodes|];
      }
  }

  /** Following the first `i` components along a chain lands at its `i`-th node with `last` set to it. */
  lemma {:induction false} FindFromChain(
    s: seq<PathPart>, q: QualifiedPath, rest: QualifiedPath, node: nat, last: Option<nat>, nodes: seq<nat>, i: nat)
    requires WellFormed(s) && node < |s| && (last.Some? ==> last.value < |s|)
    requires 0 < i <= |rest| && Chain(s, node, rest[..i], nodes)
    ensures nodes[i - 1] < |s|
    ensures FindFrom(s, q, rest, node, last) == FindFrom(s, q, rest[i..], nodes[i - 1], Some(nodes[i - 1]))
    decreases i
  {
    ChildrenInRange(s, node);
    assert rest[..i][0] == rest[0];
    var c := nodes[0];
    assert FindFrom(s, q, rest, node, last) == FindFrom(s, q, rest[1..], c, Some(c));
    if i > 1 {
      assert rest[..i][1..] == rest[1..][..i - 1];
      FindFromChain(s, q, rest[1..], c, Some(c), nodes[1..], i - 1);
      assert rest[1..][i - 1..] == rest[i..];
    }
  }

  /** Where the chain leaves `find` after its last node, for the components after it. */
  lemma FindPathAlongChain(s: seq<PathPart>, q: QualifiedPath, nodes: seq<nat>)
    requires WellFormed(s) && 0 < |nodes| <= |NonEmpty(q)|
    requires Chain(s, PACKAGE_IDX, NonEmpty(q)[..|nodes|], nodes)
    ensures FindPath(s, q) == FindFrom(s, q, NonEmpty(q)[|nodes|..], ChainEnd(PACKAGE_IDX, nodes), Some(ChainEnd(PACKAGE_IDX, nodes)))
  {
    FindFromChain(s, q, NonEmpty(q), PACKAGE_IDX, None, nodes, |nodes|);
  }

  /** `find` completeness: a path whose every component matches along the first-named children is found. */
  lemma FindPathFollowsChain(s: seq<PathPart>, q: QualifiedPath, nodes: seq<nat>)
    requires WellFormed(s) && |NonEmpty(q)| > 0
    requires Chain(s, PACKAGE_IDX, NonEmpty(q), nodes)
    ensures FindPath(s, q) == Ok(nodes[|nodes| - 1])
  {
    assert NonEmpty(q)[..|nodes|] == NonEmpty(q);
    FindPathAlongChain(s, q, nodes);
    assert NonEmpty(q)[|nodes|..] == [];
  }

  /**
   * A component that matches no child while more components follow: the
   * error names the component after the one that failed.
   */
  lemma FindPathFailsAfterChain(s: seq<PathPart>, q: QualifiedPath, nodes: seq<nat>)
    requires WellFormed(s) && |nodes| + 1 < |NonEmpty(q)|
    requires Chain(s, PACKAGE_IDX, NonEmpty(q)[..|nodes|], nodes)
    requires NoChildNamed(s, ChainEnd(PACKAGE_IDX, nodes), NonEmpty(q)[|nodes|])
    ensures FindPath(s, q) == Err(UnresolvablePath(FailedAt(q, NonEmpty(q)[|nodes| + 1])))
  {
    var e := ChainEnd(PACKAGE_IDX, nodes);
    var rest := NonEmpty(q)[|nodes|..];
    ChildrenInRange(s, e);
    assert FirstNamed(s, s[e].children, rest[0]).None?;
    if nodes != [] {
      FindPathAlongChain(s, q, nodes);
    }
    assert FindFrom(s, q, rest, e, if nodes == [] then None else Some(e))
      == Err(UnresolvablePath(FailedAt(q, rest[1])));
  }

  /**
   * The childless-node quirk: when the chain stops one component short at a
   * node with no children, `find` returns that node.
   */
  lemma FindPathChildlessEnd(s: seq<PathPart>, q: QualifiedPath, nodes: seq<nat>)
    requires WellFormed(s) && |nodes| > 0 && |nodes| + 1 == |NonEmpty(q)|
    requires Chain(s, PACKAGE_IDX, NonEmpty(q)[..|nodes|], nodes)
    requires s[nodes[|nodes| - 1]].children == []
    ensures FindPath(s, q) == Ok(nodes[|nodes| - 1])
  {
    var e := nodes[|nodes| - 1];
    var rest := NonEmpty(q)[|nodes|..];
    FindPathAlongChain(s, q, nodes);
    assert FindFrom(s, q, rest, e, Some(e)) == Ok(e);
  }

  /**
   * The last component matches no child of a node that has children (or of
   * the root): a non-matching child reset `last`, so nothing is found.
   */
  lemma FindPathMissesLast(s: seq<PathPart>, q: QualifiedPath, nodes: seq<nat>)
    requires WellFormed(s) && |nodes| + 1 == |NonEmpty(q)|
    requires Chain(s, PACKAGE_IDX, NonEmpty(q)[..|nodes|], nodes)
    requires NoChildNamed(s, ChainEnd(PACKAGE_IDX, nodes), NonEmpty(q)[|nodes|])
    requires nodes == [] || s[ChainEnd(PACKAGE_IDX, nodes)].children != []
    ensures FindPath(s, q) == Err(UnresolvablePath(CouldNotFind(q)))
  {
    var e := ChainEnd(PACKAGE_IDX, nodes);
    var rest := NonEmpty(q)[|nodes|..];
    ChildrenInRange(s, e);
    assert FirstNamed(s, s[e].children, rest[0]).None?;
    if nodes != [] {
      FindPathAlongChain(s, q, nodes);
    }
    assert rest[1..] == [];
    assert FindFrom(s, q, rest, e, if nodes == [] then None else Some(e))
      == Err(UnresolvablePath(CouldNotFind(q)));
  }

  // ----------------------------------------------------------- scope cursor

  /** Which scopes to push: one `push_scoped` argument triple each. */
  datatype Scope = Scope(name: string, kind: PathKind, vis: Visibility)

  /** `push_scoped` for each scope in order, keeping every guard. */
  function PushScopes(t: ValidTree, scopes: seq<Scope>): (r: Result<(ValidTree, seq<TreeGuard>), PathTreeError>)
    requires forall k :: 0 <= k < |scopes| && scopes[k].kind.Use? ==> scopes[k].kind.target < |t.storage|
    ensures r.Ok? ==> |r.value.0.storage| == |t.storage| + |scopes| && |r.value.1| == |scopes|
    ensures r.Ok? ==> forall i :: 0 <= i < |t.storage| ==>
      r.value.0.storage[i].parent == t.storage[i].parent && r.value.0.storage[i].name == t.storage[i].name
    decreases |scopes|
  {
    if scopes == [] then Ok((t, []))
    else
      match PushScopedState(t, scopes[0].name, scopes[0].kind, scopes[0].vis)
      case Err(e) => Err(e)
      case Ok((t1, g)) =>
        match PushScopes(t1, scopes[1..])
        case Err(e) => Err(e)
        case Ok((t2, gs)) => Ok((t2, [g] + gs))
  }

  /** Drop the guards innermost first: the last one, then back to the first. */
  function DropInReverse(t: ValidTree, gs: seq<TreeGuard>): (r: (ValidTree, bool))
    ensures r.0.storage == t.storage
    decreases |gs|
  {
    if gs == [] then (t, true)
    else
      var (t1, ok1) := DropInReverse(t, gs[1..]);
      var (t2, ok2) := DropGuardState(t1, gs[0]);
      (t2, ok1 && ok2)
  }

  /**
   * Properly nested scopes restore the cursor: pushing any number of scopes
   * and dropping their guards in reverse order passes every drop check and
   * leaves `current` where it was.
   */
  lemma {:induction false} NestedScopesRestoreCurrent(t: ValidTree, scopes: seq<Scope>)
    requires forall k :: 0 <= k < |scopes| && scopes[k].kind.Use? ==> scopes[k].kind.target < |t.storage|
    ensures var r := PushScopes(t, scopes);
      r.Ok? ==> DropInReverse(r.value.0, r.value.1) == (TreeState(r.value.0.storage, t.current), true)
    decreases |scopes|
  {
    if scopes != [] {
      match PushScopedState(t, scopes[0].name, scopes[0].kind, scopes[0].vis)
      case Err(_) =>
      case Ok((t1, g)) =>
        match PushScopes(t1, scopes[1..])
        case Err(_) =>
        case Ok((t2, gs)) =>
          NestedScopesRestoreCurrent(t1, scopes[1..]);
          assert ([g] + gs)[1..] == gs;
          assert t2.storage[g.idx].parent == t1.storage[g.idx].parent == Some(t.current);
      }
  }

  /** One scope: the guard's drop check passes and the cursor returns to the old node. */
  lemma PushScopedThenDrop(t: ValidTree, name: string, kind: PathKind, vis: Visibility)
    requires kind.Use? ==> kind.target < |t.storage|
    ensures var r := PushScopedState(t, name, kind, vis);
      r.Ok? ==> DropGuardState(r.value.0, r.value.1) == (TreeState(r.value.0.storage, t.current), true)
  {
  }

  /** Dropping a guard at the root, or with another node current, fails the check. */
  lemma DropGuardDetectsCorruption(t: ValidTree, g: TreeGuard)
    requires t.current == PACKAGE_IDX || t.current != g.idx
    ensures !DropGuardState(t, g).1
  {
  }

  // ------------------------------------------------------------- visibility

  /**
   * `is_visible_to` decides by the tag of the resolved target: None and
   * Inherit hide, Crate and Public show, Private shows iff the resolved
   * source and target have the same enclosing module, and Super shows iff
   * the target's parent module has the common ancestor of the two paths as
   * its qualified path.
   */
  lemma VisibilityByTag(s: seq<PathPart>, source: QualifiedPath, target: QualifiedPath)
    requires WellFormed(s)
    ensures FindPath(s, target).Err? ==> VisibleTo(s, source, target) == Err(FindPath(s, target).error)
    ensures FindPath(s, target).Ok? && FindPath(s, source).Err? ==>
      VisibleTo(s, source, target) == Err(FindPath(s, source).error)
    ensures FindPath(s, target).Ok? && FindPath(s, source).Ok? ==>
      var tp := ResolveAlias(s, FindPath(s, target).value);
      var sp := ResolveAlias(s, FindPath(s, source).value);
      && (s[tp].vis in {VisNone, VisInherit} ==> VisibleTo(s, source, target) == Ok(false))
      && (s[tp].vis in {VisCrate, VisPublic} ==> VisibleTo(s, source, target) == Ok(true))
      && (s[tp].vis == VisPrivate ==>
            VisibleTo(s, source, target) == Ok(SelfModOf(s, sp).Some? && SelfModOf(s, sp) == SelfModOf(s, tp)))
      && (s[tp].vis == VisSuper && ParentModOf(s, tp).None? ==>
            VisibleTo(s, source, target) == Err(UnresolvablePath(SuperOf(target))))
      && (s[tp].vis == VisSuper && ParentModOf(s, tp).Some? ==>
            VisibleTo(s, source, target)
              == Ok(QualifiedPathOf(s, ParentModOf(s, tp).value) == CommonAncestor(source, target)))
  {
    forall a: QualifiedPath, b: QualifiedPath
      ensures !IsAncestorOf(a, b)
    {
      IsAncestorOfNeverHolds(a, b);
    }
  }

  /**
   * A target tagged `Super` is visible from any source that lies under its
   * parent module, provided the target does too and the two paths part
   * right below that module.
   */
  lemma SuperVisibleAtCommonAncestor(s: seq<PathPart>, source: QualifiedPath, target: QualifiedPath, sup: nat)
    requires WellFormed(s)
    requires FindPath(s, target).Ok? && FindPath(s, source).Ok?
    requires var tp := ResolveAlias(s, FindPath(s, target).value);
      s[tp].vis == VisSuper && ParentModOf(s, tp) == Some(sup)
    requires IsPrefix(QualifiedPathOf(s, sup), source) && IsPrefix(QualifiedPathOf(s, sup), target)
    requires var n := |QualifiedPathOf(s, sup)|;
      n == |source| || n == |target| || source[n] != target[n]
    ensures VisibleTo(s, source, target) == Ok(true)
  {
    CommonAncestorAt(source, target, QualifiedPathOf(s, sup));
    VisibilityByTag(s, source, target);
  }
}
