/**
 * `Import::process` (crates/rune/src/worker.rs): record a `use` declaration
 * as alias nodes in the scope tree and as imports in the unit.
 *
 * The context and the unit builder are not part of this model: their
 * prefix queries, their component listings and `new_import` are the
 * function-valued fields of an `Env`, and the unit's state is the type
 * parameter `U`. The tree is the arena of `PathTrees`.
 */
module Imports {
  import opened Wrappers
  import opened Sec
  import opened Components
  import opened QualifiedPaths
  import opened PathTrees

  /** Why an import is refused. */
  datatype ImportError =
    | MissingModule(prefix: Item)
    | UnitRejected(message: string)

  /** What the environment answers; `U` is the unit builder's state. */
  datatype Env<!U> = Env(
    contextHasPrefix: Item -> bool,
    contextComponents: Item -> seq<Component>,
    unitHasPrefix: (U, Item) -> bool,
    unitComponents: (U, Item) -> seq<Component>,
    newImport: (U, Item, Item) -> Result<U, ImportError>)

  /** The last component of a `use`: none, `*`, or a path segment. */
  datatype UseTail = NoTail | WildcardTail | SegmentTail

  /** The fields of an `Import` task that the processing reads. */
  datatype Import = Import(
    item: Item,
    tail: UseTail,
    vis: Visibility,
    qualifiedPath: QualifiedPath,
    pathRef: nat)

  /** The three `expect`/`unwrap` calls that abort the compiler. */
  datatype ImportPanic = UnknownPathRef | TreeFull | EmptyQualifiedPath

  datatype ImportOutcome<U> =
    | Finished(storage: seq<PathPart>, unit: U, error: Option<ImportError>)
    | Panicked(reason: ImportPanic)

  /** `Item::of` over string names: one `String` component per name. */
  function NamesItem(q: QualifiedPath): (r: Item)
    ensures |r| == |q| && forall i :: 0 <= i < |q| ==> r[i] == Component.String(q[i])
  {
    seq(|q|, i requires 0 <= i < |q| => Component.String(q[i]))
  }

  /** Rendering the item back gives the names it was built from. */
  lemma NamesItemRoundTrip(q: QualifiedPath)
    ensures FromItem(NamesItem(q)) == q
  {
    var r := FromItem(NamesItem(q));
    assert |r| == |q|;
    forall i | 0 <= i < |q| ensures r[i] == q[i] {
      assert NamesItem(q)[i] == Component.String(q[i]);
    }
  }

  /** The consecutive ids `lo`, …, `hi - 1`. */
  function Range(lo: nat, hi: nat): (r: seq<nat>)
    requires lo <= hi
    ensures |r| == hi - lo && forall k :: 0 <= k < |r| ==> r[k] == lo + k
  {
    seq(hi - lo, k requires 0 <= k < hi - lo => lo + k)
  }

  /** Two runs of consecutive ids appended one after the other make one run. */
  lemma RangeChain(a: seq<nat>, b: seq<nat>, c: seq<nat>, lo: nat, mid: nat, hi: nat)
    requires lo <= mid <= hi && b == a + Range(lo, mid) && c == b + Range(mid, hi)
    ensures c == a + Range(lo, hi)
  {
    assert Range(lo, mid) + Range(mid, hi) == Range(lo, hi);
  }

  /** How many components of `comps` are numbered (not `String`). */
  function CountNumbered(comps: seq<Component>): (n: nat)
    ensures n <= |comps|
  {
    if comps == [] then 0
    else (if comps[0].String? then 0 else 1) + CountNumbered(comps[1..])
  }

  /** The alias kind a found node gives: `Use` of it, or `Use(0)` when `find` fails. */
  function AliasKind(s: seq<PathPart>, q: QualifiedPath): (k: PathKind)
    requires WellFormed(s)
    ensures k.Use? && k.target < |s|
    ensures k.target != 0 ==> FindPath(s, q) == Ok(k.target)
  {
    match FindPath(s, q)
    case Ok(p) => Use(p)
    case Err(_) => Use(0)
  }

  /**
   * The wildcard loop's lookup: the found node's own visibility and an
   * alias to it, or `Public` and `Use(0)` when `find` fails.
   */
  function WildcardTarget(s: seq<PathPart>, q: QualifiedPath): (r: (Visibility, PathKind))
    requires WellFormed(s)
    ensures r.1 == AliasKind(s, q)
    ensures FindPath(s, q).Err? ==> r.0 == VisPublic
    ensures FindPath(s, q).Ok? ==> r.0 == s[FindPath(s, q).value].vis
  {
    match FindPath(s, q)
    case Ok(p) => (s[p].vis, Use(p))
    case Err(_) => (VisPublic, Use(0))
  }

  /**
   * One pass of the `'components` loop: a `String` component whose target
   * is private is skipped; any other `String` component gets an alias child
   * under `at`; every component that is not skipped yields one name to
   * import. `None` is the panic of a full tree.
   */
  function WildcardStep(s: seq<PathPart>, q: QualifiedPath, name: Item, c: Component, at: nat, vis: Visibility)
    : (r: Option<(seq<PathPart>, Option<Item>)>)
    requires WellFormed(s) && at < |s|
    ensures r.None? ==> c.String? && |s| > TREE_USIZE_MAX
    ensures r.Some? ==> WellFormed(r.value.0)
    ensures r.Some? && r.value.1.None? ==> c.String? && r.value.0 == s
    ensures r.Some? && r.value.1.Some? ==> r.value.1.value == name + [c]
    ensures r.Some? && !c.String? ==> r.value == (s, Some(name + [c]))
    ensures r.Some? && c.String? && r.value.1.Some? ==>
      AppendChildNode(s, at, c.name, AliasKind(s, q + [c.name]), vis) == Ok(r.value.0)
  {
    if !c.String? then Some((s, Some(name + [c])))
    else
      var (targetVis, kind) := WildcardTarget(s, q + [c.name]);
      if targetVis == VisPrivate then Some((s, None))
      else
        match AppendChildNode(s, at, c.name, kind, vis)
        case Err(_) => None
        case Ok(s') => Some((s', Some(name + [c])))
  }

  /**
   * The `'components` loop over `comps`, continuing from the tree `s` and
   * the names `acc` gathered so far.
   */
  function WildcardLoop(s: seq<PathPart>, q: QualifiedPath, name: Item, comps: seq<Component>,
                        at: nat, vis: Visibility, acc: seq<Item>)
    : (r: Option<(seq<PathPart>, seq<Item>)>)
    requires WellFormed(s) && at < |s|
    ensures |s| + |comps| <= TREE_USIZE_MAX + 1 ==> r.Some?
    ensures r.Some? ==> WellFormed(r.value.0) && |s| <= |r.value.0| <= |s| + |comps|
    ensures r.Some? ==> |acc| <= |r.value.1| <= |acc| + |comps| && r.value.1[..|acc|] == acc
    decreases |comps|
  {
    if comps == [] then Some((s, acc))
    else
      match WildcardStep(s, q, name, comps[0], at, vis)
      case None => None
      case Some((s1, entry)) =>
        var acc1 := if entry.Some? then acc + [entry.value] else acc;
        var r := WildcardLoop(s1, q, name, comps[1..], at, vis, acc1);
        assert r.Some? ==> r.value.1[..|acc|] == r.value.1[..|acc1|][..|acc|];
        r
  }

  /** `new_import` for each name in order, stopping at the first refusal. */
  function ImportAll<U>(env: Env<U>, u: U, item: Item, names: seq<Item>): (r: (U, Option<ImportError>))
    ensures names == [] ==> r == (u, None)
    decreases |names|
  {
    if names == [] then (u, None)
    else
      match env.newImport(u, item, names[0])
      case Err(e) => (u, Some(e))
      case Ok(u1) => ImportAll(env, u1, item, names[1..])
  }

  /** `Import::process`. */
  function ProcessImport<U>(env: Env<U>, s: seq<PathPart>, u: U, imp: Import): (r: ImportOutcome<U>)
    requires WellFormed(s)
    ensures r.Panicked? && r.reason == UnknownPathRef <==> imp.pathRef >= |s|
    ensures r.Finished? ==> WellFormed(r.storage) && |s| <= |r.storage|
    ensures r.Finished? && imp.tail != WildcardTail ==> |r.storage| == |s| + 1
  {
    if imp.pathRef >= |s| then Panicked(UnknownPathRef)
    else
      var q := imp.qualifiedPath;
      var name := NamesItem(NonEmpty(q));
      if imp.tail == WildcardTail then
        if !env.contextHasPrefix(name) && !env.unitHasPrefix(u, name) then
          Finished(s, u, Some(MissingModule(name)))
        else
          var comps := env.contextComponents(name) + env.unitComponents(u, name);
          match WildcardLoop(s, q, name, comps, imp.pathRef, imp.vis, [])
          case None => Panicked(TreeFull)
          case Some((s', names)) =>
            var (u', err) := ImportAll(env, u, imp.item, names);
            Finished(s', u', err)
      else if q == [] then Panicked(EmptyQualifiedPath)
      else
        match AppendChildNode(s, imp.pathRef, q[|q| - 1], AliasKind(s, q), imp.vis)
        case Err(_) => Panicked(TreeFull)
        case Ok(s') =>
          match env.newImport(u, imp.item, name)
          case Ok(u') => Finished(s', u', None)
          case Err(e) => Finished(s', u, Some(e))
  }

  // ---------------------------------------------------------------- lemmas

  /** Without the prefix in the context or the unit, a wildcard import fails and changes nothing. */
  lemma WildcardWithoutModuleFails<U>(env: Env<U>, s: seq<PathPart>, u: U, imp: Import)
    requires WellFormed(s) && imp.pathRef < |s| && imp.tail == WildcardTail
    requires var name := NamesItem(NonEmpty(imp.qualifiedPath));
      !env.contextHasPrefix(name) && !env.unitHasPrefix(u, name)
    ensures ProcessImport(env, s, u, imp)
      == Finished(s, u, Some(MissingModule(NamesItem(NonEmpty(imp.qualifiedPath)))))
  {
  }

  /** A `String` component whose target node is private is skipped: no alias, no name. */
  lemma PrivateTargetSkipped(s: seq<PathPart>, q: QualifiedPath, name: Item, n: string, at: nat, vis: Visibility)
    requires WellFormed(s) && at < |s|
    requires FindPath(s, q + [n]).Ok? && s[FindPath(s, q + [n]).value].vis == VisPrivate
    ensures WildcardStep(s, q, name, Component.String(n), at, vis) == Some((s, None))
  {
  }

  /**
   * A `String` component that `find` cannot resolve is imported as public:
   * an alias `Use(0)` under `at`, and its name.
   */
  lemma UnresolvedTargetDefaultsToRoot(s: seq<PathPart>, q: QualifiedPath, name: Item, n: string, at: nat, vis: Visibility)
    requires WellFormed(s) && at < |s| && |s| <= TREE_USIZE_MAX
    requires FindPath(s, q + [n]).Err?
    ensures var r := WildcardStep(s, q, name, Component.String(n), at, vis);
      && r.Some? && r.value.1 == Some(name + [Component.String(n)])
      && |r.value.0| == |s| + 1
      && r.value.0[|s|] == PathPart(|s|, vis, Some(at), n, Use(0), [])
      && r.value.0[at].children == s[at].children + [|s|]
  {
  }

  /** Each name the loop gathers is the module name plus one component of the listing. */
  lemma {:induction false} WildcardNamesFromListing(s: seq<PathPart>, q: QualifiedPath, name: Item, comps: seq<Component>,
                                                    at: nat, vis: Visibility, acc: seq<Item>)
    requires WellFormed(s) && at < |s|
    requires WildcardLoop(s, q, name, comps, at, vis, acc).Some?
    ensures var names := WildcardLoop(s, q, name, comps, at, vis, acc).value.1;
      forall j :: |acc| <= j < |names| ==> exists i :: 0 <= i < |comps| && names[j] == name + [comps[i]]
    decreases |comps|
  {
    if comps != [] {
      var (s1, entry) := WildcardStep(s, q, name, comps[0], at, vis).value;
      var acc1 := if entry.Some? then acc + [entry.value] else acc;
      WildcardNamesFromListing(s1, q, name, comps[1..], at, vis, acc1);
      var names := WildcardLoop(s, q, name, comps, at, vis, acc).value.1;
      assert names == WildcardLoop(s1, q, name, comps[1..], at, vis, acc1).value.1;
      forall j | |acc| <= j < |names|
        ensures exists i :: 0 <= i < |comps| && names[j] == name + [comps[i]]
      {
        if j < |acc1| {
          assert names[j] == names[..|acc1|][j] == name + [comps[0]];
        } else {
          var i :| 0 <= i < |comps[1..]| && names[j] == name + [comps[1..][i]];
          assert comps[1..][i] == comps[i + 1];
        }
      }
    }
  }

  /**
   * The tree grows by one alias per `String` component that is not skipped:
   * the names gathered are those aliases plus one per numbered component.
   */
  lemma {:induction false} WildcardAliasCount(s: seq<PathPart>, q: QualifiedPath, name: Item, comps: seq<Component>,
                                              at: nat, vis: Visibility, acc: seq<Item>)
    requires WellFormed(s) && at < |s|
    requires WildcardLoop(s, q, name, comps, at, vis, acc).Some?
    ensures var (s', names) := WildcardLoop(s, q, name, comps, at, vis, acc).value;
      (|s'| - |s|) + CountNumbered(comps) == |names| - |acc|
    decreases |comps|
  {
    if comps != [] {
      var (s1, entry) := WildcardStep(s, q, name, comps[0], at, vis).value;
      var acc1 := if entry.Some? then acc + [entry.value] else acc;
      WildcardAliasCount(s1, q, name, comps[1..], at, vis, acc1);
      if comps[0].String? && entry.Some? {
        assert |s1| == |s| + 1;
      }
    }
  }

  /** One pass registers its alias, if any, as the last child of `at`. */
  lemma StepAliasUnderRef(s: seq<PathPart>, q: QualifiedPath, name: Item, c: Component, at: nat, vis: Visibility)
    requires WellFormed(s) && at < |s|
    requires WildcardStep(s, q, name, c, at, vis).Some?
    ensures var s1 := WildcardStep(s, q, name, c, at, vis).value.0;
      |s| <= |s1| && s1[at].children == s[at].children + Range(|s|, |s1|)
  {
    var (s1, entry) := WildcardStep(s, q, name, c, at, vis).value;
    if c.String? && entry.Some? {
      assert s1[at].children == s[at].children + [|s|];
    } else {
      assert Range(|s|, |s1|) == [];
    }
  }

  /** Every alias is registered, in order, as a child of `at`. */
  lemma {:induction false} WildcardAliasesUnderRef(s: seq<PathPart>, q: QualifiedPath, name: Item, comps: seq<Component>,
                                                   at: nat, vis: Visibility, acc: seq<Item>)
    requires WellFormed(s) && at < |s|
    requires WildcardLoop(s, q, name, comps, at, vis, acc).Some?
    ensures var s' := WildcardLoop(s, q, name, comps, at, vis, acc).value.0;
      s'[at].children == s[at].children + Range(|s|, |s'|)
    decreases |comps|
  {
    if comps != [] {
      var step := WildcardStep(s, q, name, comps[0], at, vis).value;
      var acc1 := if step.1.Some? then acc + [step.1.value] else acc;
      WildcardAliasesUnderRef(step.0, q, name, comps[1..], at, vis, acc1);
      StepAliasUnderRef(s, q, name, comps[0], at, vis);
      var s' := WildcardLoop(s, q, name, comps, at, vis, acc).value.0;
      RangeChain(s[at].children, step.0[at].children, s'[at].children, |s|, |step.0|, |s'|);
    }
  }

  /** The loop changes no existing node other than `at`. */
  lemma {:induction false} WildcardKeepsOtherNodes(s: seq<PathPart>, q: QualifiedPath, name: Item, comps: seq<Component>,
                                                   at: nat, vis: Visibility, acc: seq<Item>)
    requires WellFormed(s) && at < |s|
    requires WildcardLoop(s, q, name, comps, at, vis, acc).Some?
    ensures var s' := WildcardLoop(s, q, name, comps, at, vis, acc).value.0;
      forall i :: 0 <= i < |s| && i != at ==> s'[i] == s[i]
    decreases |comps|
  {
    if comps != [] {
      var (s1, entry) := WildcardStep(s, q, name, comps[0], at, vis).value;
      var acc1 := if entry.Some? then acc + [entry.value] else acc;
      WildcardKeepsOtherNodes(s1, q, name, comps[1..], at, vis, acc1);
    }
  }

  /** Numbered components are never skipped: each one's name reaches the import list. */
  lemma {:induction false} NumberedComponentsAlwaysImported(s: seq<PathPart>, q: QualifiedPath, name: Item,
                                                            comps: seq<Component>, at: nat, vis: Visibility, acc: seq<Item>)
    requires WellFormed(s) && at < |s|
    requires WildcardLoop(s, q, name, comps, at, vis, acc).Some?
    ensures var names := WildcardLoop(s, q, name, comps, at, vis, acc).value.1;
      forall i :: 0 <= i < |comps| && !comps[i].String? ==> name + [comps[i]] in names[|acc|..]
    decreases |comps|
  {
    if comps != [] {
      var (s1, entry) := WildcardStep(s, q, name, comps[0], at, vis).value;
      var acc1 := if entry.Some? then acc + [entry.value] else acc;
      NumberedComponentsAlwaysImported(s1, q, name, comps[1..], at, vis, acc1);
      var names := WildcardLoop(s, q, name, comps, at, vis, acc).value.1;
      assert names == WildcardLoop(s1, q, name, comps[1..], at, vis, acc1).value.1;
      forall i | 0 <= i < |comps| && !comps[i].String?
        ensures name + [comps[i]] in names[|acc|..]
      {
        if i == 0 {
          assert names[|acc|..][0] == names[..|acc1|][|acc|];
        } else {
          assert comps[i] == comps[1..][i - 1];
          assert name + [comps[i]] in names[|acc1|..];
          assert names[|acc1|..] == names[|acc|..][|acc1| - |acc|..];
        }
      }
    }
  }

  /** Importing two lists is importing the first, then (if nothing was refused) the second. */
  lemma {:induction false} ImportAllAppend<U>(env: Env<U>, u: U, item: Item, xs: seq<Item>, ys: seq<Item>)
    ensures ImportAll(env, u, item, xs + ys) ==
      match ImportAll(env, u, item, xs)
      case (u1, None) => ImportAll(env, u1, item, ys)
      case (u1, Some(e)) => (u1, Some(e))
    decreases |xs|
  {
    if xs != [] {
      assert (xs + ys)[0] == xs[0] && (xs + ys)[1..] == xs[1..] + ys;
      match env.newImport(u, item, xs[0])
      case Err(e) =>
      case Ok(u1) => ImportAllAppend(env, u1, item, xs[1..], ys);
    } else {
      assert xs + ys == ys;
    }
  }

  /**
   * A non-wildcard import adds exactly one alias, named by the last
   * component, under the referenced node, and asks the unit for exactly one
   * import of the filtered path.
   */
  lemma SingleImportAddsOneAlias<U>(env: Env<U>, s: seq<PathPart>, u: U, imp: Import)
    requires WellFormed(s) && imp.pathRef < |s| && |s| <= TREE_USIZE_MAX
    requires imp.tail != WildcardTail && imp.qualifiedPath != []
    ensures var q := imp.qualifiedPath;
      var r := ProcessImport(env, s, u, imp);
      && r.Finished?
      && r.storage[..|s|][imp.pathRef] == s[imp.pathRef].(children := s[imp.pathRef].children + [|s|])
      && r.storage[|s|] == PathPart(|s|, imp.vis, Some(imp.pathRef), q[|q| - 1], AliasKind(s, q), [])
      && (r.error.None? <==> env.newImport(u, imp.item, NamesItem(NonEmpty(q))).Ok?)
  {
  }

  // ---------------------------------------------------------------- method

  /** One pass of the `'components` loop on a tree; `None` is the panic. */
  method WildcardPass(t: Tree, q: QualifiedPath, name: Item, c: Component, at: nat, vis: Visibility)
    returns (entry: Option<Option<Item>>)
    requires t.Valid() && at < |t.storage|
    modifies t
    ensures t.Valid() && t.current == old(t.current)
    ensures match WildcardStep(old(t.storage), q, name, c, at, vis)
      case None => entry.None?
      case Some((s', e)) => entry == Some(e) && t.storage == s'
  {
    if c.String? {
      var found := t.Find(q + [c.name]);
      var targetVis, kind;
      if found.Ok? {
        targetVis, kind := t.storage[found.value].vis, Use(found.value);
      } else {
        targetVis, kind := VisPublic, Use(0);
      }
      if targetVis == VisPrivate {
        return Some(None);
      }
      var added := t.AppendChild(at, c.name, kind, vis);
      if added.Err? {
        return None;
      }
    }
    entry := Some(Some(name + [c]));
  }

  /** The `'components` loop on a tree, gathering the names to import. */
  method WildcardAliases(t: Tree, q: QualifiedPath, name: Item, comps: seq<Component>, at: nat, vis: Visibility)
    returns (names: Option<seq<Item>>)
    requires t.Valid() && at < |t.storage|
    modifies t
    ensures t.Valid() && t.current == old(t.current)
    ensures var spec := WildcardLoop(old(t.storage), q, name, comps, at, vis, []);
      match spec
      case None => names.None?
      case Some((s', ns)) => names == Some(ns) && t.storage == s'
  {
    ghost var s0 := t.storage;
    var acc: seq<Item> := [];
    var k := 0;
    while k < |comps|
      invariant k <= |comps| && t.Valid() && t.current == old(t.current) && at < |t.storage|
      invariant WildcardLoop(t.storage, q, name, comps[k..], at, vis, acc) == WildcardLoop(s0, q, name, comps, at, vis, [])
    {
      assert comps[k..][0] == comps[k] && comps[k..][1..] == comps[k + 1..];
      var entry := WildcardPass(t, q, name, comps[k], at, vis);
      if entry.None? {
        return None;
      }
      if entry.value.Some? {
        acc := acc + [entry.value.value];
      }
      k := k + 1;
    }
    names := Some(acc);
  }

  /** The `new_import` loop. */
  method ImportNames<U>(env: Env<U>, u: U, item: Item, names: seq<Item>) returns (u': U, err: Option<ImportError>)
    ensures (u', err) == ImportAll(env, u, item, names)
  {
    u' := u;
    var k := 0;
    while k < |names|
      invariant k <= |names| && ImportAll(env, u', item, names[k..]) == ImportAll(env, u, item, names)
    {
      assert names[k..][0] == names[k] && names[k..][1..] == names[k + 1..];
      match env.newImport(u', item, names[k]) {
        case Err(e) =>
          return u', Some(e);
        case Ok(u1) =>
          u' := u1;
      }
      k := k + 1;
    }
    err := None;
  }

  /** The wildcard branch of `Import::process`, once the prefix is known to exist. */
  method ProcessWildcard<U>(t: Tree, env: Env<U>, u: U, imp: Import, name: Item) returns (r: ImportOutcome<U>)
    requires t.Valid() && imp.pathRef < |t.storage|
    modifies t
    ensures t.Valid() && t.current == old(t.current)
    ensures var comps := env.contextComponents(name) + env.unitComponents(u, name);
      match WildcardLoop(old(t.storage), imp.qualifiedPath, name, comps, imp.pathRef, imp.vis, [])
      case None => r == Panicked(TreeFull)
      case Some((s', names)) =>
        var (u', err) := ImportAll(env, u, imp.item, names);
        r == Finished(s', u', err) && t.storage == s'
  {
    var comps := env.contextComponents(name) + env.unitComponents(u, name);
    var names := WildcardAliases(t, imp.qualifiedPath, name, comps, imp.pathRef, imp.vis);
    if names.None? {
      return Panicked(TreeFull);
    }
    var u', err := ImportNames(env, u, imp.item, names.value);
    r := Finished(t.storage, u', err);
  }

  /** The single-name branches of `Import::process`. */
  method ProcessSingle<U>(t: Tree, env: Env<U>, u: U, imp: Import, name: Item) returns (r: ImportOutcome<U>)
    requires t.Valid() && imp.pathRef < |t.storage|
    modifies t
    ensures t.Valid() && t.current == old(t.current)
    ensures var q := imp.qualifiedPath;
      if q == [] then r == Panicked(EmptyQualifiedPath)
      else
        match AppendChildNode(old(t.storage), imp.pathRef, q[|q| - 1], AliasKind(old(t.storage), q), imp.vis)
        case Err(_) => r == Panicked(TreeFull)
        case Ok(s') =>
          t.storage == s' &&
          match env.newImport(u, imp.item, name)
          case Ok(u') => r == Finished(s', u', None)
          case Err(e) => r == Finished(s', u, Some(e))
  {
    var q := imp.qualifiedPath;
    var found := t.Find(q);
    var kind := if found.Ok? then Use(found.value) else Use(0);
    if q == [] {
      return Panicked(EmptyQualifiedPath);
    }
    var added := t.AppendChild(imp.pathRef, q[|q| - 1], kind, imp.vis);
    if added.Err? {
      return Panicked(TreeFull);
    }
    match env.newImport(u, imp.item, name) {
      case Ok(u') => r := Finished(t.storage, u', None);
      case Err(e) => r := Finished(t.storage, u, Some(e));
    }
  }

  /** `Import::process` on a tree: the outcome and the tree the pure model describes. */
  method Process<U>(t: Tree, env: Env<U>, u: U, imp: Import) returns (r: ImportOutcome<U>)
    requires t.Valid()
    modifies t
    ensures t.Valid() && t.current == old(t.current)
    ensures r == ProcessImport(env, old(t.storage), u, imp)
    ensures r.Finished? ==> t.storage == r.storage
  {
    var itemRef := t.Get(imp.pathRef);
    if itemRef.None? {
      return Panicked(UnknownPathRef);
    }
    var name := NamesItem(NonEmpty(imp.qualifiedPath));
    if imp.tail == WildcardTail {
      if !env.contextHasPrefix(name) && !env.unitHasPrefix(u, name) {
        return Finished(t.storage, u, Some(MissingModule(name)));
      }
      r := ProcessWildcard(t, env, u, imp, name);
    } else {
      r := ProcessSingle(t, env, u, imp, name);
    }
  }
}
