# The rune compiler front-end, in Dafny

This project models the core of the rune compiler's front-end (a Rust
code base) and proves properties of the model:

- **the scope tree** (`path_tree.rs`): an arena of path nodes with a
  cursor. Nodes are pushed and popped, aliased by `use`, and looked up by
  qualified path. It also decides visibility between two paths.
- **the item path builder** (`items.rs`): a stack of path components,
  each of which numbers its anonymous children. It is kept in step with
  its scope tree.
- **the compile worker** (`worker.rs`): the first-in first-out task
  queue of load, index, import and macro-expansion tasks. This includes
  `QualifiedPath` and the processing of `use` imports.
- **the older visibility predicate** (`sec/vis.rs`).
- **the syntax parsers** for attributes and their token trees, paths,
  mutability qualifiers, types, function arguments, unary expressions,
  `fn` items, items and object patterns (`ast/…`).
- **the benchmark script's singly-linked list** (`scripts/py/linked_list.py`).

Code that changes state in place has two parts here. The first is a pure
specification function on values. The second is a `class` whose methods
are proved to leave exactly the state that function describes. This
covers the tree, the item stack, the worker, the token cursor and the
linked list. The properties are proved as lemmas about the
specification functions.

Module layout, one file each:

- `Components`: runestick's `Component` and `Item`, and decimal
  rendering.
- `QualifiedPaths`, `Sec` and `SecVis`.
- `PathTrees` and `PathTreeLemmas`.
- `ItemPaths`, `Imports` and `Workers`.
- `Tokens`: the token input and the parser cursor.
- The AST modules `AstPaths`, `Mutabilities`, `AstTypes`, `Attributes`,
  `FnArguments`, `ExprUnaries`, `ItemFns`, `ItemDecls` and `PatObjects`.
- `LinkedLists`.

## Model

| member | source | states |
|---|---|---|
| Components.DecimalString | crates/rune/src/worker.rs:411-416 | `idx.to_string()`: a non-empty string of digits with no leading zero |
| Components.DecimalRoundTrip | crates/rune/src/worker.rs:411-416 | reading back the decimal rendering of an index gives the index |
| Components.DecimalInjective | crates/rune/src/worker.rs:411-416 | two different sibling indices never render to the same name |
| QualifiedPaths.CommonAncestor | crates/rune/src/worker.rs:378-387 | `common_ancestor` is a prefix of both paths, and stops where one path ends or the next components differ |
| QualifiedPaths.CommonAncestorIsLongest | crates/rune/src/worker.rs:378-387 | every common prefix is a prefix of the common ancestor, so it is the longest one |
| QualifiedPaths.CommonAncestorAt | crates/rune/src/worker.rs:378-387 | a common prefix after which the paths part, or one of them ends, is exactly the common ancestor |
| QualifiedPaths.CommonAncestorSymmetric | crates/rune/src/worker.rs:378-387 | the common ancestor does not depend on argument order |
| QualifiedPaths.IsAncestorOf | crates/rune/src/worker.rs:370-372 | definition: `is_ancestor_of` as written, a shorter length and equal whole paths |
| QualifiedPaths.IsSuperOf | crates/rune/src/worker.rs:374-376 | definition: `is_super_of` as written, a length one less and equal whole paths, for a non-empty second path |
| QualifiedPaths.IsAncestorOfNeverHolds | crates/rune/src/worker.rs:370-372 | `is_ancestor_of` as written (shorter length AND equal slices) is false for every pair, a genuine ancestor included |
| QualifiedPaths.IsSuperOfNeverHolds | crates/rune/src/worker.rs:374-376 | `is_super_of` as written is false for every pair with a non-empty second path |
| QualifiedPaths.ComponentString | crates/rune/src/worker.rs:402-422 | definition: one component's string, its name or its decimal sibling index |
| QualifiedPaths.FromItem | crates/rune/src/worker.rs:402-422 | `From<&Item>` gives one string per component, in order: the name, or the decimal index |
| QualifiedPaths.FromItemNumbered | crates/rune/src/worker.rs:411-416 | a numbered component's string is all digits and reads back as its index |
| QualifiedPaths.NonEmpty | crates/rune/src/worker.rs:424-434 | `into_iter` keeps only non-empty components and never grows the path |
| QualifiedPaths.NonEmptyAppend | crates/rune/src/worker.rs:424-434 | the filter distributes over concatenation |
| QualifiedPaths.NonEmptyKeepsNames | crates/rune/src/worker.rs:424-434 | a path without empty components passes unchanged, so the filter is idempotent |
| QualifiedPaths.NonEmptyMembers | crates/rune/src/worker.rs:424-434 | a string survives the filter iff it is in the path and is non-empty |
| SecVis.PathsEq | crates/rune/src/sec/vis.rs:43-60 | `paths_eq` holds iff the two items are equal |
| SecVis.PathsEqProperties | crates/rune/src/sec/vis.rs:43-60 | `paths_eq` is reflexive and symmetric, and false for different lengths |
| SecVis.AncestorAndParentAreEquality | crates/rune/src/sec/vis.rs:62-98 | `is_ancestor` and `is_parent` repeat the `paths_eq` loop, so each holds iff the items are equal |
| SecVis.IsAncestor | crates/rune/src/sec/vis.rs:62-79 | definition: `is_ancestor`, which repeats the `paths_eq` loop, so it is `PathsEq` |
| SecVis.IsParent | crates/rune/src/sec/vis.rs:81-98 | definition: `is_parent`, which repeats the `paths_eq` loop, so it is `PathsEq` |
| SecVis.IsSameCrate | crates/rune/src/sec/vis.rs:100-109 | definition: `is_same_crate`, true when both items are empty or both first components are equal names |
| SecVis.IsVisibleTo | crates/rune/src/sec/vis.rs:111-119 | definition: `is_visible_to`, one arm per `Vis`: `Pub` true, `None` by `PathsEq`, `Crate` by `IsSameCrate`, `Super` and `Path` false |
| SecVis.PubAlwaysVisible | crates/rune/src/sec/vis.rs:111-119 | under `Vis::Pub` every item is visible |
| SecVis.NoneVisibleIffSamePath | crates/rune/src/sec/vis.rs:111-119 | under `Vis::None` an item is visible iff source and target are the same path |
| SecVis.SuperAndPathNeverVisible | crates/rune/src/sec/vis.rs:111-119 | `Vis::Super` and `Vis::Path` never make an item visible |
| SecVis.CrateVisibleIffSameFirstName | crates/rune/src/sec/vis.rs:100-119 | under `Vis::Crate`: both items are empty, or both start with the same name component |
| SecVis.VisTests | crates/rune/src/sec/vis.rs:137-169 | the cases of `test_vis_pub` and `test_vis_none` |
| PathTrees.PathKind.IsCrate | crates/rune/src/path_tree.rs:78-84 | definition: `is_crate`, the `Crate` kind |
| PathTrees.PathKind.IsStructOrEnum | crates/rune/src/path_tree.rs:86-91 | definition: `is_struct_or_enum`, the `Struct` or `Enum` kind |
| PathTrees.PathKind.IsFile | crates/rune/src/path_tree.rs:93-99 | definition: `is_file`, the `File` kind |
| PathTrees.PathKind.IsClosure | crates/rune/src/path_tree.rs:101-107 | definition: `is_closure`, the `Closure` kind |
| PathTrees.PathKind.IsBlock | crates/rune/src/path_tree.rs:109-115 | definition: `is_block`, the `Block` kind |
| PathTrees.PathKind.IsFunction | crates/rune/src/path_tree.rs:117-123 | definition: `is_function`, the `Fn` kind |
| PathTrees.PathKind.IsModule | crates/rune/src/path_tree.rs:125-130 | definition: `is_module`, the `Mod` or `Crate` kind |
| PathTrees.EmptyParts | crates/rune/src/path_tree.rs:386-398 | an empty tree is the well-formed single package root with no children |
| PathTrees.WithCrateNameParts | crates/rune/src/path_tree.rs:362-384 | a named tree is the root with the crate node as its only child, under the root |
| PathTrees.PushNode | crates/rune/src/path_tree.rs:489-517 | `push` succeeds iff the new id fits a `u32` (else `TooManyPaths`), and appends a node with that id, the parent and no children, leaving the other nodes alone |
| PathTrees.AppendKeepsWellFormed | crates/rune/src/path_tree.rs:489-517 | appending a node with an earlier parent keeps the arena well-formed |
| PathTrees.RegisterChildKeepsWellFormed | crates/rune/src/path_tree.rs:190-192 | registering the newest node as a child of its parent keeps the arena well-formed |
| PathTrees.AppendChildNode | crates/rune/src/path_tree.rs:220-229 | `append_child` adds one node under `at` and registers it as `at`'s last child; nothing else changes |
| PathTrees.AppendSiblingNode | crates/rune/src/path_tree.rs:231-238 | `append_sibling` adds a node under `at`'s parent (the root for the root), with visibility `None`, and registers it with no one |
| PathTrees.ParentOf | crates/rune/src/path_tree.rs:240-249 | every node but the root has a parent, and the parent is earlier |
| PathTrees.SelfModOf | crates/rune/src/path_tree.rs:269-281 | `self_mod` is the node itself or an ancestor, and is a module or the crate |
| PathTrees.ParentModOf | crates/rune/src/path_tree.rs:251-267 | `parent_mod` (and `super_`) is a strict ancestor that is a module or the crate |
| PathTrees.QualifiedPathOf | crates/rune/src/path_tree.rs:287-297 | `qualified_path` is non-empty and ends with the node's own name |
| PathTrees.ResolveAlias | crates/rune/src/path_tree.rs:315-331 | `resolve` ends at an earlier or equal node that is not a `Use` of a node other than the root |
| PathTrees.FirstNamed | crates/rune/src/path_tree.rs:602-612 | the `'breadth` scan finds a child with the name that no earlier child in children order shares; it finds none iff no child has the name |
| PathTrees.FirstNamedIsFirst | crates/rune/src/path_tree.rs:602-612 | conversely, a child with the name that no earlier child shares is the one found |
| PathTrees.FindFrom | crates/rune/src/path_tree.rs:595-627 | the `'depth` walk returns a stored node |
| PathTrees.FindPath | crates/rune/src/path_tree.rs:590-627 | `find` returns a stored node |
| PathTrees.SelfScope | crates/rune/src/path_tree.rs:459-463 | `self_` is a module node, and fails iff the cursor has no enclosing module |
| PathTrees.SuperScope | crates/rune/src/path_tree.rs:448-455 | `super_` is a module node; its only error is too many `super`s |
| PathTrees.PushScopedState | crates/rune/src/path_tree.rs:519-535 | `push_scoped` succeeds iff the tree has room; it adds a child of the cursor, enters it, and the guard remembers it |
| PathTrees.PopState | crates/rune/src/path_tree.rs:560-575 | `pop` fails only at the root; otherwise the cursor moves to the parent of the node it reports |
| PathTrees.DropGuardState | crates/rune/src/path_tree.rs:691-697 | dropping a guard passes its check iff the cursor is the guard's node and is not the root; the nodes are untouched |
| PathTrees.ScanChildren | crates/rune/src/path_tree.rs:602-612 | the `'breadth` loop's match is the first child with the name; with no match `last` is reset unless there are no children |
| PathTrees.Tree.WithCrateName | crates/rune/src/path_tree.rs:419-423 | `with_crate_name` builds the named tree with the crate node current |
| PathTrees.Tree.Empty | crates/rune/src/path_tree.rs:426-430 | `empty` builds the single-root tree with the root current |
| PathTrees.Tree.Cloned | crates/rune/src/path_tree.rs:577-584 | `cloned` gives a fresh tree with equal nodes and cursor |
| PathTrees.Tree.Get | crates/rune/src/path_tree.rs:432-437 | `get` returns a reference iff the id is stored |
| PathTrees.Tree.Push | crates/rune/src/path_tree.rs:489-517 | the arena becomes what `PushNode` describes; the cursor stays |
| PathTrees.Tree.AppendChild | crates/rune/src/path_tree.rs:220-229 | the arena becomes what `AppendChildNode` describes |
| PathTrees.Tree.AppendSibling | crates/rune/src/path_tree.rs:231-238 | the arena becomes what `AppendSiblingNode` describes |
| PathTrees.Tree.PushScoped | crates/rune/src/path_tree.rs:519-535 | the tree and guard become what `PushScopedState` describes |
| PathTrees.Tree.Pop | crates/rune/src/path_tree.rs:560-575 | the tree and result become what `PopState` describes |
| PathTrees.Tree.DropGuard | crates/rune/src/path_tree.rs:691-697 | the tree and check become what `DropGuardState` describes |
| PathTrees.Tree.Parent | crates/rune/src/path_tree.rs:240-249 | returns `ParentOf` |
| PathTrees.Tree.ParentMod | crates/rune/src/path_tree.rs:251-263 | the upward loop returns `ParentModOf` |
| PathTrees.Tree.SelfMod | crates/rune/src/path_tree.rs:269-281 | the upward loop returns `SelfModOf` |
| PathTrees.Tree.QualifiedPath | crates/rune/src/path_tree.rs:287-297 | collecting names upwards and reversing gives `QualifiedPathOf` |
| PathTrees.Tree.Resolve | crates/rune/src/path_tree.rs:315-331 | the alias-following loop returns `ResolveAlias` |
| PathTrees.Tree.Find | crates/rune/src/path_tree.rs:590-627 | the labelled loops return `FindPath`, which `FindSound` and the `FindPath*` lemmas characterise |
| PathTrees.Tree.SelfType | crates/rune/src/path_tree.rs:466-482 | `self_type` returns the last struct or enum node; if there is none it fails with `UnresolvedSelfType` |
| PathTrees.Tree.Self_ | crates/rune/src/path_tree.rs:459-463 | returns `SelfScope` |
| PathTrees.Tree.Super_ | crates/rune/src/path_tree.rs:448-455 | returns `SuperScope` |
| PathTrees.VisibleTo | crates/rune/src/path_tree.rs:636-675 | definition: `is_visible_to`, which finds and resolves the target, then the source, and decides by the target's visibility tag |
| PathTrees.Tree.IsVisibleTo | crates/rune/src/path_tree.rs:636-675 | returns the visibility decision `VisibleTo` |
| PathTreeLemmas.ParentModIsSelfModOfParent | crates/rune/src/path_tree.rs:251-281 | `parent_mod` of a node is `self_mod` of its parent |
| PathTreeLemmas.SelfModIsNearestModule | crates/rune/src/path_tree.rs:269-281 | `self_mod` is the first module on the walk up to the root |
| PathTreeLemmas.QualifiedPathPreserved | crates/rune/src/path_tree.rs:287-297 | growing the arena without changing old parents or names keeps old paths |
| PathTreeLemmas.PushScopedPath | crates/rune/src/path_tree.rs:519-535 | after `push_scoped` the cursor's path is the old cursor path plus the new name |
| PathTreeLemmas.ChildQualifiedPath | crates/rune/src/path_tree.rs:287-297 | a registered child's path is its parent's path plus its own name |
| PathTreeLemmas.FindFromSound | crates/rune/src/path_tree.rs:595-627 | the walk ends at a node spelt by every remaining component, or by all but the last when the last step found no children |
| PathTreeLemmas.FindFromMatched | crates/rune/src/path_tree.rs:602-615 | descending into the child named by the next component keeps the walk sound |
| PathTreeLemmas.FindFromUnmatched | crates/rune/src/path_tree.rs:612-622 | when no child has the name, only a last component at a childless node can still succeed, at that node |
| PathTreeLemmas.FindSound | crates/rune/src/path_tree.rs:590-627 | a found node is not the root; its path is the root name plus the non-empty components, or all but the last at a childless node |
| PathTreeLemmas.FindEmptyPath | crates/rune/src/path_tree.rs:617-627 | a path with no non-empty component finds nothing |
| PathTreeLemmas.FindFirstStep | crates/rune/src/path_tree.rs:595-612 | the first step goes to the root's first child with the first component's name |
| PathTreeLemmas.FindReturnsChildlessNode | crates/rune/src/path_tree.rs:595-627 | example: in a fresh tree for `foo`, `foo::bar` finds the childless crate node itself |
| PathTreeLemmas.FindErrorNamesNextComponent | crates/rune/src/path_tree.rs:617-622 | example: in a fresh tree for `foo`, `x::y::z` fails at `x` with an error naming `y` |
| PathTreeLemmas.MaximalChain | crates/rune/src/path_tree.rs:595-615 | every walk matches some prefix of the components along a chain of first-named children, then meets a node with no child named by the next component; so the `FindPath*` lemmas and `FindEmptyPath` cover every call |
| PathTreeLemmas.FindFromChain | crates/rune/src/path_tree.rs:595-612 | walking `i` components along a chain of first-named children lands at the chain's `i`-th node, with `last` set to it |
| PathTreeLemmas.FindPathAlongChain | crates/rune/src/path_tree.rs:590-612 | after a chain from the root, `find` goes on from the chain's end with the components after it |
| PathTreeLemmas.FindPathFollowsChain | crates/rune/src/path_tree.rs:590-627 | completeness: for every tree and path, when every component matches a first-named child in turn, `find` returns the last node matched |
| PathTreeLemmas.FindPathFailsAfterChain | crates/rune/src/path_tree.rs:595-622 | for every tree and path, a component that matches no child of the node reached, with more components after it, gives `UnresolvablePath` naming the component after it |
| PathTreeLemmas.FindPathChildlessEnd | crates/rune/src/path_tree.rs:595-627 | for every tree and path, when the chain stops one component short at a node without children, `find` returns that node |
| PathTreeLemmas.FindPathMissesLast | crates/rune/src/path_tree.rs:595-627 | for every tree and path, a last component that matches no child of a node with children, or of the root, gives `CouldNotFind` |
| PathTreeLemmas.NestedScopesRestoreCurrent | crates/rune/src/path_tree.rs:519-535 | pushing scopes and dropping their guards in reverse passes every check and restores the cursor |
| PathTreeLemmas.PushScopedThenDrop | crates/rune/src/path_tree.rs:691-697 | one `push_scoped` and its guard's drop pass the check and restore the cursor |
| PathTreeLemmas.DropGuardDetectsCorruption | crates/rune/src/path_tree.rs:691-697 | dropping a guard at the root, or with another node current, fails the check |
| PathTreeLemmas.VisibilityByTag | crates/rune/src/path_tree.rs:636-675 | by the resolved target's tag: `None` and `Inherit` hide; `Crate` and `Public` show; `Private` shows iff both resolve to the same module; `Super` compares the parent module's path with the common ancestor |
| PathTreeLemmas.SuperVisibleAtCommonAncestor | crates/rune/src/path_tree.rs:647-661 | a `Super` target is visible from a source under its parent module when the paths part right below it |
| ItemPaths.Anonymous.ComponentFor | crates/rune/src/items.rs:122-193 | each anonymous push makes a numbered component |
| ItemPaths.BaseScopeOf | crates/rune/src/items.rs:48-56 | a base component's scope is named by its string form and is never an alias |
| ItemPaths.BaseTree | crates/rune/src/items.rs:45-70 | `Items::new` builds a chain with one node per base component, each a child of the one before; the cursor is on the deepest |
| ItemPaths.BaseTreeSnoc | crates/rune/src/items.rs:48-58 | one more base component is one more successful `push_scoped` |
| ItemPaths.FromItemSnoc | crates/rune/src/worker.rs:402-422 | the path of an item with one more component has that component's string at the end |
| ItemPaths.ChainPath | crates/rune/src/path_tree.rs:287-297 | along the base chain, node `i` spells the first `i` components |
| ItemPaths.ChainEndPath | crates/rune/src/path_tree.rs:287-297 | the last node of the chain spells the whole item under the root name |
| ItemPaths.NewItemsCursorPath | crates/rune/src/items.rs:45-70 | after `Items::new` the cursor's path is `""` followed by the base item |
| ItemPaths.FreshNodes | crates/rune/src/items.rs:60-63 | each base component gets a node with its counter at zero |
| ItemPaths.ItemOf | crates/rune/src/items.rs:196-199 | `item` lists the stack's components, bottom first |
| ItemPaths.NewItemsState | crates/rune/src/items.rs:45-70 | `Items::new`: the item is the base, every counter is zero, and the tree is the base chain |
| ItemPaths.NextChildState | crates/rune/src/items.rs:110-119 | `next_child` hands out the top counter and advances it by one; with an empty stack it hands out 0 and changes nothing |
| ItemPaths.PushAnonymousState | crates/rune/src/items.rs:122-193 | an anonymous push numbers its component with the next index; all but the macro push a `None`-visibility tree scope named by that index |
| ItemPaths.PushNamedState | crates/rune/src/items.rs:251-267 | a named push adds a `String` component with a fresh counter and a tree scope of that kind and visibility |
| ItemPaths.PopComponentState | crates/rune/src/items.rs:202-205 | `pop` removes and returns the top component; the item shrinks by exactly it |
| ItemPaths.DropItemsGuardState | crates/rune/src/items.rs:14-19 | dropping a guard pops one entry, then drops the tree guard if any; the check fails on an empty stack or a failed tree check |
| ItemPaths.NamedPushThenDropRestores | crates/rune/src/items.rs:251-267 | a named push and its drop restore the stack exactly and the cursor |
| ItemPaths.AnonymousPushThenDropAdvancesCounter | crates/rune/src/items.rs:110-193 | an anonymous push and its drop restore the item and cursor, with the top counter advanced by one |
| ItemPaths.SiblingsGetConsecutiveIndices | crates/rune/src/items.rs:110-139 | two anonymous scopes in a row get consecutive indices, so their names differ |
| ItemPaths.EmptyStackReusesIndexZero | crates/rune/src/items.rs:110-119 | with an empty stack every anonymous push is numbered 0 |
| ItemPaths.NextChildKeepsItem | crates/rune/src/items.rs:110-119 | handing out an index leaves the item unchanged |
| ItemPaths.PushNamedExtendsItem | crates/rune/src/items.rs:251-254 | a named push appends exactly its `String` component to the item |
| ItemPaths.PushAnonymousExtendsItem | crates/rune/src/items.rs:122-187 | an anonymous push appends exactly its numbered component to the item |
| ItemPaths.PushBaseScope | crates/rune/src/items.rs:48-58 | one loop step of `Items::new` extends the tree to the next base prefix |
| ItemPaths.FreshNodesSnoc | crates/rune/src/items.rs:60-63 | one more base component is one more fresh node |
| ItemPaths.BuildBase | crates/rune/src/items.rs:45-64 | the loop of `Items::new` builds the base chain and the fresh nodes |
| ItemPaths.Items.New | crates/rune/src/items.rs:45-70 | the new builder's state is `NewItemsState` |
| ItemPaths.Items.CrateName | crates/rune/src/items.rs:72-74 | `crate_` is the name of node 1, when there is one |
| ItemPaths.SelfPath | crates/rune/src/items.rs:80-82 | definition: `self_`, the qualified path of `SelfScope`, or its error |
| ItemPaths.SuperPath | crates/rune/src/items.rs:76-78 | definition: `super_`, the qualified path of `SuperScope`, or its error |
| ItemPaths.Items.Self_ | crates/rune/src/items.rs:80-82 | `self_` is the path of the module enclosing the cursor |
| ItemPaths.Items.Super_ | crates/rune/src/items.rs:76-78 | `super_` is the path of the module above that one |
| ItemPaths.Items.Snapshot | crates/rune/src/items.rs:85-90 | `snapshot` is a fresh builder with a fresh tree and the same state |
| ItemPaths.Items.Find | crates/rune/src/items.rs:92-94 | `find` is the tree's `find` |
| ItemPaths.Items.IsEmpty | crates/rune/src/items.rs:105-107 | `is_empty` holds iff the item is empty |
| ItemPaths.Items.NextChild | crates/rune/src/items.rs:110-119 | the state becomes what `NextChildState` describes |
| ItemPaths.Items.PushAnonymous | crates/rune/src/items.rs:122-193 | the state and guard become what `PushAnonymousState` describes |
| ItemPaths.Items.PushBlock | crates/rune/src/items.rs:122-139 | `push_block` is the anonymous push of a `Block` |
| ItemPaths.Items.PushClosure | crates/rune/src/items.rs:142-159 | `push_closure` is the anonymous push of a `Closure` |
| ItemPaths.Items.PushAsyncBlock | crates/rune/src/items.rs:162-179 | `push_async_block` is the anonymous push of an `AsyncBlock`, with tree kind `Block` |
| ItemPaths.Items.PushMacro | crates/rune/src/items.rs:182-193 | `push_macro` numbers a `Macro` component and pushes no tree scope |
| ItemPaths.Items.PushNamedKind | crates/rune/src/items.rs:251-267 | the state and guard become what `PushNamedState` describes |
| ItemPaths.Items.PushMod | crates/rune/src/items.rs:208-210 | a named push of kind `Mod` |
| ItemPaths.Items.PushFn | crates/rune/src/items.rs:213-215 | a named push of kind `Fn` |
| ItemPaths.Items.PushConst | crates/rune/src/items.rs:218-220 | a named push of kind `Const` |
| ItemPaths.Items.PushStruct | crates/rune/src/items.rs:223-225 | a named push of kind `Struct` |
| ItemPaths.Items.PushEnum | crates/rune/src/items.rs:228-230 | a named push of kind `Enum` |
| ItemPaths.Items.PushField | crates/rune/src/items.rs:233-235 | a named push of kind `Field` |
| ItemPaths.Items.PushImpl | crates/rune/src/items.rs:238-240 | a named push of kind `Impl` |
| ItemPaths.Items.PushVariant | crates/rune/src/items.rs:243-245 | a named push of kind `Variant` |
| ItemPaths.Items.Item | crates/rune/src/items.rs:196-199 | the loop collects `ItemOf` |
| ItemPaths.Items.Pop | crates/rune/src/items.rs:202-205 | the state and result become what `PopComponentState` describes |
| ItemPaths.Items.DropGuard | crates/rune/src/items.rs:14-19 | the state and check become what `DropItemsGuardState` describes |
| ItemPaths.SnapshotIsIndependent | crates/rune/src/items.rs:85-90 | a snapshot keeps its state while the original gets a new component |
| Imports.NamesItem | crates/rune/src/worker.rs:492 | `Item::of` over names gives one `String` component per name |
| Imports.NamesItemRoundTrip | crates/rune/src/worker.rs:486-492 | rendering that item back gives the names |
| Imports.AliasKind | crates/rune/src/worker.rs:559-565 | the alias is `Use` of the found node, or `Use(0)` when `find` fails |
| Imports.WildcardTarget | crates/rune/src/worker.rs:517-523 | the wildcard lookup gives the found node's visibility and alias, or `Public` and `Use(0)` |
| Imports.WildcardStep | crates/rune/src/worker.rs:512-545 | one loop pass: a private `String` target is skipped; another `String` gets an alias child under the referenced node; every kept component yields its name |
| Imports.WildcardLoop | crates/rune/src/worker.rs:508-545 | the loop succeeds when the tree has room; it only adds nodes and only appends names |
| Imports.ImportAll | crates/rune/src/worker.rs:547-549 | `new_import` for each name, stopping at the first refusal |
| Imports.ProcessImport | crates/rune/src/worker.rs:468-599 | `Import::process` panics on an unknown path reference; a non-wildcard import adds exactly one node |
| Imports.WildcardWithoutModuleFails | crates/rune/src/worker.rs:501-506 | a wildcard over an unknown prefix fails with `MissingModule` and changes nothing |
| Imports.PrivateTargetSkipped | crates/rune/src/worker.rs:525-528 | a private target adds no alias and no name |
| Imports.UnresolvedTargetDefaultsToRoot | crates/rune/src/worker.rs:517-537 | an unresolved target is imported as public, as `Use(0)` under the referenced node |
| Imports.WildcardNamesFromListing | crates/rune/src/worker.rs:508-545 | every gathered name is the prefix plus one listed component |
| Imports.WildcardAliasCount | crates/rune/src/worker.rs:512-545 | the added aliases plus the numbered components equal the names gathered |
| Imports.StepAliasUnderRef | crates/rune/src/worker.rs:530-536 | one pass registers its alias as the last child of the referenced node |
| Imports.WildcardAliasesUnderRef | crates/rune/src/worker.rs:512-545 | every alias is registered, in order, under the referenced node |
| Imports.WildcardKeepsOtherNodes | crates/rune/src/worker.rs:512-545 | the loop changes no old node other than the referenced one |
| Imports.NumberedComponentsAlwaysImported | crates/rune/src/worker.rs:538-545 | every numbered component's name reaches the import list |
| Imports.ImportAllAppend | crates/rune/src/worker.rs:547-549 | importing two lists is importing the first, then the second unless refused |
| Imports.SingleImportAddsOneAlias | crates/rune/src/worker.rs:552-596 | a non-wildcard import adds one alias named by the last component under the reference, and fails iff the unit refuses |
| Imports.WildcardPass | crates/rune/src/worker.rs:512-545 | one loop pass on a tree does what `WildcardStep` describes |
| Imports.WildcardAliases | crates/rune/src/worker.rs:512-545 | the loop on a tree does what `WildcardLoop` describes |
| Imports.ImportNames | crates/rune/src/worker.rs:547-549 | the loop does what `ImportAll` describes |
| Imports.ProcessWildcard | crates/rune/src/worker.rs:498-551 | the wildcard branch on a tree matches the loop and the imports |
| Imports.ProcessSingle | crates/rune/src/worker.rs:552-596 | the single-name branches on a tree match the pure model |
| Imports.Process | crates/rune/src/worker.rs:468-599 | `Import::process` on a tree returns `ProcessImport`, with the tree it describes |
| Workers.LoadFileStep | crates/rune/src/worker.rs:114-159 | definition: the `LoadFile` branch, which loads and parses the file and enqueues one index task, or records one error |
| Workers.IndexStep | crates/rune/src/worker.rs:160-216 | definition: the `Index` branch, which enqueues the indexer's follow-ups and records an expansion or an error |
| Workers.ImportStep | crates/rune/src/worker.rs:217-231 | definition: the `Import` branch, which processes the import against the unit and records a refusal as one error |
| Workers.ExpandStep | crates/rune/src/worker.rs:271-321 | definition: evaluates an expression or item macro at the captured item and enqueues the expansion's index task, or records the error |
| Workers.MacroStep | crates/rune/src/worker.rs:232-322 | definition: the `ExpandMacro` branch, which captures the item and, for an item macro, pops its `Macro` component first |
| Workers.Dispatch | crates/rune/src/worker.rs:112-323 | definition: one turn of the `run` loop, which takes the front task and runs its branch |
| Workers.Drain | crates/rune/src/worker.rs:111-325 | definition: `run`, which steps until the queue is empty, bounded by fuel |
| Workers.StepIsFifo | crates/rune/src/worker.rs:111-325 | a step removes the front task, keeps the rest in order, adds tasks only at the back, and appends at most one error |
| Workers.LoadFileYieldsIndexOrError | crates/rune/src/worker.rs:114-159 | a load task records one error, or enqueues one index task over the parsed file with a fresh builder |
| Workers.ItemMacroWithoutMacroComponent | crates/rune/src/worker.rs:249-270 | an item macro whose stack does not end in `Macro` records one error and enqueues nothing |
| Workers.ItemMacroIndexesCapturedItem | crates/rune/src/worker.rs:244-321 | an item macro indexes the item captured before the pop, with the component popped |
| Workers.OnlyIndexedExprRecordsExpansion | crates/rune/src/worker.rs:191-215 | only a successfully indexed expression records an expansion, under its item |
| Workers.IndexFailureRecordsOneError | crates/rune/src/worker.rs:206-215 | a failed index records one error tagged with its source, keeping the follow-up tasks |
| Workers.RunKeepsErrors | crates/rune/src/worker.rs:111-325 | running never forgets an error |
| Workers.DrainedMeansEmpty | crates/rune/src/worker.rs:111-112 | a drained run ends with an empty queue |
| Workers.Worker.constructor | crates/rune/src/worker.rs:82-108 | `Worker::new` starts with the queue, no errors and no expansions |
| Workers.Worker.LoadFileTask | crates/rune/src/worker.rs:114-159 | the load branch does what `LoadFileStep` describes |
| Workers.Worker.IndexTaskStep | crates/rune/src/worker.rs:160-216 | the index branch does what `IndexStep` describes |
| Workers.Worker.ImportTaskStep | crates/rune/src/worker.rs:217-231 | the import branch does what `ImportStep` describes |
| Workers.Worker.MacroTaskStep | crates/rune/src/worker.rs:232-322 | the macro branch does what `MacroStep` describes |
| Workers.Worker.Step | crates/rune/src/worker.rs:112-323 | one `pop_front` and dispatch does what `Dispatch` describes |
| Workers.Worker.Run | crates/rune/src/worker.rs:111-325 | `run` (bounded by fuel) returns `Drain` and leaves its state |
| AstPaths.SegmentIdent | crates/rune/src/ast/path.rs:64-70 | `PathSegment::try_as_ident` gives the token iff the segment is an identifier |
| AstPaths.PathIdent | crates/rune/src/ast/path.rs:25-31 | `Path::try_as_ident` gives the first token iff the path is a lone identifier |
| AstPaths.Segments | crates/rune/src/ast/path.rs:34-38 | `Path::iter` yields the first segment, then each `rest` segment in order |
| AstPaths.IdentPathHasOneSegment | crates/rune/src/ast/path.rs:25-38 | a lone-identifier path has exactly that identifier as its one segment |
| AstPaths.ParseSegment | crates/rune/src/ast/path.rs:74-90 | a segment parse consumes one token and keeps it |
| AstPaths.PeekSegment | crates/rune/src/ast/path.rs:93-97 | definition: `PathSegment::peek`, true for an identifier, `crate` or `super` |
| AstPaths.PeekPath | crates/rune/src/ast/path.rs:41-45 | definition: `Path::peek`, true for `::` or a segment start |
| AstPaths.SegmentPeekMatchesParse | crates/rune/src/ast/path.rs:74-96 | the segment parse succeeds iff the segment peek holds |
| AstPaths.SegmentVariantByKind | crates/rune/src/ast/path.rs:74-90 | identifier, `crate` and `super` give their own variant; anything else is a mismatch naming the kind found |
| AstPaths.PathPeekExtendsSegmentPeek | crates/rune/src/ast/path.rs:42-44 | what starts a segment starts a path; only `::` starts a path without starting a segment |
| Mutabilities.IsMut | crates/rune/src/ast/mutability.rs:16-18 | definition: `is_mut`, the `mut` qualifier |
| Mutabilities.IsConst | crates/rune/src/ast/mutability.rs:21-23 | definition: `is_const`, the `const` qualifier |
| Mutabilities.ExactlyOneQualifier | crates/rune/src/ast/mutability.rs:16-23 | every qualifier is exactly one of `mut` and `const` |
| Mutabilities.ParseMutability | crates/rune/src/ast/mutability.rs:33-43 | `const` or `mut` is consumed with its token; anything else is `ExpectedMutability` at the token found |
| Mutabilities.PeekMutability | crates/rune/src/ast/mutability.rs:26-30 | definition: `Mutability::peek`, true for `const` or `mut` |
| Mutabilities.MutabilityPeekMatchesParse | crates/rune/src/ast/mutability.rs:27-43 | the parse succeeds iff the peek holds |
| AstTypes.ParseType | crates/rune/src/ast/ty/ty.rs:20-22 | `Type::parse` always parses a path type, failing exactly when the path fails |
| AstTypes.PeekNever | crates/rune/src/ast/ty/never.rs:12-16 | definition: `TypeNever::peek`, true for `!` |
| AstTypes.PeekInfer | crates/rune/src/ast/ty/infer.rs:13-17 | definition: `TypeInfer::peek`, true for `_` |
| AstTypes.PeekVariadic | crates/rune/src/ast/ty/variadic.rs:19-23 | definition: `TypeVariadic::peek`, true for `...` |
| AstTypes.PeekTypePath | crates/rune/src/ast/ty/path.rs:11-15 | definition: `TypePath::peek`, which is `Path::peek` |
| AstTypes.PeekTypePtr | crates/rune/src/ast/ty/ptr.rs:22-27 | definition: `TypePtr::peek`, `*` followed by a qualifier or by a token that alone starts a type |
| AstTypes.PeekType | crates/rune/src/ast/ty/ty.rs:25-33 | definition: `Type::peek`, the disjunction of the five variant peeks |
| AstTypes.PeekTypeCases | crates/rune/src/ast/ty/ty.rs:26-32 | `Type::peek` holds iff `!`, `_`, `...`, a path start, or `*` followed by a qualifier or a type start |
| AstTypes.LoneStarIsNoType | crates/rune/src/ast/ty/ty.rs:26-32 | a `*` with nothing after it does not start a type |
| AstTypes.PeekAcceptsWhatParseDoesNot | crates/rune/src/ast/ty/ty.rs:20-32 | the peek accepts `!`, `_`, `...` and `*mut`, which the path-only parse does not start with |
| Attributes.DelimSpan | crates/rune/src/ast/attribute.rs:497-504 | definition: a delimited tree's span, from the opening delimiter's start to the closing one's end |
| Attributes.TreeTokens | crates/rune/src/ast/attribute.rs:294-302 | definition: `TokenTree::into_tokens`, a token or a delimited tree's tokens |
| Attributes.DelimTokens | crates/rune/src/ast/attribute.rs:506-514 | definition: `DelimTokenTree::into_tokens`, the opening delimiter, each inner tree's tokens, then the closing delimiter |
| Attributes.TreesTokens | crates/rune/src/ast/attribute.rs:509-511 | definition: the inner loop of `DelimTokenTree::into_tokens`, each tree's tokens in order |
| Attributes.StyleTokens | crates/rune/src/ast/attribute.rs:122-129 | definition: `AttrStyle::into_tokens`, the `!` of an outer style, nothing for an inner one |
| Attributes.AttrInputTokens | crates/rune/src/ast/attribute.rs:162-171 | definition: `AttrInput::into_tokens`, the delimited tree's tokens, or `=` and the literal |
| Attributes.AttrInputSpan | crates/rune/src/ast/attribute.rs:173-181 | definition: `AttrInput::span`, the delimited tree's span or the `= lit` span |
| Attributes.AttributeTokens | crates/rune/src/ast/attribute.rs:93-102 | definition: `Attribute::into_tokens`, each field's tokens in order |
| Attributes.TreesTokensAppend | crates/rune/src/ast/attribute.rs:507-513 | printing a sequence of trees distributes over concatenation |
| Attributes.PeekOpenDelim | crates/rune/src/ast/attribute.rs:355-367 | definition: `OpenDelim::peek`, true for an opening delimiter |
| Attributes.PeekCloseDelim | crates/rune/src/ast/attribute.rs:426-438 | definition: `CloseDelim::peek`, true for a closing delimiter |
| Attributes.PeekNonDelimiter | crates/rune/src/ast/attribute.rs:241-245 | definition: `NonDelimiter::peek`, a token that neither opens nor closes |
| Attributes.PeekDelimTokenTree | crates/rune/src/ast/attribute.rs:491-495 | definition: `DelimTokenTree::peek`, an opening delimiter with a token after it |
| Attributes.PeekTokenTree | crates/rune/src/ast/attribute.rs:288-292 | definition: `TokenTree::peek`, a non-delimiter or a delimited tree start |
| Attributes.PeekAssignLit | crates/rune/src/ast/attribute.rs:198-206 | definition: `AssignLit::peek`, `=` with a token after it |
| Attributes.PeekAttrInput | crates/rune/src/ast/attribute.rs:156-160 | definition: `AttrInput::peek`, an `= lit` or a delimited tree start |
| Attributes.PeekAttribute | crates/rune/src/ast/attribute.rs:80-91 | definition: `Attribute::peek`, `#` followed by `!` or `[` |
| Attributes.InputStream | crates/rune/src/ast/attribute.rs:66-74 | definition: the token stream of the optional input, empty when there is none |
| Attributes.InputStreamSpan | crates/rune/src/ast/attribute.rs:66-74 | definition: the input's span, or the default span when there is no input |
| Attributes.AttributeSpan | crates/rune/src/ast/attribute.rs:41-45 | definition: `Attribute::span`, from `#` to `]` |
| Attributes.ParseOpen | crates/rune/src/ast/attribute.rs:335-352 | an opening delimiter is consumed iff peeked; otherwise `UnexpectedToken` at the token found |
| Attributes.ParseClose | crates/rune/src/ast/attribute.rs:406-423 | a closing delimiter is consumed iff peeked; otherwise `UnexpectedToken` at the token found |
| Attributes.ParseNonDelimiter | crates/rune/src/ast/attribute.rs:226-238 | a non-delimiter token is consumed iff peeked; a delimiter is `UnexpectedDelimiter` |
| Attributes.ParseDelim | crates/rune/src/ast/attribute.rs:463-488 | a delimited tree consumes at least one token and stays within the input |
| Attributes.DelimConsumed | crates/rune/src/ast/attribute.rs:463-513 | a parsed delimited tree is well-formed (matching delimiters) and prints as exactly the tokens consumed |
| Attributes.ParseTrees | crates/rune/src/ast/attribute.rs:466-479 | the inner loop stays within the input and stops where no tree starts |
| Attributes.TreesConsumed | crates/rune/src/ast/attribute.rs:466-513 | the trees of the loop are well-formed and print as the tokens consumed |
| Attributes.ParseTreesStep | crates/rune/src/ast/attribute.rs:466-479 | one pass of the loop: a tree, then the trees after it |
| Attributes.ParseTokenTree | crates/rune/src/ast/attribute.rs:268-285 | a tree consumes at least one token; with no tree ahead the error is `UnexpectedToken` at the token found |
| Attributes.TreeConsumed | crates/rune/src/ast/attribute.rs:268-301 | a parsed tree is well-formed and prints as the tokens consumed |
| Attributes.ParsePrintedDelim | crates/rune/src/ast/attribute.rs:463-513 | parsing a printed well-formed delimited tree gives it back and consumes its tokens |
| Attributes.ParsePrintedInner | crates/rune/src/ast/attribute.rs:463-488 | on printed tokens the open, inner and close parses each give back their part |
| Attributes.ParsePrintedTrees | crates/rune/src/ast/attribute.rs:466-479 | parsing printed trees followed by a close gives them back |
| Attributes.ParsePrintedTree | crates/rune/src/ast/attribute.rs:268-301 | parsing a printed well-formed tree gives it back |
| Attributes.MismatchedCloseIsRejected | crates/rune/src/ast/attribute.rs:481-486 | a close of another kind than the open is `UnexpectedDelimiter` over the tree's span |
| Attributes.ParseDelimAt | crates/rune/src/ast/attribute.rs:463-488 | the cursor loop agrees with `ParseDelim` |
| Attributes.ParseTokenTreeAt | crates/rune/src/ast/attribute.rs:268-285 | the cursor parse agrees with `ParseTokenTree` |
| Attributes.DelimIntoTokens | crates/rune/src/ast/attribute.rs:507-513 | `into_tokens` appends exactly the tree's printed tokens |
| Attributes.TreeIntoTokens | crates/rune/src/ast/attribute.rs:295-301 | `into_tokens` appends exactly the tree's printed tokens |
| Attributes.ParseAssignLit | crates/rune/src/ast/attribute.rs:191-195 | `= lit` consumes `=` and the literal |
| Attributes.ParseAttrInput | crates/rune/src/ast/attribute.rs:138-153 | `= lit` when peeked; a tree iff a tree starts; `UnexpectedToken` when neither |
| Attributes.OptionalAttrInput | crates/rune/src/ast/attribute.rs:66-67 | no input and nothing consumed when not peeked, else the input parse |
| Attributes.AttrInputPrintsConsumed | crates/rune/src/ast/attribute.rs:163-170 | a parsed input prints as the tokens it consumed |
| Attributes.StyleFrom | crates/rune/src/ast/attribute.rs:114-119 | the style is outer iff a `!` was present, keeping it |
| Attributes.StyleRoundTrip | crates/rune/src/ast/attribute.rs:114-128 | printing the style gives back the `!` it came from |
| Attributes.ParseAttrHead | crates/rune/src/ast/attribute.rs:62-64 | `#`, an optional `!` (outer iff present), `[`, printed as the tokens consumed |
| Attributes.ParseAttrTail | crates/rune/src/ast/attribute.rs:66-75 | the optional input then `]` |
| Attributes.ParseAttribute | crates/rune/src/ast/attribute.rs:60-77 | an attribute starts at `#` and is enclosed by `[` and `]` |
| Attributes.ParseAttributeParts | crates/rune/src/ast/attribute.rs:60-77 | a parsed attribute is its head, its path, its optional input and the `]` after them, in that order |
| Attributes.ParsedAttributeWasPeeked | crates/rune/src/ast/attribute.rs:60-90 | whatever parses as an attribute was accepted by its peek |
| Attributes.AttributePrintsConsumed | crates/rune/src/ast/attribute.rs:60-101 | a parsed attribute prints as exactly the tokens consumed |
| Attributes.InputStreamPrintsConsumed | crates/rune/src/ast/attribute.rs:66-73 | the input's token stream is the tokens the input consumed |
| Attributes.AttributeIntoTokens | crates/rune/src/ast/attribute.rs:94-101 | `into_tokens` appends exactly the attribute's printed tokens |
| FnArguments.ParseFnArgIdent | crates/rune/src/ast/fn_arg.rs:71-85 | `self`, `_` or an identifier, each its own variant; else `ExpectedFunctionArgument` |
| FnArguments.PeekFnArgType | crates/rune/src/ast/fn_arg.rs:97-101 | definition: `FnArgType::peek`, `:` followed by a token that starts a type |
| FnArguments.ParseFnArgType | crates/rune/src/ast/fn_arg.rs:88-95 | `:` then a type |
| FnArguments.ParseFnArgWithAttributes | crates/rune/src/ast/fn_arg.rs:30-39 | keeps the attributes, parses the name, and takes a type iff `FnArgType::peek` holds |
| FnArguments.SelfArgument | crates/rune/src/ast/fn_arg.rs:30-39 | `self` alone is an untyped `self` argument |
| FnArguments.TypedArgument | crates/rune/src/ast/fn_arg.rs:30-39 | `x: T` is a named argument with a type |
| ExprUnaries.FromToken | crates/rune/src/ast/expr_unary.rs:60-67 | `!`, `&` and `*` are operators; anything else is an error at the token |
| ExprUnaries.OpSymbol | crates/rune/src/ast/expr_unary.rs:70-80 | definition: the `Display` of an operator, `!`, `&` or `*` |
| ExprUnaries.DisplayRoundTrip | crates/rune/src/ast/expr_unary.rs:60-79 | printing an operator and reading its symbol gives the operator back |
| ExprUnaries.FromTokenThenDisplay | crates/rune/src/ast/expr_unary.rs:60-79 | an operator read from a token prints as that token's symbol |
| ExprUnaries.ParseExprUnary | crates/rune/src/ast/expr_unary.rs:30-44 | the operator token, then a primary expression; EOF and non-operators are errors |
| ItemFns.ItemSpan | crates/rune/src/ast/item_fn.rs:33-39 | the span starts at `async` when present, else at `fn`, and ends at `)` |
| ItemFns.OptionalReturnType | crates/rune/src/ast/item_fn.rs:50-64 | a return type is taken iff `ReturnType::peek` holds; otherwise nothing is consumed |
| ItemFns.ParseFnHead | crates/rune/src/ast/item_fn.rs:50-58 | visibility, `async` iff present, then `fn` and the name, consuming exactly those tokens |
| ItemFns.ParseItemFnWithAttributes | crates/rune/src/ast/item_fn.rs:50-64 | keeps the attributes; the head, then the arguments |
| ItemFns.AsyncAfterFnRejected | crates/rune/src/ast/item_fn.rs:80-81 | `fn async` is rejected with a mismatch at `async` |
| ItemFns.AsyncFnAccepted | crates/rune/src/ast/item_fn.rs:80-81 | `async fn name(…) {}` parses, with the span starting at `async` |
| ItemFns.PeekItemFn | crates/rune/src/ast/item_fn.rs:67-71 | definition: `ItemFn::peek`, true for `fn` or `async` |
| ItemFns.PeekReturnType | crates/rune/src/ast/return_type.rs:13-17 | definition: `ReturnType::peek`, `->` followed by a token that starts a type |
| ItemFns.IsInstance | crates/rune/src/ast/item_fn.rs:42-47 | definition: `is_instance`, the first argument is `self` |
| ItemFns.ParsedFnWasPeeked | crates/rune/src/ast/item_fn.rs:50-70 | a parsed function was accepted by the `fn` peek |
| ItemFns.InstanceIffSelfToken | crates/rune/src/ast/item_fn.rs:42-47 | `is_instance` holds iff the first argument is `self` |
| ItemDecls.NeedsSemiColon | crates/rune/src/ast/item.rs:29-31 | definition: `needs_semi_colon`, true exactly for a macro call |
| ItemDecls.PeekItem | crates/rune/src/ast/item.rs:54-72 | definition: `Item::peek`, a declaration keyword, an identifier, or an attribute start |
| ItemDecls.PeekAsStmt | crates/rune/src/ast/item.rs:34-51 | definition: `peek_as_stmt`, a declaration keyword or an attribute start, false at the end |
| ItemDecls.DeclKindOf | crates/rune/src/ast/item.rs:75-90 | the first token selects a declaration: keywords and identifiers (macro calls); `async` and `fn` select a function |
| ItemDecls.StmtPeekIsItemPeekWithoutMacros | crates/rune/src/ast/item.rs:34-71 | `peek_as_stmt` is `Item::peek` except that an identifier does not count |
| ItemDecls.ParseItem | crates/rune/src/ast/item.rs:75-90 | a declaration by its first token, else an attribute; a failed attribute is `ExpectedItem` at the token |
| ItemDecls.ItemVariantByFirstToken | crates/rune/src/ast/item.rs:29-31 | a parsed item is a declaration iff its first token selects one; it needs a semicolon iff that token is an identifier |
| ItemDecls.ParsedItemWasPeeked | crates/rune/src/ast/item.rs:55-90 | whatever parses as an item was accepted by `Item::peek` |
| PatObjects.ItemSpan | crates/rune/src/ast/pat_object.rs:90-96 | an item's span runs from the key to the binding's pattern, or is the key's span |
| PatObjects.ParseObjectItem | crates/rune/src/ast/pat_object.rs:100-110 | a key, with a binding iff `:` follows the key |
| PatObjects.ObjectItemForward | crates/rune/src/ast/pat_object.rs:100-110 | an item parse never moves backwards or past the input |
| PatObjects.ParseObjectItems | crates/rune/src/ast/pat_object.rs:37-60 | all items but the last have a comma; the pattern stays open iff there are no items or the last has a comma, and then no item follows |
| PatObjects.ParseWithIdent | crates/rune/src/ast/pat_object.rs:28-69 | keeps the ident; `{`, comma-separated items, `..` only after a comma or at once, `}` |
| PatObjects.ParseRestAndClose | crates/rune/src/ast/pat_object.rs:54-60 | a `..` is taken iff the pattern is open and one is ahead, then `}` |
| PatObjects.ParsePatObject | crates/rune/src/ast/pat_object.rs:73-76 | the ident, then `parse_with_ident` |
| PatObjects.EmptyPatterns | crates/rune/src/ast/pat_object.rs:28-69 | `{}` has no items and no rest; `{..}` has no items and a rest |
| PatObjects.ParseItemAndComma | crates/rune/src/ast/pat_object.rs:38-51 | one loop body: an item and an optional comma |
| PatObjects.ParseRestAndCloseAt | crates/rune/src/ast/pat_object.rs:54-60 | the cursor version agrees with `ParseRestAndClose` |
| PatObjects.ParseObjectItemsAt | crates/rune/src/ast/pat_object.rs:37-60 | the `while`/`break` loop agrees with `ParseObjectItems` |
| PatObjects.ParseWithIdentAt | crates/rune/src/ast/pat_object.rs:28-69 | the cursor parse agrees with `ParseWithIdent` |
| LinkedLists.Node.constructor | scripts/py/linked_list.py:4-6 | a node holds its value and link |
| LinkedLists.List.constructor | scripts/py/linked_list.py:9-11 | a new list has no first and no last node, and no values |
| LinkedLists.List.PushBack | scripts/py/linked_list.py:13-20 | the values gain one at the end, in a new last node linked to nothing; in an empty list it is also the first node, otherwise the old last links to it |
| LinkedLists.List.Iterate | scripts/py/linked_list.py:22-23 | the iterator's remaining values are the list's values |
| LinkedLists.Iter.constructor | scripts/py/linked_list.py:26-27 | the iterator starts at the given node |
| LinkedLists.Iter.Next | scripts/py/linked_list.py:32-39 | at the end there is nothing; otherwise the first remaining value, which is then dropped |
| LinkedLists.Collect | scripts/py/linked_list.py:48-51 | iterating collects exactly the list's values, in push order |
| LinkedLists.PushThreeAndCollect | scripts/py/linked_list.py:43-54 | pushing 1, 2 and 3 and collecting gives [1, 2, 3] |

## Left out

- The parser's token primitives (`Parser`, `token_peek`, `token_next` and the lexer) are not part of this model. `Tokens` assumes the following about them:
  - a failed single-token parse consumes nothing;
  - `token_next` at the end reports `UnexpectedEof`;
  - `Option<T>` peeks, then parses;
  - `Span::join` runs from the first span's start to the second span's end.
- Grammars derived by macros or defined elsewhere are parameters of the model, since their code is not part of it. These are `Path::parse`, `LitStr`, `Visibility`, the parenthesized argument list, `Block`, the primary-expression parser, the item sub-grammars, object keys, object identifiers and `Pat`.
- `Attributes.ParseNonDelimiter`: requires a token at the cursor. The source's `unwrap` panics at the end, and that panic is not modelled as an outcome.
- The reason strings of `UnexpectedToken` errors are not modelled. Error messages are modelled as error kinds, not formatted text.
- `FnArg::parse` and `ItemFn::parse` parse an attribute list first. Here the attributes are a parameter, because the attribute-list parser is not part of this model.
- The tests `test_attr_input` and `test_attribute` run the real lexer, which is not part of this model.
- `Worker::run`'s `log::trace!` calls are not modelled. Neither are `Import::process`'s `println!`, `print_tree` and `log::debug!`.
- `SourceLoader`, the context, the unit builder, `parse_all`, `Indexer::index`, `MacroCompiler::eval_macro` and `Sources` are external. They are function-valued parameters, and syntax trees are only identifiers.
- The index scopes and `impl_items` carried by index and macro tasks are not modelled, because nothing in the core reads them.
- Workers.Worker.Run: runs for at most `fuel` tasks, because macro expansion can enqueue without end. The outcome `OutOfFuel` has no counterpart in the source.
- `Rc<RefCell<…>>` sharing is not modelled:
  - an `Import` task's tree changes are made on a copy of the tree it carries, which is discarded after the task, as the task owns its `Items`;
  - `Items` clones that share a stack are not modelled.
- `expect`, `unwrap`, `assert_eq!` and `debug_assert!` panics are returned outcomes:
  - `ok = false` for the guard checks;
  - `ImportOutcome.Panicked` and `Workers.Aborted` elsewhere.
  - The exception is the `unwrap_or_else(panic)` of `TooManyPaths` in the `Items` pushes. That one is a `requires` (room in the tree).
- `PathTrees.Tree.Push`: requires that a `Use` target is an existing node. The source's `resolve` has no cycle check, so an alias to a later node could loop.
- QualifiedPaths.IsSuperOf: requires a non-empty second path. On an empty one `other.len() - 1` panics in a debug build and wraps to `usize::MAX` in a release build, where the result is false. `is_super_of` has no caller.
- PathTrees.FindFrom: its own contract states only that a stored node is returned. What it returns is stated by `FindFromChain`, `FindFromSound` and the `FindPath*` lemmas.
- PathTrees.FindPath: its own contract states only that a stored node is returned. `FindSound` states soundness. `FindPathFollowsChain`, `FindPathFailsAfterChain`, `FindPathChildlessEnd` and `FindPathMissesLast` state the outcome in every case.
- ItemPaths.Items.CrateName: returns `None` where the source's `crate_` would panic on a tree without node 1.
- `PathTree::fmt_list`, `TreeFormatter`, `iter_refs`, `PathId`'s `Display` and the `test_storage` test only print, so they are left out.
- `QualifiedPath`'s `new`, `push`, `pop`, `iter`, `first`, `last`, `len`, `is_empty` and `Display` are the built-in operations of `seq<string>`, so they have no members of their own.
- `PathRef`'s equality is left out, because nodes are identified by their index.
- The older `ast/ty.rs` and `ast/ty_path.rs`, `ast/vis_restricted.rs` and `runestick/type_.rs` are outside the core. So are the `compiler_type_hints` test, `rune-interpreter` and `rune-cli`.
- The `time.time()` measurement and the printing in `linked_list.py` are left out.
- The Python list holds any values. Here its element type is a type parameter.
