/**
 * The compiler's task queue, `Worker::run` of crates/rune/src/worker.rs: a
 * first-in first-out queue of load, index, import and macro-expansion
 * tasks, each of which may record an error or enqueue follow-up tasks.
 *
 * Source lookup, parsing, indexing, macro evaluation and the unit builder
 * are not part of this model: they are the function-valued fields of a
 * `WorkerEnv`. Syntax trees are represented by an identifier only.
 */
module Workers {
  import opened Wrappers
  import opened Components
  import opened PathTrees
  import opened ItemPaths
  import Imports

  /** A loaded source file: its text and, when it has one, its path. */
  datatype Source = Source(text: string, path: Option<string>)

  /** Parsed syntax, not modelled beyond an identifier. */
  datatype FileAst = FileAst(id: nat)
  datatype ItemAst = ItemAst(id: nat)
  datatype ExprAst = ExprAst(id: nat)
  datatype MacroCall = MacroCall(id: nat)

  /** A compile error reported by one of the external stages. */
  datatype CompileError = CompileError(code: nat)

  /** `LoadFileKind`: a root file takes its root from its own path. */
  datatype LoadFileKind = Root | Module(root: Option<string>)

  /** `IndexAst`: what an index task indexes. */
  datatype IndexAst = FileRoot(file: FileAst) | ItemNode(item: ItemAst) | ExprNode(expr: ExprAst)

  datatype MacroKind = ExprMacro | ItemMacro

  /** The fields of an `Index` task (the index scopes and impl items are not modelled). */
  datatype IndexTask = IndexTask(
    root: Option<string>,
    item: Item,
    items: ItemsState,
    sourceId: nat,
    source: Source,
    ast: IndexAst)

  /** The fields of a `Macro` task (the index scopes and impl items are not modelled). */
  datatype MacroTask = MacroTask(
    kind: MacroKind,
    root: Option<string>,
    items: ItemsState,
    ast: MacroCall,
    source: Source,
    sourceId: nat)

  datatype Task =
    | LoadFile(kind: LoadFileKind, item: Item, sourceId: nat)
    | Index(index: IndexTask)
    | ImportTask(imp: Imports.Import, items: ItemsState, sourceId: nat)
    | ExpandMacro(mac: MacroTask)

  datatype ErrorKind =
    | MissingSource
    | ParseFailed(parseError: CompileError)
    | CompileFailed(compileError: CompileError)
    | ExpectedMacroComponent
    | ImportFailed(importError: Imports.ImportError)

  /** `LoadError`: an error tagged with the source it came from. */
  datatype LoadError = LoadError(sourceId: nat, kind: ErrorKind)

  /**
   * The external stages. `index` returns the tasks the indexer enqueued and
   * the error it ended with, if any.
   */
  datatype WorkerEnv<!U> = WorkerEnv(
    sources: nat -> Option<Source>,
    parseFile: Source -> Result<FileAst, CompileError>,
    index: IndexTask -> (seq<Task>, Option<CompileError>),
    evalExpr: (MacroTask, Item) -> Result<ExprAst, CompileError>,
    evalItem: (MacroTask, Item) -> Result<ItemAst, CompileError>,
    imports: Imports.Env<U>)

  /** The worker's mutable fields: the queue, the errors, the expansions and the unit. */
  datatype WorkerState<U> = WorkerState(
    queue: seq<Task>,
    errors: seq<LoadError>,
    expanded: map<Item, ExprAst>,
    unit: U)

  /** What aborts the compiler in the middle of a task. */
  datatype Panic =
    | ItemTooLong
    | ImportPanicked(reason: Imports.ImportPanic)

  datatype StepOutcome<U> = Stepped(state: WorkerState<U>) | Aborted(panic: Panic)

  datatype RunOutcome<U> =
    | Drained(state: WorkerState<U>)
    | Stopped(panic: Panic)
    | OutOfFuel(state: WorkerState<U>)

  // ------------------------------------------------------------------ step

  /** A `LoadFile` task: one index task for the parsed file, or one error. */
  function LoadFileStep<U>(env: WorkerEnv<U>, st: WorkerState<U>, rest: seq<Task>,
                           kind: LoadFileKind, item: Item, sourceId: nat): StepOutcome<U>
  {
    match env.sources(sourceId)
    case None => Stepped(st.(queue := rest, errors := st.errors + [LoadError(sourceId, MissingSource)]))
    case Some(source) =>
      match env.parseFile(source)
      case Err(e) => Stepped(st.(queue := rest, errors := st.errors + [LoadError(sourceId, ParseFailed(e))]))
      case Ok(file) =>
        if |item| > TREE_USIZE_MAX then Aborted(ItemTooLong)
        else
          var root := if kind.Root? then source.path else kind.root;
          var task := IndexTask(root, item, NewItemsState(item), sourceId, source, FileRoot(file));
          Stepped(st.(queue := rest + [Index(task)]))
  }

  /** An `Index` task: the indexer's follow-ups, and an expansion or an error. */
  function IndexStep<U>(env: WorkerEnv<U>, st: WorkerState<U>, rest: seq<Task>, t: IndexTask): StepOutcome<U> {
    var (more, err) := env.index(t);
    match err
    case Some(e) => Stepped(st.(queue := rest + more, errors := st.errors + [LoadError(t.sourceId, CompileFailed(e))]))
    case None =>
      var expanded := if t.ast.ExprNode? then st.expanded[t.item := t.ast.expr] else st.expanded;
      Stepped(st.(queue := rest + more, expanded := expanded))
  }

  /** An `Import` task: process it against the unit; a refusal is one error. */
  function ImportStep<U>(env: WorkerEnv<U>, st: WorkerState<U>, rest: seq<Task>,
                         imp: Imports.Import, items: ItemsState, sourceId: nat): StepOutcome<U>
  {
    match Imports.ProcessImport(env.imports, items.tree.storage, st.unit, imp)
    case Panicked(r) => Aborted(ImportPanicked(r))
    case Finished(_, u', err) =>
      var errors := if err.Some? then st.errors + [LoadError(sourceId, ImportFailed(err.value))] else st.errors;
      Stepped(st.(queue := rest, errors := errors, unit := u'))
  }

  /** Evaluate a macro at `item` and index what it expands to. */
  function ExpandStep<U>(env: WorkerEnv<U>, st: WorkerState<U>, rest: seq<Task>, m: MacroTask, item: Item): StepOutcome<U> {
    var expansion: Result<IndexAst, CompileError> :=
      if m.kind.ExprMacro? then
        match env.evalExpr(m, item)
        case Ok(e) => Ok(ExprNode(e))
        case Err(e) => Err(e)
      else
        match env.evalItem(m, item)
        case Ok(i) => Ok(ItemNode(i))
        case Err(e) => Err(e);
    match expansion
    case Err(e) => Stepped(st.(queue := rest, errors := st.errors + [LoadError(m.sourceId, CompileFailed(e))]))
    case Ok(ast) =>
      Stepped(st.(queue := rest + [Index(IndexTask(m.root, item, m.items, m.sourceId, m.source, ast))]))
  }

  /**
   * An `ExpandMacro` task. The item is captured first; an item macro must
   * then pop its own `Macro` component so that indexing happens at the
   * enclosing item.
   */
  function MacroStep<U>(env: WorkerEnv<U>, st: WorkerState<U>, rest: seq<Task>, m: MacroTask): StepOutcome<U> {
    var item := ItemOf(m.items);
    if m.kind.ItemMacro? then
      var (popped, items') := PopComponentState(m.items);
      if popped.Some? && popped.value.Macro? then ExpandStep(env, st, rest, m.(items := items'), item)
      else Stepped(st.(queue := rest, errors := st.errors + [LoadError(m.sourceId, ExpectedMacroComponent)]))
    else ExpandStep(env, st, rest, m, item)
  }

  /** One turn of the `run` loop: take the front task and handle it. */
  function Dispatch<U>(env: WorkerEnv<U>, st: WorkerState<U>): (r: StepOutcome<U>)
    requires st.queue != []
  {
    var rest := st.queue[1..];
    match st.queue[0]
    case LoadFile(kind, item, sourceId) => LoadFileStep(env, st, rest, kind, item, sourceId)
    case Index(t) => IndexStep(env, st, rest, t)
    case ImportTask(imp, items, sourceId) => ImportStep(env, st, rest, imp, items, sourceId)
    case ExpandMacro(m) => MacroStep(env, st, rest, m)
  }

  /** `Worker::run`, for at most `fuel` tasks (macro expansion may enqueue without end). */
  function Drain<U>(env: WorkerEnv<U>, st: WorkerState<U>, fuel: nat): RunOutcome<U>
    decreases fuel
  {
    if st.queue == [] then Drained(st)
    else if fuel == 0 then OutOfFuel(st)
    else
      match Dispatch(env, st)
      case Aborted(p) => Stopped(p)
      case Stepped(st') => Drain(env, st', fuel - 1)
  }

  // ---------------------------------------------------------------- lemmas

  /**
   * First in, first out: a step removes the front task and keeps the rest
   * in order at the front of the queue; new tasks go at the back. Errors
   * are only ever appended, at most one per step.
   */
  lemma StepIsFifo<U>(env: WorkerEnv<U>, st: WorkerState<U>)
    requires st.queue != [] && Dispatch(env, st).Stepped?
    ensures var st' := Dispatch(env, st).state;
      && |st.queue| - 1 <= |st'.queue|
      && st'.queue[..|st.queue| - 1] == st.queue[1..]
      && |st.errors| <= |st'.errors| <= |st.errors| + 1
      && st'.errors[..|st.errors|] == st.errors
  {
    var st' := Dispatch(env, st).state;
    assert st'.errors[..|st.errors|] == st.errors;
    assert st'.queue[..|st.queue| - 1] == st.queue[1..];
  }

  /**
   * A `LoadFile` task either records exactly one error and enqueues nothing,
   * or records none and enqueues exactly one `Index` task over the whole
   * parsed file at the task's item, with a fresh item stack for it.
   */
  lemma LoadFileYieldsIndexOrError<U>(env: WorkerEnv<U>, st: WorkerState<U>)
    requires st.queue != [] && st.queue[0].LoadFile? && |st.queue[0].item| <= TREE_USIZE_MAX
    ensures Dispatch(env, st).Stepped?
    ensures var st' := Dispatch(env, st).state;
      var task := st.queue[0];
      || (st'.queue == st.queue[1..] && |st'.errors| == |st.errors| + 1 && st'.errors[|st.errors|].sourceId == task.sourceId)
      || (st'.errors == st.errors && |st'.queue| == |st.queue|
          && st'.queue[..|st.queue| - 1] == st.queue[1..]
          && var last := st'.queue[|st.queue| - 1];
             last.Index? && last.index.item == task.item && last.index.items == NewItemsState(task.item)
             && last.index.ast.FileRoot? && env.sources(task.sourceId) == Some(last.index.source)
             && env.parseFile(last.index.source) == Ok(last.index.ast.file))
  {
    var st' := Dispatch(env, st).state;
    assert st'.queue[..|st.queue| - 1] == st.queue[1..];
  }

  /**
   * An item macro whose builder does not end in a `Macro` component records
   * one internal error and enqueues nothing.
   */
  lemma ItemMacroWithoutMacroComponent<U>(env: WorkerEnv<U>, st: WorkerState<U>)
    requires st.queue != [] && st.queue[0].ExpandMacro? && st.queue[0].mac.kind.ItemMacro?
    requires var item := ItemOf(st.queue[0].mac.items);
      item == [] || !item[|item| - 1].Macro?
    ensures Dispatch(env, st) == Stepped(st.(queue := st.queue[1..],
      errors := st.errors + [LoadError(st.queue[0].mac.sourceId, ExpectedMacroComponent)]))
  {
    var m := st.queue[0].mac;
    var (popped, _) := PopComponentState(m.items);
    if m.items.path != [] {
      assert popped.value == ItemOf(m.items)[|ItemOf(m.items)| - 1];
    }
  }

  /**
   * An item macro that ends in its `Macro` component and expands enqueues
   * exactly one `Index` task whose item is the one captured before the pop,
   * while its builder has the component popped.
   */
  lemma ItemMacroIndexesCapturedItem<U>(env: WorkerEnv<U>, st: WorkerState<U>)
    requires st.queue != [] && st.queue[0].ExpandMacro? && st.queue[0].mac.kind.ItemMacro?
    requires var item := ItemOf(st.queue[0].mac.items);
      item != [] && item[|item| - 1].Macro?
    requires var m := st.queue[0].mac;
      env.evalItem(m.(items := PopComponentState(m.items).1), ItemOf(m.items)).Ok?
    ensures var m := st.queue[0].mac;
      var item := ItemOf(m.items);
      var st' := Dispatch(env, st);
      && st'.Stepped? && st'.state.errors == st.errors
      && st'.state.queue == st.queue[1..] + [Index(st'.state.queue[|st.queue| - 1].index)]
      && var t := st'.state.queue[|st.queue| - 1].index;
         t.item == item && ItemOf(t.items) + [item[|item| - 1]] == item && t.ast.ItemNode?
  {
    var m := st.queue[0].mac;
    var (popped, items') := PopComponentState(m.items);
    assert popped.value == ItemOf(m.items)[|ItemOf(m.items)| - 1];
  }

  /**
   * Only a successfully indexed expression records an expansion, under the
   * task's item; every other step leaves the expansions as they were.
   */
  lemma OnlyIndexedExprRecordsExpansion<U>(env: WorkerEnv<U>, st: WorkerState<U>)
    requires st.queue != [] && Dispatch(env, st).Stepped?
    ensures var st' := Dispatch(env, st).state;
      st'.expanded != st.expanded ==>
        && st.queue[0].Index? && st.queue[0].index.ast.ExprNode?
        && env.index(st.queue[0].index).1.None?
        && st'.expanded == st.expanded[st.queue[0].index.item := st.queue[0].index.ast.expr]
  {
  }

  /** An index task whose indexer fails records exactly one error, tagged with its source. */
  lemma IndexFailureRecordsOneError<U>(env: WorkerEnv<U>, st: WorkerState<U>)
    requires st.queue != [] && st.queue[0].Index? && env.index(st.queue[0].index).1.Some?
    ensures var t := st.queue[0].index;
      Dispatch(env, st) == Stepped(st.(queue := st.queue[1..] + env.index(t).0,
        errors := st.errors + [LoadError(t.sourceId, CompileFailed(env.index(t).1.value))]))
  {
  }

  /** Running never forgets an error: the errors before are a prefix of the errors after. */
  lemma {:induction false} RunKeepsErrors<U>(env: WorkerEnv<U>, st: WorkerState<U>, fuel: nat)
    ensures var r := Drain(env, st, fuel);
      !r.Stopped? ==> |st.errors| <= |r.state.errors| && r.state.errors[..|st.errors|] == st.errors
    decreases fuel
  {
    if st.queue != [] && fuel > 0 && Dispatch(env, st).Stepped? {
      var st' := Dispatch(env, st).state;
      StepIsFifo(env, st);
      RunKeepsErrors(env, st', fuel - 1);
      var r := Drain(env, st', fuel - 1);
      if !r.Stopped? {
        assert r.state.errors[..|st.errors|] == r.state.errors[..|st'.errors|][..|st.errors|];
      }
    }
  }

  /** A drained run ends with an empty queue. */
  lemma {:induction false} DrainedMeansEmpty<U>(env: WorkerEnv<U>, st: WorkerState<U>, fuel: nat)
    ensures Drain(env, st, fuel).Drained? ==> Drain(env, st, fuel).state.queue == []
    decreases fuel
  {
    if st.queue != [] && fuel > 0 && Dispatch(env, st).Stepped? {
      DrainedMeansEmpty(env, Dispatch(env, st).state, fuel - 1);
    }
  }

  // ----------------------------------------------------------------- class

  /** `Worker`: the queue and the results it accumulates. */
  class Worker<U> {
    var queue: seq<Task>
    var errors: seq<LoadError>
    var expanded: map<Item, ExprAst>
    var unit: U
    const env: WorkerEnv<U>

    function State(): WorkerState<U>
      reads this
    {
      WorkerState(queue, errors, expanded, unit)
    }

    /** `Worker::new`: no errors and no expansions yet. */
    constructor (env: WorkerEnv<U>, queue: seq<Task>, unit: U)
      ensures this.env == env && State() == WorkerState(queue, [], map[], unit)
    {
      this.env := env;
      this.queue := queue;
      this.errors := [];
      this.expanded := map[];
      this.unit := unit;
    }

    /** `Items::new` inside `LoadFile`, with the guards forgotten. */
    method LoadFileTask(kind: LoadFileKind, item: Item, sourceId: nat) returns (panic: Option<Panic>)
      modifies this
      ensures var spec := LoadFileStep(env, old(State()), old(queue), kind, item, sourceId);
        match spec
        case Aborted(p) => panic == Some(p)
        case Stepped(st') => panic.None? && State() == st'
    {
      var source := env.sources(sourceId);
      if source.None? {
        errors := errors + [LoadError(sourceId, MissingSource)];
        return None;
      }
      var file := env.parseFile(source.value);
      if file.Err? {
        errors := errors + [LoadError(sourceId, ParseFailed(file.error))];
        return None;
      }
      if |item| > TREE_USIZE_MAX {
        return Some(ItemTooLong);
      }
      var root := if kind.Root? then source.value.path else kind.root;
      var items := new Items.New(item);
      var itemsState := items.State();
      queue := queue + [Index(IndexTask(root, item, itemsState, sourceId, source.value, FileRoot(file.value)))];
      panic := None;
    }

    method IndexTaskStep(t: IndexTask)
      modifies this
      ensures Stepped(State()) == IndexStep(env, old(State()), old(queue), t)
    {
      var (more, err) := env.index(t);
      queue := queue + more;
      match err {
        case Some(e) =>
          errors := errors + [LoadError(t.sourceId, CompileFailed(e))];
        case None =>
          if t.ast.ExprNode? {
            expanded := expanded[t.item := t.ast.expr];
          }
      }
    }

    method ImportTaskStep(imp: Imports.Import, items: ItemsState, sourceId: nat) returns (panic: Option<Panic>)
      modifies this
      ensures var spec := ImportStep(env, old(State()), old(queue), imp, items, sourceId);
        match spec
        case Aborted(p) => panic == Some(p)
        case Stepped(st') => panic.None? && State() == st'
    {
      var tree := new Tree.Empty();
      tree.storage, tree.current := items.tree.storage, items.tree.current;
      var outcome := Imports.Process(tree, env.imports, unit, imp);
      match outcome {
        case Panicked(r) =>
          return Some(ImportPanicked(r));
        case Finished(_, u', err) =>
          unit := u';
          if err.Some? {
            errors := errors + [LoadError(sourceId, ImportFailed(err.value))];
          }
          panic := None;
      }
    }

    method MacroTaskStep(m: MacroTask)
      modifies this
      ensures Stepped(State()) == MacroStep(env, old(State()), old(queue), m)
    {
      var item := ItemOf(m.items);
      var items := m.items;
      if m.kind.ItemMacro? {
        var (popped, items') := PopComponentState(m.items);
        if !(popped.Some? && popped.value.Macro?) {
          errors := errors + [LoadError(m.sourceId, ExpectedMacroComponent)];
          return;
        }
        items := items';
      }
      var ast: IndexAst;
      if m.kind.ExprMacro? {
        var e := env.evalExpr(m.(items := items), item);
        if e.Err? {
          errors := errors + [LoadError(m.sourceId, CompileFailed(e.error))];
          return;
        }
        ast := ExprNode(e.value);
      } else {
        var i := env.evalItem(m.(items := items), item);
        if i.Err? {
          errors := errors + [LoadError(m.sourceId, CompileFailed(i.error))];
          return;
        }
        ast := ItemNode(i.value);
      }
      queue := queue + [Index(IndexTask(m.root, item, items, m.sourceId, m.source, ast))];
    }

    /** One turn of the loop: `pop_front`, then dispatch on the task. */
    method Step() returns (panic: Option<Panic>)
      requires queue != []
      modifies this
      ensures match Dispatch(env, old(State()))
        case Aborted(p) => panic == Some(p)
        case Stepped(st') => panic.None? && State() == st'
    {
      var task := queue[0];
      queue := queue[1..];
      match task {
        case LoadFile(kind, item, sourceId) =>
          panic := LoadFileTask(kind, item, sourceId);
        case Index(t) =>
          IndexTaskStep(t);
          panic := None;
        case ImportTask(imp, items, sourceId) =>
          panic := ImportTaskStep(imp, items, sourceId);
        case ExpandMacro(m) =>
          MacroTaskStep(m);
          panic := None;
      }
    }

    /** `Worker::run`, bounded by `fuel` turns. */
    method Run(fuel: nat) returns (r: RunOutcome<U>)
      modifies this
      ensures r == Drain(env, old(State()), fuel)
      ensures !r.Stopped? ==> State() == r.state
    {
      var n: nat := fuel;
      while queue != [] && n > 0
        invariant n <= fuel
        invariant Drain(env, State(), n) == Drain(env, old(State()), fuel)
        decreases n
      {
        var panic := Step();
        if panic.Some? {
          return Stopped(panic.value);
        }
        n := n - 1;
      }
      if queue == [] {
        r := Drained(State());
      } else {
        r := OutOfFuel(State());
      }
    }
  }
}
