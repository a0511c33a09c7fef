/**
 The export ledger: what the source prints while it walks its module trees
 (`Printout`), and the explicit-stack recogniser that closes the ledger again
 (`ValidateExportEvents`).  The two are proved to be inverse to each other in
 module `ExportLedgerProofs`.
 */
module ExportLedger {
  import opened Prelude

  /** An integer-typed JSON field: an int, absent or null, or some other type. */
  datatype Field = Int(i: int) | Null | Bad

  /** Texts are stored as the decoded value of a canonical UTF-8 hex field. */
  datatype Event =
    | ModuleBegin(moduleId: Field, parentModuleId: Field, functionCount: Field, submoduleCount: Field,
                  name: Option<string>, target: Option<string>)
    | FunctionBegin(moduleId: Field, functionId: Field, name: Option<string>)
    | ChildBegin(moduleId: Field, functionId: Field, childId: Field, script: Option<string>)
    | ChildEnd(moduleId: Field, functionId: Field, childId: Field, returncode: Field)
    | FunctionEnd(moduleId: Field, functionId: Field)
    | ModuleEnd(moduleId: Field)
    | ExportComplete(rootModuleId: Field, moduleCount: Field, functionCount: Field, childCount: Field)
    | Unknown

  datatype Row = Row(schema: string, seqNo: Field, event: Event)

  /** The observed receipt of one child: the ledger row it names, and whether its evidence is complete. */
  datatype Receipt = Receipt(sourceEvent: Row, complete: bool)

  const SCHEMA := "misaal-export-v1"

  // ---- What the source walks -------------------------------------------------

  datatype Func = Func(name: string, scripts: seq<string>)
  datatype Module = Module(name: string, target: string, submodules: seq<Module>, functions: seq<Func>)

  datatype Counters = Counters(modules: nat, functions: nat, children: nat)

  function AfterFuncs(fs: seq<Func>, c: Counters): Counters {
    if fs == [] then c
    else
      var b := AfterFuncs(fs[..|fs| - 1], c);
      Counters(b.modules, b.functions + 1, b.children + |fs[|fs| - 1].scripts|)
  }

  function AfterForest(ms: seq<Module>, c: Counters): Counters
    decreases ms, 0
  {
    if ms == [] then c
    else AfterModule(ms[|ms| - 1], AfterForest(ms[..|ms| - 1], c))
  }

  function AfterModule(m: Module, c: Counters): Counters
    decreases m, 1
  {
    AfterFuncs(m.functions, AfterForest(m.submodules, c.(modules := c.modules + 1)))
  }

  // ---- The printer -----------------------------------------------------------

  function PrintChildren(scripts: seq<string>, m: nat, f: nat, c: nat): seq<Event> {
    if scripts == [] then []
    else
      var n := |scripts| - 1;
      PrintChildren(scripts[..n], m, f, c)
      + [ChildBegin(Int(m), Int(f), Int(c + n), Some(scripts[n])), ChildEnd(Int(m), Int(f), Int(c + n), Int(0))]
  }

  function PrintFunc(fn: Func, m: nat, c: Counters): seq<Event> {
    [FunctionBegin(Int(m), Int(c.functions), Some(fn.name))]
    + PrintChildren(fn.scripts, m, c.functions, c.children)
    + [FunctionEnd(Int(m), Int(c.functions))]
  }

  function PrintFuncs(fs: seq<Func>, m: nat, c: Counters): seq<Event> {
    if fs == [] then []
    else
      var n := |fs| - 1;
      PrintFuncs(fs[..n], m, c) + PrintFunc(fs[n], m, AfterFuncs(fs[..n], c))
  }

  function ParentField(parent: Option<nat>): Field {
    if parent.Some? then Int(parent.value) else Null
  }

  function BeginEvent(m: Module, parent: Option<nat>, id: nat): Event {
    ModuleBegin(Int(id), ParentField(parent), Int(|m.functions|), Int(|m.submodules|), Some(m.name), Some(m.target))
  }

  function PrintForest(ms: seq<Module>, parent: Option<nat>, c: Counters): seq<Event>
    decreases ms, 0
  {
    if ms == [] then []
    else
      var n := |ms| - 1;
      PrintForest(ms[..n], parent, c) + PrintModule(ms[n], parent, AfterForest(ms[..n], c))
  }

  /** A module prints its begin, its submodules, its functions and its end; ids are taken in begin order. */
  function PrintModule(m: Module, parent: Option<nat>, c: Counters): seq<Event>
    decreases m, 1
  {
    var inner := c.(modules := c.modules + 1);
    [BeginEvent(m, parent, c.modules)]
    + PrintForest(m.submodules, Some(c.modules), inner)
    + PrintFuncs(m.functions, c.modules, AfterForest(m.submodules, inner))
    + [ModuleEnd(Int(c.modules))]
  }

  function CompleteEvent(root: nat, c: Counters): Event {
    ExportComplete(Int(root), Int(c.modules), Int(c.functions), Int(c.children))
  }

  const ZERO := Counters(0, 0, 0)

  /** Every root is followed by a completion carrying the cumulative counts. */
  function PrintRoots(roots: seq<Module>): seq<Event> {
    if roots == [] then []
    else
      var n := |roots| - 1;
      var before := AfterForest(roots[..n], ZERO);
      PrintRoots(roots[..n]) + PrintModule(roots[n], None, before)
      + [CompleteEvent(before.modules, AfterForest(roots, ZERO))]
  }

  function Numbered(es: seq<Event>): seq<Row> {
    seq(|es|, i requires 0 <= i < |es| => Row(SCHEMA, Int(i), es[i]))
  }

  function Printout(roots: seq<Module>): seq<Row> {
    Numbered(PrintRoots(roots))
  }

  predicate NamedFuncs(fs: seq<Func>) {
    forall f :: f in fs ==> f.name != "" && forall s :: s in f.scripts ==> s != ""
  }

  /** Names, targets and scripts are nonempty. */
  predicate NamedModule(m: Module)
    decreases m, 1
  {
    m.name != "" && m.target != "" && NamedForest(m.submodules) && NamedFuncs(m.functions)
  }

  predicate NamedForest(ms: seq<Module>)
    decreases ms, 0
  {
    ms == [] || (NamedForest(ms[..|ms| - 1]) && NamedModule(ms[|ms| - 1]))
  }

  // ---- The recogniser --------------------------------------------------------

  datatype Frame = Frame(id: nat, functionCount: nat, submoduleCount: nat, functions: nat, submodules: nat)
  datatype OpenFunc = OpenFunc(moduleId: nat, functionId: nat)
  datatype OpenChild = OpenChild(moduleId: nat, functionId: nat, childId: nat)

  datatype State = State(
    stack: seq<Frame>, function_: Option<OpenFunc>, child: Option<OpenChild>, pendingRoot: Option<nat>,
    count: Counters, roots: nat)
  {
    function Top(): Frame requires stack != [] { stack[|stack| - 1] }
    function WithTop(f: Frame): State requires stack != [] { this.(stack := stack[..|stack| - 1] + [f]) }
  }

  const START := State([], None, None, None, ZERO, 0)

  predicate Text(t: Option<string>) { t.Some? && t.value != "" }
  predicate Natural(f: Field) { f.Int? && f.i >= 0 }

  /** One row of the recogniser; `None` is the raised error. */
  function Step(s: State, e: Event): Option<State> {
    match e
    case ModuleBegin(id, parent, fc, sc, name, target) =>
      if s.function_.Some? || s.child.Some? || s.pendingRoot.Some? then None
      else if id != Int(s.count.modules) || parent != ParentField(if s.stack == [] then None else Some(s.Top().id)) then None
      else if !Natural(fc) || !Natural(sc) then None
      else if s.stack != [] && (s.Top().functions != 0 || s.Top().submodules >= s.Top().submoduleCount) then None
      else if !Text(name) || !Text(target) then None
      else Some(s.(stack := s.stack + [Frame(s.count.modules, fc.i, sc.i, 0, 0)],
                   count := s.count.(modules := s.count.modules + 1)))
    case FunctionBegin(id, fid, name) =>
      if s.stack == [] || s.function_.Some? || s.child.Some? then None
      else if id != Int(s.Top().id) || fid != Int(s.count.functions) then None
      else if s.Top().submodules != s.Top().submoduleCount || s.Top().functions >= s.Top().functionCount then None
      else if !Text(name) then None
      else Some(s.(function_ := Some(OpenFunc(s.Top().id, s.count.functions)),
                   count := s.count.(functions := s.count.functions + 1)))
    case ChildBegin(id, fid, cid, script) =>
      if s.function_.None? || s.child.Some? then None
      else if id != Int(s.function_.value.moduleId) || fid != Int(s.function_.value.functionId) then None
      else if cid != Int(s.count.children) || !Text(script) then None
      else Some(s.(child := Some(OpenChild(s.function_.value.moduleId, s.function_.value.functionId, s.count.children)),
                   count := s.count.(children := s.count.children + 1)))
    case ChildEnd(id, fid, cid, returncode) =>
      if s.child.None? then None
      else if id != Int(s.child.value.moduleId) || fid != Int(s.child.value.functionId) || cid != Int(s.child.value.childId)
      then None
      else if returncode != Int(0) then None
      else Some(s.(child := None))
    case FunctionEnd(id, fid) =>
      if s.function_.None? || s.child.Some? || s.stack == [] then None
      else if id != Int(s.function_.value.moduleId) || fid != Int(s.function_.value.functionId) then None
      else Some(s.WithTop(s.Top().(functions := s.Top().functions + 1)).(function_ := None))
    case ModuleEnd(id) =>
      if s.stack == [] || s.function_.Some? || s.child.Some? then None
      else if id != Int(s.Top().id) then None
      else if s.Top().functions != s.Top().functionCount || s.Top().submodules != s.Top().submoduleCount then None
      else
        var below := s.(stack := s.stack[..|s.stack| - 1]);
        Some(if below.stack != [] then below.WithTop(below.Top().(submodules := below.Top().submodules + 1))
             else below.(pendingRoot := Some(s.Top().id)))
    case ExportComplete(root, mc, fc, cc) =>
      if s.stack != [] || s.function_.Some? || s.child.Some? || s.pendingRoot.None? then None
      else if root != Int(s.pendingRoot.value) then None
      else if mc != Int(s.count.modules) || fc != Int(s.count.functions) || cc != Int(s.count.children) then None
      else Some(s.(pendingRoot := None, roots := s.roots + 1))
    case Unknown => None
  }

  function Run(s: State, es: seq<Event>): Option<State> {
    if es == [] then Some(s)
    else
      var before := Run(s, es[..|es| - 1]);
      if before.None? then None else Step(before.value, es[|es| - 1])
  }

  predicate Closed(s: State) {
    s.roots != 0 && s.stack == [] && s.function_.None? && s.child.None? && s.pendingRoot.None?
  }

  function Events(rows: seq<Row>): seq<Event> {
    seq(|rows|, i requires 0 <= i < |rows| => rows[i].event)
  }

  /** The rows that start a child, in ledger order. */
  function ChildRows(rows: seq<Row>): seq<Row> {
    if rows == [] then []
    else
      var n := |rows| - 1;
      ChildRows(rows[..n]) + if rows[n].event.ChildBegin? then [rows[n]] else []
  }

  /** Each observed receipt is complete and names exactly the next child row. */
  predicate Bound(receipts: seq<Receipt>, children: seq<Row>) {
    |receipts| == |children| && forall i :: 0 <= i < |receipts| ==> receipts[i] == Receipt(children[i], true)
  }

  predicate HeaderOk(rows: seq<Row>) {
    forall i :: 0 <= i < |rows| ==> rows[i].schema == SCHEMA && rows[i].seqNo == Int(i)
  }

  /** The recogniser's verdict on a whole ledger. */
  predicate Accepts(rows: seq<Row>, receipts: seq<Receipt>) {
    && HeaderOk(rows)
    && Run(START, Events(rows)).Some?
    && Closed(Run(START, Events(rows)).value)
    && Bound(receipts, ChildRows(rows))
  }

  datatype Summary = Summary(roots: nat, modules: nat, functions: nat, children: nat, events: nat)
}
