/**
 The recogniser of `ExportLedger` accepts exactly the printouts of nonempty
 forests, and a printout determines its forest.

 The proof carries a zipper: the finished roots, the modules still open with the
 submodules and functions they have collected, the open function and child, and
 the root waiting for its completion row.  `View` forgets the trees and leaves the
 recogniser's state; `PrintZipper` is the part of the ledger read so far.
 */
module ExportLedgerProofs {
  import opened Prelude
  import opened ExportLedger

  datatype Open = Open(name: string, target: string, functionCount: nat, submoduleCount: nat,
                       subs: seq<Module>, funcs: seq<Func>)
  datatype Zipper = Zipper(roots: seq<Module>, opens: seq<Open>, fn: Option<Func>, child: Option<string>,
                           pending: Option<Module>)

  const EMPTY := Zipper([], [], None, None, None)

  // ---- What a zipper stands for ----------------------------------------------

  function AfterOpens(os: seq<Open>, c: Counters): Counters {
    if os == [] then c
    else
      var n := |os| - 1;
      var b := AfterOpens(os[..n], c);
      AfterFuncs(os[n].funcs, AfterForest(os[n].subs, b.(modules := b.modules + 1)))
  }

  function IdOf(os: seq<Open>, c: Counters, k: nat): nat
    requires k < |os|
  {
    AfterOpens(os[..k], c).modules
  }

  function ParentId(os: seq<Open>, c: Counters): Option<nat> {
    if os == [] then None else Some(IdOf(os, c, |os| - 1))
  }

  function OpenEvent(o: Open, parent: Option<nat>, id: nat): Event {
    ModuleBegin(Int(id), ParentField(parent), Int(o.functionCount), Int(o.submoduleCount), Some(o.name), Some(o.target))
  }

  function PrintOpens(os: seq<Open>, c: Counters): seq<Event> {
    if os == [] then []
    else
      var n := |os| - 1;
      var b := AfterOpens(os[..n], c);
      var inner := b.(modules := b.modules + 1);
      PrintOpens(os[..n], c) + [OpenEvent(os[n], ParentId(os[..n], c), b.modules)]
      + PrintForest(os[n].subs, Some(b.modules), inner)
      + PrintFuncs(os[n].funcs, b.modules, AfterForest(os[n].subs, inner))
  }

  /** Counters at the innermost open module, before its open function. */
  function Base(z: Zipper): Counters {
    AfterOpens(z.opens, AfterForest(z.roots, ZERO))
  }

  function PrintTail(z: Zipper): seq<Event> {
    var roots := AfterForest(z.roots, ZERO);
    var b := Base(z);
    if z.pending.Some? then PrintModule(z.pending.value, None, roots)
    else if z.opens == [] || z.fn.None? then []
    else
      var m := IdOf(z.opens, roots, |z.opens| - 1);
      var f := z.fn.value;
      [FunctionBegin(Int(m), Int(b.functions), Some(f.name))]
      + PrintChildren(f.scripts, m, b.functions, b.children)
      + if z.child.None? then []
        else [ChildBegin(Int(m), Int(b.functions), Int(b.children + |f.scripts|), Some(z.child.value))]
  }

  function PrintZipper(z: Zipper): seq<Event> {
    PrintRoots(z.roots) + PrintOpens(z.opens, AfterForest(z.roots, ZERO)) + PrintTail(z)
  }

  function Frames(os: seq<Open>, c: Counters): seq<Frame> {
    if os == [] then []
    else
      var n := |os| - 1;
      Frames(os[..n], c) + [Frame(AfterOpens(os[..n], c).modules, os[n].functionCount, os[n].submoduleCount,
                                  |os[n].funcs|, |os[n].subs|)]
  }

  function CountOf(z: Zipper): Counters {
    var b := Base(z);
    if z.pending.Some? then AfterModule(z.pending.value, b)
    else if z.fn.None? then b
    else Counters(b.modules, b.functions + 1, b.children + |z.fn.value.scripts| + if z.child.Some? then 1 else 0)
  }

  /** The recogniser's state, with the trees forgotten. */
  function View(z: Zipper): State {
    var roots := AfterForest(z.roots, ZERO);
    var b := Base(z);
    State(
      Frames(z.opens, roots),
      if z.fn.None? || z.opens == [] then None
      else Some(OpenFunc(IdOf(z.opens, roots, |z.opens| - 1), b.functions)),
      if z.child.None? || z.fn.None? || z.opens == [] then None
      else Some(OpenChild(IdOf(z.opens, roots, |z.opens| - 1), b.functions, b.children + |z.fn.value.scripts|)),
      if z.pending.None? then None else Some(roots.modules),
      CountOf(z),
      |z.roots|)
  }

  ghost predicate OpenOk(o: Open) {
    && o.name != "" && o.target != "" && NamedForest(o.subs) && NamedFuncs(o.funcs)
    && |o.subs| <= o.submoduleCount && |o.funcs| <= o.functionCount
    && (o.funcs != [] ==> |o.subs| == o.submoduleCount)
  }

  /** Only the innermost module may have functions; a function needs a module, a child a function. */
  ghost predicate Coherent(z: Zipper) {
    && NamedForest(z.roots)
    && (forall i :: 0 <= i < |z.opens| ==> OpenOk(z.opens[i]))
    && (forall i :: 0 <= i < |z.opens| - 1 ==> z.opens[i].funcs == [] && |z.opens[i].subs| < z.opens[i].submoduleCount)
    && (z.pending.Some? ==> z.opens == [] && z.fn.None? && NamedModule(z.pending.value))
    && (z.fn.Some? ==>
          && z.opens != [] && NamedFuncs([z.fn.value])
          && |z.opens[|z.opens| - 1].subs| == z.opens[|z.opens| - 1].submoduleCount
          && |z.opens[|z.opens| - 1].funcs| < z.opens[|z.opens| - 1].functionCount)
    && (z.child.Some? ==> z.fn.Some? && z.child.value != "")
  }

  function Last<T>(s: seq<T>): T requires s != [] { s[|s| - 1] }
  function Init<T>(s: seq<T>): seq<T> requires s != [] { s[..|s| - 1] }

  function Finish(o: Open): Module { Module(o.name, o.target, o.subs, o.funcs) }

  /** The zipper after an accepted event. */
  function Grow(z: Zipper, e: Event): Zipper
    requires Step(View(z), e).Some?
  {
    match e
    case ModuleBegin(_, _, fc, sc, name, target) =>
      z.(opens := z.opens + [Open(name.value, target.value, fc.i, sc.i, [], [])])
    case FunctionBegin(_, _, name) => z.(fn := Some(Func(name.value, [])))
    case ChildBegin(_, _, _, script) => z.(child := Some(script.value))
    case ChildEnd(_, _, _, _) =>
      z.(fn := Some(z.fn.value.(scripts := z.fn.value.scripts + [z.child.value])), child := None)
    case FunctionEnd(_, _) =>
      z.(opens := Init(z.opens) + [Last(z.opens).(funcs := Last(z.opens).funcs + [z.fn.value])], fn := None)
    case ModuleEnd(_) =>
      var done := Finish(Last(z.opens));
      var below := Init(z.opens);
      if below == [] then z.(opens := [], pending := Some(done))
      else z.(opens := Init(below) + [Last(below).(subs := Last(below).subs + [done])])
    case ExportComplete(_, _, _, _) => z.(roots := z.roots + [z.pending.value], pending := None)
    case Unknown => z
  }

  // ---- One event -------------------------------------------------------------

  lemma {:induction false} OpensSnoc(os: seq<Open>, o: Open, c: Counters)
    ensures (os + [o])[..|os|] == os
    ensures AfterOpens(os + [o], c) ==
            var b := AfterOpens(os, c); AfterFuncs(o.funcs, AfterForest(o.subs, b.(modules := b.modules + 1)))
    ensures Frames(os + [o], c) ==
            Frames(os, c) + [Frame(AfterOpens(os, c).modules, o.functionCount, o.submoduleCount, |o.funcs|, |o.subs|)]
    ensures ParentId(os + [o], c) == Some(AfterOpens(os, c).modules)
    ensures PrintOpens(os + [o], c) ==
            var b := AfterOpens(os, c);
            var inner := b.(modules := b.modules + 1);
            PrintOpens(os, c) + [OpenEvent(o, ParentId(os, c), b.modules)]
            + PrintForest(o.subs, Some(b.modules), inner)
            + PrintFuncs(o.funcs, b.modules, AfterForest(o.subs, inner))
  {
    assert (os + [o])[..|os|] == os;
  }

  lemma {:induction false} NothingPrinted(m: nat, c: Counters, d: Counters)
    ensures PrintFuncs([], m, c) == [] && AfterFuncs([], c) == c
    ensures PrintOpens([], d) == [] && AfterOpens([], d) == d
  {
  }

  lemma {:induction false} Split<T>(s: seq<T>)
    requires s != []
    ensures s == Init(s) + [Last(s)]
  {
  }

  lemma {:induction false} ForestSnoc(ms: seq<Module>, m: Module, parent: Option<nat>, c: Counters)
    ensures AfterForest(ms + [m], c) == AfterModule(m, AfterForest(ms, c))
    ensures PrintForest(ms + [m], parent, c) == PrintForest(ms, parent, c) + PrintModule(m, parent, AfterForest(ms, c))
    ensures NamedForest(ms + [m]) <==> NamedForest(ms) && NamedModule(m)
  {
    assert (ms + [m])[..|ms|] == ms;
  }

  lemma {:induction false} FuncsSnoc(fs: seq<Func>, f: Func, m: nat, c: Counters)
    ensures AfterFuncs(fs + [f], c) ==
            var b := AfterFuncs(fs, c); Counters(b.modules, b.functions + 1, b.children + |f.scripts|)
    ensures PrintFuncs(fs + [f], m, c) == PrintFuncs(fs, m, c) + PrintFunc(f, m, AfterFuncs(fs, c))
  {
    assert (fs + [f])[..|fs|] == fs;
  }

  lemma {:induction false} ChildrenSnoc(ss: seq<string>, s: string, m: nat, f: nat, c: nat)
    ensures PrintChildren(ss + [s], m, f, c) ==
            PrintChildren(ss, m, f, c)
            + [ChildBegin(Int(m), Int(f), Int(c + |ss|), Some(s)), ChildEnd(Int(m), Int(f), Int(c + |ss|), Int(0))]
  {
    assert (ss + [s])[..|ss|] == ss;
  }

  lemma FramesLength(os: seq<Open>, c: Counters)
    ensures |Frames(os, c)| == |os|
  {
  }

  lemma {:induction false} TopFrame(z: Zipper)
    requires z.opens != []
    ensures
      var c := AfterForest(z.roots, ZERO);
      var o := Last(z.opens);
      && View(z).stack == Frames(Init(z.opens), c) + [View(z).Top()]
      && View(z).Top() == Frame(IdOf(z.opens, c, |z.opens| - 1), o.functionCount, o.submoduleCount, |o.funcs|, |o.subs|)
  {
    FramesLength(z.opens, AfterForest(z.roots, ZERO));
  }

  /** The parts of an accepted step that the event kinds share. */
  ghost predicate Grown(z: Zipper, e: Event)
    requires Step(View(z), e).Some?
  {
    Coherent(Grow(z, e)) && View(Grow(z, e)) == Step(View(z), e).value && PrintZipper(Grow(z, e)) == PrintZipper(z) + [e]
  }

  lemma {:induction false} BeginPrints(z: Zipper, o: Open)
    requires z.pending.None? && z.fn.None? && z.child.None?
    ensures
      var z' := z.(opens := z.opens + [o.(subs := [], funcs := [])]);
      var c := AfterForest(z.roots, ZERO);
      PrintZipper(z') == PrintZipper(z) + [OpenEvent(o, ParentId(z.opens, c), Base(z).modules)]
  {
    OpensSnoc(z.opens, o.(subs := [], funcs := []), AfterForest(z.roots, ZERO));
  }

  lemma {:induction false} BeginCoherent(z: Zipper, o: Open)
    requires Coherent(z) && z.pending.None? && z.fn.None? && o.name != "" && o.target != ""
    requires z.opens != [] ==> Last(z.opens).funcs == [] && |Last(z.opens).subs| < Last(z.opens).submoduleCount
    ensures Coherent(z.(opens := z.opens + [o.(subs := [], funcs := [])]))
  {
  }

  lemma {:induction false} GrowModuleBegin(z: Zipper, e: Event)
    requires Coherent(z) && e.ModuleBegin? && Step(View(z), e).Some?
    ensures Grown(z, e)
  {
    var c := AfterForest(z.roots, ZERO);
    FramesLength(z.opens, c);
    if z.opens != [] { TopFrame(z); }
    var o := Open(e.name.value, e.target.value, e.functionCount.i, e.submoduleCount.i, [], []);
    BeginCoherent(z, o);
    BeginPrints(z, o);
    assert View(Grow(z, e)) == Step(View(z), e).value by { OpensSnoc(z.opens, o, c); }
  }

  lemma {:induction false} GrowFunctionBegin(z: Zipper, e: Event)
    requires Coherent(z) && e.FunctionBegin? && Step(View(z), e).Some?
    ensures Grown(z, e)
  {
    hide PrintForest, PrintFuncs, AfterForest, AfterFuncs, PrintOpens, AfterOpens, PrintModule, PrintRoots, AfterModule, Frames,
         NamedForest, NamedModule, OpenOk;
    FramesLength(z.opens, AfterForest(z.roots, ZERO));
    TopFrame(z);
    assert PrintTail(z) == [];
    assert PrintChildren([], IdOf(z.opens, AfterForest(z.roots, ZERO), |z.opens| - 1), Base(z).functions, Base(z).children) == [];
    assert PrintTail(Grow(z, e)) == [e];
  }

  lemma {:induction false} ChildPrints(z: Zipper, e: Event)
    requires Coherent(z) && (e.ChildBegin? || e.ChildEnd?) && Step(View(z), e).Some?
    ensures PrintTail(Grow(z, e)) == PrintTail(z) + [e]
  {
    hide PrintChildren, Frames, PrintForest, PrintFuncs, AfterForest, AfterFuncs, AfterOpens, PrintModule, AfterModule;
    if e.ChildEnd? {
      var b := Base(z);
      ChildrenSnoc(z.fn.value.scripts, z.child.value, IdOf(z.opens, AfterForest(z.roots, ZERO), |z.opens| - 1),
                   b.functions, b.children);
    }
  }

  lemma {:induction false} GrowChild(z: Zipper, e: Event)
    requires Coherent(z) && (e.ChildBegin? || e.ChildEnd?) && Step(View(z), e).Some?
    ensures Grown(z, e)
  {
    hide PrintForest, PrintFuncs, AfterForest, AfterFuncs, PrintOpens, AfterOpens, PrintModule, PrintRoots, AfterModule, Frames,
         PrintChildren, PrintTail, NamedForest, NamedModule, OpenOk;
    ChildPrints(z, e);
    assert PrintZipper(Grow(z, e)) == PrintRoots(z.roots) + PrintOpens(z.opens, AfterForest(z.roots, ZERO)) + (PrintTail(z) + [e]);
  }

  lemma {:induction false} FunctionEndPrints(z: Zipper)
    requires Coherent(z) && z.fn.Some? && z.child.None?
    ensures
      var o := Last(z.opens);
      var o' := o.(funcs := o.funcs + [z.fn.value]);
      var c := AfterForest(z.roots, ZERO);
      var b := AfterOpens(Init(z.opens), c);
      && PrintOpens(Init(z.opens) + [o'], c) ==
         PrintOpens(z.opens, c) + PrintTail(z) + [FunctionEnd(Int(b.modules), Int(Base(z).functions))]
      && AfterOpens(Init(z.opens) + [o'], c) ==
         Counters(Base(z).modules, Base(z).functions + 1, Base(z).children + |z.fn.value.scripts|)
  {
    hide PrintForest, PrintFuncs, AfterForest, AfterFuncs, PrintOpens, AfterOpens, PrintChildren, PrintModule;
    var c := AfterForest(z.roots, ZERO);
    var below, o := Init(z.opens), Last(z.opens);
    Split(z.opens);
    OpensSnoc(below, o, c);
    OpensSnoc(below, o.(funcs := o.funcs + [z.fn.value]), c);
    var b := AfterOpens(below, c);
    FuncsSnoc(o.funcs, z.fn.value, b.modules, AfterForest(o.subs, b.(modules := b.modules + 1)));
    assert PrintTail(z) + [FunctionEnd(Int(b.modules), Int(Base(z).functions))] == PrintFunc(z.fn.value, b.modules, Base(z));
  }

  lemma {:induction false} FunctionEndCoherent(z: Zipper)
    requires Coherent(z) && z.fn.Some? && z.child.None?
    ensures Coherent(z.(opens := Init(z.opens) + [Last(z.opens).(funcs := Last(z.opens).funcs + [z.fn.value])], fn := None))
  {
  }

  lemma {:induction false} GrowFunctionEnd(z: Zipper, e: Event)
    requires Coherent(z) && e.FunctionEnd? && Step(View(z), e).Some?
    ensures Grown(z, e)
  {
    hide PrintForest, PrintFuncs, AfterForest, AfterFuncs, PrintOpens, AfterOpens, PrintChildren, PrintModule, PrintRoots,
         AfterModule, Frames;
    FramesLength(z.opens, AfterForest(z.roots, ZERO));
    TopFrame(z);
    FunctionEndPrints(z);
    FunctionEndCoherent(z);
    assert PrintTail(Grow(z, e)) == [];
    OpensSnoc(Init(z.opens), Last(Grow(z, e).opens), AfterForest(z.roots, ZERO));
  }

  /** Closing the innermost module prints that module in full. */
  lemma {:induction false} CloseModule(os: seq<Open>, c: Counters)
    requires os != []
    requires |Last(os).funcs| == Last(os).functionCount && |Last(os).subs| == Last(os).submoduleCount
    ensures
      var b := AfterOpens(Init(os), c);
      PrintOpens(os, c) + [ModuleEnd(Int(b.modules))] ==
      PrintOpens(Init(os), c) + PrintModule(Finish(Last(os)), ParentId(Init(os), c), b)
  {
    hide PrintForest, PrintFuncs, AfterForest, AfterFuncs, PrintOpens, AfterOpens;
    Split(os);
    OpensSnoc(Init(os), Last(os), c);
  }

  /** A finished module becomes the last submodule of the module around it. */
  lemma {:induction false} AdoptModule(os: seq<Open>, m: Module, c: Counters)
    requires os != [] && Last(os).funcs == []
    ensures
      var os' := Init(os) + [Last(os).(subs := Last(os).subs + [m])];
      && PrintOpens(os', c) == PrintOpens(os, c) + PrintModule(m, ParentId(os, c), AfterOpens(os, c))
      && AfterOpens(os', c) == AfterModule(m, AfterOpens(os, c))
  {
    hide PrintForest, PrintFuncs, AfterForest, AfterFuncs, PrintOpens, AfterOpens, PrintModule, AfterModule;
    var under, p := Init(os), Last(os);
    Split(os);
    OpensSnoc(under, p, c);
    OpensSnoc(under, p.(subs := p.subs + [m]), c);
    var u := AfterOpens(under, c);
    var inner := u.(modules := u.modules + 1);
    ForestSnoc(p.subs, m, Some(u.modules), inner);
    NothingPrinted(u.modules, AfterForest(p.subs, inner), c);
    NothingPrinted(u.modules, AfterForest(p.subs + [m], inner), c);
  }

  lemma {:induction false} ModuleEndCoherent(z: Zipper)
    requires Coherent(z) && z.opens != [] && z.fn.None?
    requires |Last(z.opens).funcs| == Last(z.opens).functionCount && |Last(z.opens).subs| == Last(z.opens).submoduleCount
    ensures
      var done := Finish(Last(z.opens));
      var below := Init(z.opens);
      && (below == [] ==> Coherent(z.(opens := [], pending := Some(done))))
      && (below != [] ==> Coherent(z.(opens := Init(below) + [Last(below).(subs := Last(below).subs + [done])])))
  {
    hide NamedForest, OpenOk;
    var below, done := Init(z.opens), Finish(Last(z.opens));
    DoneIsNamed(Last(z.opens));
    if below != [] {
      var p := Last(below);
      assert p == z.opens[|z.opens| - 2];
      AdoptOk(p, done);
    }
  }

  lemma {:induction false} DoneIsNamed(o: Open)
    requires OpenOk(o)
    ensures NamedModule(Finish(o))
  {
  }

  lemma {:induction false} AdoptOk(p: Open, m: Module)
    requires OpenOk(p) && NamedModule(m) && p.funcs == [] && |p.subs| < p.submoduleCount
    ensures OpenOk(p.(subs := p.subs + [m]))
  {
    hide NamedModule;
    ForestSnoc(p.subs, m, None, ZERO);
  }

  lemma {:induction false} RootEndPrints(z: Zipper, e: Event)
    requires Coherent(z) && e.ModuleEnd? && Step(View(z), e).Some? && z.opens != [] && Init(z.opens) == []
    ensures PrintZipper(Grow(z, e)) == PrintZipper(z) + [e] && CountOf(Grow(z, e)) == CountOf(z)
  {
    hide PrintForest, PrintFuncs, AfterForest, AfterFuncs, PrintOpens, AfterOpens, PrintModule, PrintRoots, Frames;
    var c := AfterForest(z.roots, ZERO);
    TopFrame(z);
    CloseModule(z.opens, c);
    Split(z.opens);
    OpensSnoc(Init(z.opens), Last(z.opens), c);
    NothingPrinted(0, c, c);
    assert PrintOpens(z.opens, c) + [e] == PrintModule(Finish(Last(z.opens)), None, c);
    assert PrintZipper(z) + [e] == PrintRoots(z.roots) + (PrintOpens(z.opens, c) + [e]);
  }

  lemma {:induction false} NestedEndPrints(z: Zipper, e: Event)
    requires Coherent(z) && e.ModuleEnd? && Step(View(z), e).Some? && z.opens != [] && Init(z.opens) != []
    ensures PrintZipper(Grow(z, e)) == PrintZipper(z) + [e] && CountOf(Grow(z, e)) == CountOf(z)
  {
    hide PrintForest, PrintFuncs, AfterForest, AfterFuncs, PrintOpens, AfterOpens, PrintModule, PrintRoots, Frames;
    var c := AfterForest(z.roots, ZERO);
    TopFrame(z);
    CloseModule(z.opens, c);
    Split(z.opens);
    OpensSnoc(Init(z.opens), Last(z.opens), c);
    assert Last(Init(z.opens)) == z.opens[|z.opens| - 2];
    AdoptModule(Init(z.opens), Finish(Last(z.opens)), c);
  }

  lemma {:induction false} ModuleEndView(z: Zipper, e: Event)
    requires Coherent(z) && e.ModuleEnd? && Step(View(z), e).Some?
    ensures View(Grow(z, e)).stack == Step(View(z), e).value.stack
  {
    hide AfterForest, AfterFuncs, AfterOpens, AfterModule, Frames, Coherent, PrintOpens, PrintForest, PrintFuncs;
    var c := AfterForest(z.roots, ZERO);
    assert z.opens != [] by { FramesLength(z.opens, c); }
    TopFrame(z);
    var below := Init(z.opens);
    FramesLength(below, c);
    if below != [] {
      Split(below);
      OpensSnoc(Init(below), Last(below), c);
      OpensSnoc(Init(below), Last(below).(subs := Last(below).subs + [Finish(Last(z.opens))]), c);
    }
  }

  lemma {:induction false} GrowModuleEnd(z: Zipper, e: Event)
    requires Coherent(z) && e.ModuleEnd? && Step(View(z), e).Some?
    ensures Grown(z, e)
  {
    TopFrame(z);
    ModuleEndCoherent(z);
    if Init(z.opens) == [] { RootEndPrints(z, e); } else { NestedEndPrints(z, e); }
    ModuleEndView(z, e);
  }

  lemma {:induction false} GrowComplete(z: Zipper, e: Event)
    requires Coherent(z) && e.ExportComplete? && Step(View(z), e).Some?
    ensures Grown(z, e)
  {
    var c := AfterForest(z.roots, ZERO);
    FramesLength(z.opens, c);
    ForestSnoc(z.roots, z.pending.value, None, ZERO);
    var roots := z.roots + [z.pending.value];
    assert roots[..|z.roots|] == z.roots;
  }

  /** One accepted row extends the zipper, and the zipper still prints exactly the rows read. */
  lemma {:induction false} GrowSound(z: Zipper, e: Event)
    requires Coherent(z) && Step(View(z), e).Some?
    ensures Grown(z, e)
  {
    match e
    case ModuleBegin(_, _, _, _, _, _) => GrowModuleBegin(z, e);
    case FunctionBegin(_, _, _) => GrowFunctionBegin(z, e);
    case ChildBegin(_, _, _, _) => GrowChild(z, e);
    case ChildEnd(_, _, _, _) => GrowChild(z, e);
    case FunctionEnd(_, _) => GrowFunctionEnd(z, e);
    case ModuleEnd(_) => GrowModuleEnd(z, e);
    case ExportComplete(_, _, _, _) => GrowComplete(z, e);
  }

  // ---- Whole ledgers: soundness ----------------------------------------------

  lemma {:induction false} EmptyZipper()
    ensures Coherent(EMPTY) && View(EMPTY) == START && PrintZipper(EMPTY) == []
  {
  }

  /** The zipper after a whole accepted prefix. */
  lemma {:induction false} Parse(es: seq<Event>) returns (z: Zipper)
    requires Run(START, es).Some?
    ensures Coherent(z) && View(z) == Run(START, es).value && PrintZipper(z) == es
  {
    hide View, PrintZipper, Step, Grow, Coherent;
    if es == [] {
      EmptyZipper();
      z := EMPTY;
    } else {
      var n := |es| - 1;
      var before := Parse(es[..n]);
      GrowSound(before, es[n]);
      z := Grow(before, es[n]);
      assert es == es[..n] + [es[n]];
    }
  }

  // ---- Whole ledgers: the printer drives the recogniser ------------------------

  /** Feeding events to a zipper. */
  function Feed(z: Zipper, es: seq<Event>): Option<Zipper> {
    if es == [] then Some(z)
    else
      var before := Feed(z, es[..|es| - 1]);
      if before.None? || Step(View(before.value), es[|es| - 1]).None? then None
      else Some(Grow(before.value, es[|es| - 1]))
  }

  lemma {:induction false} FeedOne(z: Zipper, e: Event)
    ensures Feed(z, [e]) == if Step(View(z), e).None? then None else Some(Grow(z, e))
  {
    assert [e][..0] == [];
    assert Feed(z, [e][..0]) == Some(z);
  }

  lemma {:induction false} FeedAppend(z: Zipper, a: seq<Event>, b: seq<Event>)
    ensures Feed(z, a + b) == if Feed(z, a).None? then None else Feed(Feed(z, a).value, b)
  {
    hide View, Step, Grow;
    if b == [] {
      assert a + b == a;
    } else {
      var n := |b| - 1;
      FeedAppend(z, a, b[..n]);
      assert (a + b)[..|a| + n] == a + b[..n];
    }
  }

  /** `a` takes z to y, `b` takes y to x, so `a + b` takes z to x. */
  lemma {:induction false} FeedThen(z: Zipper, a: seq<Event>, y: Zipper, b: seq<Event>, x: Zipper)
    requires Feed(z, a) == Some(y) && Feed(y, b) == Some(x)
    ensures Feed(z, a + b) == Some(x)
  {
    FeedAppend(z, a, b);
  }

  lemma {:induction false} FeedRun(es: seq<Event>)
    requires Feed(EMPTY, es).Some?
    ensures Coherent(Feed(EMPTY, es).value) && Run(START, es) == Some(View(Feed(EMPTY, es).value))
  {
    hide View, PrintZipper, Step, Grow, Coherent;
    if es == [] {
      EmptyZipper();
    } else {
      FeedRun(es[..|es| - 1]);
      GrowSound(Feed(EMPTY, es[..|es| - 1]).value, es[|es| - 1]);
    }
  }

  /** A zipper that may take another submodule (or root). */
  ghost predicate Ready(z: Zipper) {
    Coherent(z) && z.fn.None? && z.child.None? && z.pending.None?
  }

  function RootCount(z: Zipper): Counters { AfterForest(z.roots, ZERO) }

  function Push(z: Zipper, m: Module): Zipper {
    z.(opens := z.opens + [Open(m.name, m.target, |m.functions|, |m.submodules|, [], [])])
  }

  function WithSubs(z: Zipper, ms: seq<Module>): Zipper
    requires z.opens != []
  {
    z.(opens := Init(z.opens) + [Last(z.opens).(subs := Last(z.opens).subs + ms)])
  }

  function WithFuncs(z: Zipper, fs: seq<Func>): Zipper
    requires z.opens != []
  {
    z.(opens := Init(z.opens) + [Last(z.opens).(funcs := Last(z.opens).funcs + fs)])
  }

  lemma {:induction false} WithNothing(z: Zipper)
    requires z.opens != []
    ensures WithSubs(z, []) == z && WithFuncs(z, []) == z
  {
    var o := Last(z.opens);
    assert o.(subs := o.subs + []) == o && o.(funcs := o.funcs + []) == o;
    Split(z.opens);
  }

  lemma {:induction false} WithFuncThen(z: Zipper, fs: seq<Func>, f: Func)
    requires z.opens != []
    ensures WithFuncs(WithFuncs(z, fs), [f]) == WithFuncs(z, fs + [f])
  {
    assert Init(WithFuncs(z, fs).opens) == Init(z.opens);
    assert Last(z.opens).funcs + fs + [f] == Last(z.opens).funcs + (fs + [f]);
  }

  lemma {:induction false} WithSubThen(z: Zipper, ms: seq<Module>, m: Module)
    requires z.opens != []
    ensures WithSubs(WithSubs(z, ms), [m]) == WithSubs(z, ms + [m])
  {
    assert Init(WithSubs(z, ms).opens) == Init(z.opens);
    assert Last(z.opens).subs + ms + [m] == Last(z.opens).subs + (ms + [m]);
  }

  /** The module is finished: a submodule of the innermost open module, or the pending root. */
  function Adopt(z: Zipper, m: Module): Zipper {
    if z.opens == [] then z.(pending := Some(m)) else WithSubs(z, [m])
  }

  ghost predicate TakesModule(z: Zipper) {
    z.opens == [] || (Last(z.opens).funcs == [] && |Last(z.opens).subs| < Last(z.opens).submoduleCount)
  }

  lemma {:induction false} FeedBegin(z: Zipper, m: Module)
    requires Ready(z) && TakesModule(z) && NamedModule(m)
    ensures Feed(z, [BeginEvent(m, ParentId(z.opens, RootCount(z)), Base(z).modules)]) == Some(Push(z, m))
    ensures Ready(Push(z, m))
  {
    hide AfterForest, AfterFuncs, AfterOpens, AfterModule;
    var e := BeginEvent(m, ParentId(z.opens, RootCount(z)), Base(z).modules);
    FramesLength(z.opens, RootCount(z));
    if z.opens != [] { TopFrame(z); }
    assert Step(View(z), e).Some?;
    FeedOne(z, e);
    BeginCoherent(z, Open(m.name, m.target, |m.functions|, |m.submodules|, [], []));
  }

  lemma {:induction false} FeedEnd(z: Zipper, m: Module)
    requires Ready(z) && z.opens != [] && Finish(Last(z.opens)) == m
    requires Last(z.opens).functionCount == |m.functions| && Last(z.opens).submoduleCount == |m.submodules|
    ensures Feed(z, [ModuleEnd(Int(IdOf(z.opens, RootCount(z), |z.opens| - 1)))]) == Some(Adopt(z.(opens := Init(z.opens)), m))
  {
    hide AfterForest, AfterFuncs, AfterOpens, AfterModule;
    FramesLength(z.opens, RootCount(z));
    TopFrame(z);
    FeedOne(z, ModuleEnd(Int(IdOf(z.opens, RootCount(z), |z.opens| - 1))));
  }

  // Functions and children.

  function InFunc(z: Zipper, f: Func): Zipper { z.(fn := Some(f)) }

  ghost predicate TakesFunc(z: Zipper) {
    && z.opens != [] && |Last(z.opens).subs| == Last(z.opens).submoduleCount
    && |Last(z.opens).funcs| < Last(z.opens).functionCount
  }

  lemma {:induction false} FeedChildren(z: Zipper, name: string, ss: seq<string>)
    requires Ready(z) && TakesFunc(z) && NamedFuncs([Func(name, ss)])
    ensures
      var m := IdOf(z.opens, RootCount(z), |z.opens| - 1);
      Feed(InFunc(z, Func(name, [])), PrintChildren(ss, m, Base(z).functions, Base(z).children)) == Some(InFunc(z, Func(name, ss)))
  {
    hide View, Step, Grow, Feed, Coherent, AfterForest, AfterFuncs, AfterOpens, AfterModule, NamedForest;
    var m := IdOf(z.opens, RootCount(z), |z.opens| - 1);
    var f, c := Base(z).functions, Base(z).children;
    FeedNothing(InFunc(z, Func(name, [])));
    if ss != [] {
      var n := |ss| - 1;
      assert forall x :: x in ss[..n] ==> x in ss;
      assert Func(name, ss) in [Func(name, ss)] && ss[n] in ss;
      FeedChildren(z, name, ss[..n]);
      OneChild(z, Func(name, ss[..n]), ss[n]);
      assert ss == ss[..n] + [ss[n]];
      FeedThen(InFunc(z, Func(name, [])), PrintChildren(ss[..n], m, f, c), InFunc(z, Func(name, ss[..n])),
               [ChildBegin(Int(m), Int(f), Int(c + n), Some(ss[n])), ChildEnd(Int(m), Int(f), Int(c + n), Int(0))],
               InFunc(z, Func(name, ss)));
    }
  }

  lemma {:induction false} FeedNothing(z: Zipper)
    ensures Feed(z, []) == Some(z)
  {
  }

  lemma {:induction false} OneChild(z: Zipper, fn: Func, s: string)
    requires Ready(z) && TakesFunc(z) && s != ""
    ensures
      var m := IdOf(z.opens, RootCount(z), |z.opens| - 1);
      var f, c := Base(z).functions, Base(z).children + |fn.scripts|;
      Feed(InFunc(z, fn), [ChildBegin(Int(m), Int(f), Int(c), Some(s)), ChildEnd(Int(m), Int(f), Int(c), Int(0))])
      == Some(InFunc(z, fn.(scripts := fn.scripts + [s])))
  {
    hide AfterForest, AfterFuncs, AfterOpens, AfterModule, Frames;
    var m := IdOf(z.opens, RootCount(z), |z.opens| - 1);
    var f, c := Base(z).functions, Base(z).children + |fn.scripts|;
    var b, e := ChildBegin(Int(m), Int(f), Int(c), Some(s)), ChildEnd(Int(m), Int(f), Int(c), Int(0));
    var mid := InFunc(z, fn).(child := Some(s));
    FeedOne(InFunc(z, fn), b);
    FeedOne(mid, e);
    FeedThen(InFunc(z, fn), [b], mid, [e], InFunc(z, fn.(scripts := fn.scripts + [s])));
    assert [b] + [e] == [b, e];
  }

  lemma {:induction false} FeedFunc(z: Zipper, f: Func)
    requires Ready(z) && TakesFunc(z) && NamedFuncs([f])
    ensures Feed(z, PrintFunc(f, IdOf(z.opens, RootCount(z), |z.opens| - 1), Base(z))) == Some(WithFuncs(z, [f]))
    ensures Ready(WithFuncs(z, [f]))
  {
    hide View, Step, Grow, Feed, Coherent, AfterForest, AfterFuncs, AfterOpens, AfterModule, PrintChildren, NamedForest;
    var m := IdOf(z.opens, RootCount(z), |z.opens| - 1);
    var b, e := FunctionBegin(Int(m), Int(Base(z).functions), Some(f.name)), FunctionEnd(Int(m), Int(Base(z).functions));
    var begun, full := InFunc(z, Func(f.name, [])), InFunc(z, f);
    FeedFuncEnds(z, f);
    FeedChildren(z, f.name, f.scripts);
    FeedThen(z, [b], begun, PrintChildren(f.scripts, m, Base(z).functions, Base(z).children), full);
    FeedThen(z, [b] + PrintChildren(f.scripts, m, Base(z).functions, Base(z).children), full, [e], WithFuncs(z, [f]));
  }

  /** The first and the last row of a function. */
  lemma {:induction false} FeedFuncEnds(z: Zipper, f: Func)
    requires Ready(z) && TakesFunc(z) && NamedFuncs([f])
    ensures
      var m := IdOf(z.opens, RootCount(z), |z.opens| - 1);
      && Feed(z, [FunctionBegin(Int(m), Int(Base(z).functions), Some(f.name))]) == Some(InFunc(z, Func(f.name, [])))
      && Feed(InFunc(z, f), [FunctionEnd(Int(m), Int(Base(z).functions))]) == Some(WithFuncs(z, [f]))
    ensures Ready(WithFuncs(z, [f]))
  {
    hide AfterForest, AfterFuncs, AfterOpens, AfterModule, PrintChildren, Feed, Frames, NamedForest, NamedModule;
    var m := IdOf(z.opens, RootCount(z), |z.opens| - 1);
    FramesLength(z.opens, RootCount(z));
    TopFrame(z);
    TopFrame(InFunc(z, f));
    assert f in [f];
    FeedOne(z, FunctionBegin(Int(m), Int(Base(z).functions), Some(f.name)));
    FeedOne(InFunc(z, f), FunctionEnd(Int(m), Int(Base(z).functions)));
    FunctionEndCoherent(InFunc(z, f));
  }

  /** Functions do not change the identity of the module they are in, and move the counters as printed. */
  lemma {:induction false} FuncsBase(z: Zipper, fs: seq<Func>)
    requires z.opens != [] && Last(z.opens).funcs == []
    ensures
      var z' := WithFuncs(z, fs);
      && Base(z') == AfterFuncs(fs, Base(z))
      && IdOf(z'.opens, RootCount(z'), |z'.opens| - 1) == IdOf(z.opens, RootCount(z), |z.opens| - 1)
  {
    hide AfterForest, AfterOpens;
    Split(z.opens);
    OpensSnoc(Init(z.opens), Last(z.opens), RootCount(z));
    OpensSnoc(Init(z.opens), Last(z.opens).(funcs := fs), RootCount(z));
    assert Last(z.opens).funcs + fs == fs;
  }

  lemma {:induction false} FeedFuncs(z: Zipper, fs: seq<Func>)
    requires Ready(z) && z.opens != [] && Last(z.opens).funcs == [] && NamedFuncs(fs)
    requires |Last(z.opens).subs| == Last(z.opens).submoduleCount && |fs| <= Last(z.opens).functionCount
    ensures Feed(z, PrintFuncs(fs, IdOf(z.opens, RootCount(z), |z.opens| - 1), Base(z))) == Some(WithFuncs(z, fs))
    ensures Ready(WithFuncs(z, fs))
  {
    hide PrintFunc, IdOf, Base, RootCount, View, Step, Grow, Coherent;
    var m := IdOf(z.opens, RootCount(z), |z.opens| - 1);
    if fs == [] {
      WithNothing(z);
    } else {
      var n := |fs| - 1;
      FeedFuncs(z, fs[..n]);
      var y := WithFuncs(z, fs[..n]);
      FuncsBase(z, fs[..n]);
      FeedFunc(y, fs[n]);
      WithFuncThen(z, fs[..n], fs[n]);
      assert fs == fs[..n] + [fs[n]];
      FeedThen(z, PrintFuncs(fs[..n], m, Base(z)), y, PrintFunc(fs[n], m, Base(y)), WithFuncs(z, fs));
    }
  }

  lemma {:induction false} SubsBase(z: Zipper, ms: seq<Module>)
    requires z.opens != [] && Last(z.opens).funcs == [] && Last(z.opens).subs == []
    ensures
      var z' := WithSubs(z, ms);
      && Base(z') == AfterForest(ms, Base(z))
      && ParentId(z'.opens, RootCount(z')) == ParentId(z.opens, RootCount(z))
  {
    hide AfterOpens;
    Split(z.opens);
    OpensSnoc(Init(z.opens), Last(z.opens), RootCount(z));
    OpensSnoc(Init(z.opens), Last(z.opens).(subs := ms), RootCount(z));
    assert Last(z.opens).subs + ms == ms;
  }

  lemma {:induction false} SubsReady(z: Zipper, ms: seq<Module>)
    requires Ready(z) && z.opens != [] && Last(z.opens).funcs == [] && Last(z.opens).subs == []
    requires NamedForest(ms) && |ms| <= Last(z.opens).submoduleCount
    ensures Ready(WithSubs(z, ms))
  {
    assert Last(z.opens).subs + ms == ms;
  }

  lemma {:induction false} FeedForest(z: Zipper, ms: seq<Module>)
    requires Ready(z) && z.opens != [] && Last(z.opens).funcs == [] && Last(z.opens).subs == []
    requires NamedForest(ms) && |ms| <= Last(z.opens).submoduleCount
    ensures Feed(z, PrintForest(ms, ParentId(z.opens, RootCount(z)), Base(z))) == Some(WithSubs(z, ms))
    decreases ms, 0
  {
    hide PrintModule, IdOf, Base, RootCount, View, Step, Grow, Coherent, AfterForest, AfterModule;
    var parent := ParentId(z.opens, RootCount(z));
    if ms == [] {
      WithNothing(z);
    } else {
      var n := |ms| - 1;
      FeedForest(z, ms[..n]);
      SubsReady(z, ms[..n]);
      SubsBase(z, ms[..n]);
      var y := WithSubs(z, ms[..n]);
      FeedModule(y, ms[n]);
      WithSubThen(z, ms[..n], ms[n]);
      assert ms == ms[..n] + [ms[n]];
      FeedThen(z, PrintForest(ms[..n], parent, Base(z)), y, PrintModule(ms[n], parent, Base(y)), WithSubs(z, ms));
    }
  }

  /** The recogniser reads a printed module in full and leaves it with the module around it. */
  lemma {:induction false} FeedModule(z: Zipper, m: Module)
    requires Ready(z) && TakesModule(z) && NamedModule(m)
    ensures Feed(z, PrintModule(m, ParentId(z.opens, RootCount(z)), Base(z))) == Some(Adopt(z, m))
    decreases m, 1
  {
    hide View, Step, Grow, Coherent, AfterForest, AfterModule, AfterOpens, AfterFuncs, PrintForest, PrintFuncs, Feed, PrintModule,
         NamedForest, NamedModule, Base, ParentId, WithSubs, WithFuncs, Adopt;
    var c, id := RootCount(z), Base(z).modules;
    var begun, inside, full := Push(z, m), Inside(z, m), Full(z, m);
    FeedBegin(z, m);
    BegunFacts(z, m);
    FeedForest(begun, m.submodules);
    SubsReady(begun, m.submodules);
    InsideFacts(z, m);
    FeedFuncs(inside, m.functions);
    FeedEnd(full, m);
    var subs, funcs := PrintForest(m.submodules, Some(id), Base(begun)), PrintFuncs(m.functions, id, Base(inside));
    FeedThen(z, [BeginEvent(m, ParentId(z.opens, c), id)], begun, subs, inside);
    FeedThen(z, [BeginEvent(m, ParentId(z.opens, c), id)] + subs, inside, funcs, full);
    FeedThen(z, [BeginEvent(m, ParentId(z.opens, c), id)] + subs + funcs, full, [ModuleEnd(Int(id))], Adopt(z, m));
    ModulePrints(m, ParentId(z.opens, c), Base(z));
  }

  function Inside(z: Zipper, m: Module): Zipper { WithSubs(Push(z, m), m.submodules) }

  function Full(z: Zipper, m: Module): Zipper { WithFuncs(Inside(z, m), m.functions) }

  lemma {:induction false} ModulePrints(m: Module, parent: Option<nat>, c: Counters)
    ensures PrintModule(m, parent, c) ==
            var inner := c.(modules := c.modules + 1);
            [BeginEvent(m, parent, c.modules)] + PrintForest(m.submodules, Some(c.modules), inner)
            + PrintFuncs(m.functions, c.modules, AfterForest(m.submodules, inner)) + [ModuleEnd(Int(c.modules))]
  {
  }

  /** Right after its begin row a module is innermost, empty, and numbered by the counters before it. */
  lemma {:induction false} BegunFacts(z: Zipper, m: Module)
    requires NamedModule(m)
    ensures
      var begun := Push(z, m);
      && Base(begun) == Base(z).(modules := Base(z).modules + 1)
      && ParentId(begun.opens, RootCount(begun)) == Some(Base(z).modules)
      && begun.opens != [] && Last(begun.opens).funcs == [] && Last(begun.opens).subs == []
      && Last(begun.opens).submoduleCount == |m.submodules| && NamedForest(m.submodules) && NamedFuncs(m.functions)
  {
    hide AfterForest, AfterOpens, AfterFuncs, AfterModule;
    var c := RootCount(z);
    OpensSnoc(z.opens, Last(Push(z, m).opens), c);
    NothingPrinted(0, Base(z).(modules := Base(z).modules + 1), c);
    EmptyForest(Base(z).(modules := Base(z).modules + 1));
  }

  /** With its submodules read, and then with its functions read. */
  lemma {:induction false} InsideFacts(z: Zipper, m: Module)
    requires NamedModule(m)
    ensures
      var begun, inside, full := Push(z, m), Inside(z, m), Full(z, m);
      && Base(inside) == AfterForest(m.submodules, Base(begun)) && inside.opens != []
      && IdOf(inside.opens, RootCount(inside), |inside.opens| - 1) == Base(z).modules
      && Last(inside.opens).funcs == [] && |Last(inside.opens).subs| == Last(inside.opens).submoduleCount
      && Last(inside.opens).functionCount == |m.functions|
      && full.opens != [] && Init(full.opens) == z.opens && full.(opens := z.opens) == z && Finish(Last(full.opens)) == m
      && Last(full.opens).functionCount == |m.functions| && Last(full.opens).submoduleCount == |m.submodules|
      && IdOf(full.opens, RootCount(full), |full.opens| - 1) == Base(z).modules
  {
    hide AfterForest, AfterOpens, AfterFuncs, AfterModule, Base, NamedModule;
    BegunFacts(z, m);
    SubsBase(Push(z, m), m.submodules);
    FuncsBase(Inside(z, m), m.functions);
    assert [] + m.submodules == m.submodules && [] + m.functions == m.functions;
  }

  lemma {:induction false} EmptyForest(c: Counters)
    ensures AfterForest([], c) == c
  {
  }

  // ---- The theorems ------------------------------------------------------------

  lemma {:induction false} FeedRoots(roots: seq<Module>)
    requires NamedForest(roots)
    ensures Feed(EMPTY, PrintRoots(roots)) == Some(EMPTY.(roots := roots))
  {
    hide View, Step, Grow, AfterForest, AfterModule, PrintModule;
    if roots != [] {
      var n := |roots| - 1;
      FeedRoots(roots[..n]);
      var z := EMPTY.(roots := roots[..n]);
      var c := RootCount(z);
      NothingPrinted(0, c, c);
      FeedModule(z, roots[n]);
      FeedThen(EMPTY, PrintRoots(roots[..n]), z, PrintModule(roots[n], None, c), Adopt(z, roots[n]));
      var e := CompleteEvent(c.modules, AfterForest(roots, ZERO));
      FeedComplete(z, roots[n]);
      assert roots == roots[..n] + [roots[n]];
      FeedThen(EMPTY, PrintRoots(roots[..n]) + PrintModule(roots[n], None, c), Adopt(z, roots[n]), [e],
               EMPTY.(roots := roots));
    }
  }

  lemma {:induction false} FeedComplete(z: Zipper, m: Module)
    requires z == EMPTY.(roots := z.roots)
    ensures Feed(Adopt(z, m), [CompleteEvent(RootCount(z).modules, AfterForest(z.roots + [m], ZERO))])
            == Some(EMPTY.(roots := z.roots + [m]))
  {
    hide AfterForest, AfterModule;
    ForestSnoc(z.roots, m, None, ZERO);
    FeedOne(Adopt(z, m), CompleteEvent(RootCount(z).modules, AfterForest(z.roots + [m], ZERO)));
  }

  /** A closed run has read the printout of the roots it collected. */
  lemma {:induction false} ClosedZipper(z: Zipper)
    requires Coherent(z) && Closed(View(z))
    ensures z == EMPTY.(roots := z.roots) && z.roots != [] && NamedForest(z.roots)
    ensures PrintZipper(z) == PrintRoots(z.roots)
  {
    FramesLength(z.opens, RootCount(z));
  }

  /** The ledger of a forest: its numbered printout. */
  ghost predicate IsLedgerOf(rows: seq<Row>, roots: seq<Module>) {
    roots != [] && NamedForest(roots) && rows == Printout(roots)
  }

  lemma {:induction false} NumberedEvents(rows: seq<Row>)
    ensures HeaderOk(rows) <==> rows == Numbered(Events(rows))
  {
    if rows == Numbered(Events(rows)) {
      forall i | 0 <= i < |rows| ensures rows[i].schema == SCHEMA && rows[i].seqNo == Int(i) {
        assert rows[i] == Numbered(Events(rows))[i];
      }
    }
  }

  lemma {:induction false} EventsNumbered(es: seq<Event>)
    ensures Events(Numbered(es)) == es
  {
  }

  /** Soundness: whatever is accepted is the printout of a nonempty named forest. */
  lemma {:induction false} AcceptedIsPrinted(rows: seq<Row>, receipts: seq<Receipt>) returns (roots: seq<Module>)
    requires Accepts(rows, receipts)
    ensures IsLedgerOf(rows, roots)
  {
    hide View, Coherent, PrintZipper;
    var z := Parse(Events(rows));
    ClosedZipper(z);
    NumberedEvents(rows);
    roots := z.roots;
  }

  /** Completeness: every printout is accepted, given a complete receipt for each of its children. */
  lemma {:induction false} PrintedIsAccepted(rows: seq<Row>, receipts: seq<Receipt>, roots: seq<Module>)
    requires IsLedgerOf(rows, roots) && Bound(receipts, ChildRows(rows))
    ensures Accepts(rows, receipts)
    ensures Run(START, Events(rows)) == Some(View(EMPTY.(roots := roots)))
  {
    hide Step, Grow, PrintRoots, Feed, Coherent, Frames, Run;
    EventsNumbered(PrintRoots(roots));
    NumberedEvents(rows);
    FeedRoots(roots);
    FeedRun(PrintRoots(roots));
    FramesLength([], RootCount(EMPTY.(roots := roots)));
  }

  /**
   The main result: the recogniser accepts a ledger exactly when it is the printout of some
   nonempty forest and the receipts are, one for one and in order, those of its children.
   */
  lemma {:induction false} AcceptsIffPrinted(rows: seq<Row>, receipts: seq<Receipt>)
    ensures Accepts(rows, receipts) <==>
            (exists roots :: IsLedgerOf(rows, roots)) && Bound(receipts, ChildRows(rows))
  {
    if Accepts(rows, receipts) {
      var roots := AcceptedIsPrinted(rows, receipts);
    }
    if (exists roots :: IsLedgerOf(rows, roots)) && Bound(receipts, ChildRows(rows)) {
      var roots :| IsLedgerOf(rows, roots);
      PrintedIsAccepted(rows, receipts, roots);
    }
  }

  /** A ledger determines its forest. */
  lemma {:induction false} ForestIsUnique(a: seq<Module>, b: seq<Module>)
    requires NamedForest(a) && NamedForest(b) && Printout(a) == Printout(b)
    ensures a == b
  {
    hide PrintRoots, Feed;
    EventsNumbered(PrintRoots(a));
    EventsNumbered(PrintRoots(b));
    FeedRoots(a);
    FeedRoots(b);
  }

  // ---- Counting ----------------------------------------------------------------

  function Weight(c: Counters): nat { 2 * (c.modules + c.functions + c.children) }

  lemma {:induction false} CountChildren(ss: seq<string>, m: nat, f: nat, c: nat)
    ensures |PrintChildren(ss, m, f, c)| == 2 * |ss|
  {
    if ss != [] { CountChildren(ss[..|ss| - 1], m, f, c); }
  }

  lemma {:induction false} CountFuncs(fs: seq<Func>, m: nat, c: Counters)
    ensures Weight(AfterFuncs(fs, c)) == Weight(c) + |PrintFuncs(fs, m, c)|
  {
    if fs != [] {
      var n := |fs| - 1;
      CountFuncs(fs[..n], m, c);
      var b := AfterFuncs(fs[..n], c);
      CountChildren(fs[n].scripts, m, b.functions, b.children);
    }
  }

  lemma {:induction false} CountForest(ms: seq<Module>, parent: Option<nat>, c: Counters)
    ensures Weight(AfterForest(ms, c)) == Weight(c) + |PrintForest(ms, parent, c)|
    decreases ms, 0
  {
    if ms != [] {
      var n := |ms| - 1;
      CountForest(ms[..n], parent, c);
      CountModule(ms[n], parent, AfterForest(ms[..n], c));
    }
  }

  lemma {:induction false} CountModule(m: Module, parent: Option<nat>, c: Counters)
    ensures Weight(AfterModule(m, c)) == Weight(c) + |PrintModule(m, parent, c)|
    decreases m, 1
  {
    var inner := c.(modules := c.modules + 1);
    CountForest(m.submodules, Some(c.modules), inner);
    CountFuncs(m.functions, c.modules, AfterForest(m.submodules, inner));
  }

  /** Every module, function and child takes two rows, and every root one more. */
  lemma {:induction false} CountRoots(roots: seq<Module>)
    ensures |Printout(roots)| == Weight(AfterForest(roots, ZERO)) + |roots|
  {
    if roots != [] {
      var n := |roots| - 1;
      CountRoots(roots[..n]);
      CountModule(roots[n], None, AfterForest(roots[..n], ZERO));
    }
  }

  // ---- The validator -------------------------------------------------------------

  lemma {:induction false} RunSnoc(es: seq<Event>, e: Event)
    ensures Run(START, es + [e]) ==
            if Run(START, es).None? then None else Step(Run(START, es).value, e)
  {
    assert (es + [e])[..|es|] == es;
  }

  lemma {:induction false} RunPrefix(rows: seq<Row>, k: nat)
    requires k <= |rows| && Run(START, Events(rows[..k])).None?
    ensures Run(START, Events(rows)).None?
    decreases |rows| - k
  {
    if k < |rows| {
      RunSnoc(Events(rows[..k]), rows[k].event);
      assert Events(rows[..k + 1]) == Events(rows[..k]) + [rows[k].event];
      RunPrefix(rows, k + 1);
    } else {
      assert rows[..k] == rows;
    }
  }

  lemma {:induction false} ChildRowsPrefix(rows: seq<Row>, k: nat)
    requires k <= |rows|
    ensures ChildRows(rows[..k]) <= ChildRows(rows)
    ensures |ChildRows(rows[..k])| <= k
  {
    if k < |rows| {
      ChildRowsPrefix(rows[..|rows| - 1], k);
      assert rows[..|rows| - 1][..k] == rows[..k];
    } else {
      assert rows[..k] == rows;
      if k > 0 { ChildRowsPrefix(rows[..k - 1], k - 1); assert rows[..k - 1][..k - 1] == rows[..k - 1]; }
    }
  }

  /** Rows whose receipts stopped matching can never be accepted. */
  lemma {:induction false} UnboundChild(rows: seq<Row>, receipts: seq<Receipt>, k: nat)
    requires k < |rows| && rows[k].event.ChildBegin?
    requires var n := |ChildRows(rows[..k])|; n >= |receipts| || receipts[n] != Receipt(rows[k], true)
    ensures !Bound(receipts, ChildRows(rows))
  {
    assert rows[..k + 1][..k] == rows[..k];
    ChildRowsPrefix(rows, k + 1);
    assert ChildRows(rows[..k + 1]) == ChildRows(rows[..k]) + [rows[k]];
  }

  /** The forest behind a ledger fixes the reported totals. */
  ghost predicate SummaryOf(roots: seq<Module>, s: Summary) {
    var c := AfterForest(roots, ZERO);
    s == Summary(|roots|, c.modules, c.functions, c.children, 2 * (c.modules + c.functions + c.children) + |roots|)
  }

  lemma {:induction false} SummaryFits(rows: seq<Row>, receipts: seq<Receipt>, s: State)
    requires Accepts(rows, receipts) && Run(START, Events(rows)) == Some(s)
    ensures exists roots ::
              IsLedgerOf(rows, roots)
              && SummaryOf(roots, Summary(s.roots, s.count.modules, s.count.functions, s.count.children, |rows|))
  {
    var roots := AcceptedIsPrinted(rows, receipts);
    PrintedIsAccepted(rows, receipts, roots);
    CountRoots(roots);
  }

  /** What the validator knows after `i` rows. */
  ghost predicate Progress(rows: seq<Row>, receipts: seq<Receipt>, i: nat, s: State, observed: nat)
    requires i <= |rows|
  {
    && Run(START, Events(rows[..i])) == Some(s)
    && HeaderOk(rows[..i])
    && observed <= |receipts| && Bound(receipts[..observed], ChildRows(rows[..i]))
  }

  lemma {:induction false} ProgressStart(rows: seq<Row>, receipts: seq<Receipt>)
    ensures Progress(rows, receipts, 0, START, 0)
  {
  }

  lemma {:induction false} ProgressStep(rows: seq<Row>, receipts: seq<Receipt>, i: nat, s: State, observed: nat)
    requires i < |rows| && Progress(rows, receipts, i, s, observed)
    requires rows[i].schema == SCHEMA && rows[i].seqNo == Int(i) && Step(s, rows[i].event).Some?
    requires rows[i].event.ChildBegin? ==> observed < |receipts| && receipts[observed] == Receipt(rows[i], true)
    ensures Progress(rows, receipts, i + 1, Step(s, rows[i].event).value,
                     if rows[i].event.ChildBegin? then observed + 1 else observed)
  {
    hide Step, Run;
    assert rows[..i + 1][..i] == rows[..i];
    assert Events(rows[..i + 1]) == Events(rows[..i]) + [rows[i].event];
    RunSnoc(Events(rows[..i]), rows[i].event);
    assert ChildRows(rows[..i + 1]) == ChildRows(rows[..i]) + if rows[i].event.ChildBegin? then [rows[i]] else [];
  }

  /** A row that raises an error rules the whole ledger out. */
  lemma {:induction false} ProgressStuck(rows: seq<Row>, receipts: seq<Receipt>, i: nat, s: State, observed: nat)
    requires i < |rows| && Progress(rows, receipts, i, s, observed)
    requires rows[i].schema != SCHEMA || rows[i].seqNo != Int(i) || Step(s, rows[i].event).None?
             || (rows[i].event.ChildBegin? && (observed >= |receipts| || receipts[observed] != Receipt(rows[i], true)))
    ensures !Accepts(rows, receipts)
  {
    hide Step, Run;
    if Step(s, rows[i].event).None? {
      assert Events(rows[..i + 1]) == Events(rows[..i]) + [rows[i].event];
      RunSnoc(Events(rows[..i]), rows[i].event);
      RunPrefix(rows, i + 1);
    } else if rows[i].event.ChildBegin? && (observed >= |receipts| || receipts[observed] != Receipt(rows[i], true)) {
      UnboundChild(rows, receipts, i);
    }
  }

  lemma {:induction false} ProgressEnd(rows: seq<Row>, receipts: seq<Receipt>, s: State, observed: nat)
    requires Progress(rows, receipts, |rows|, s, observed)
    ensures Accepts(rows, receipts) <==> Closed(s) && observed == |receipts|
    ensures Run(START, Events(rows)) == Some(s)
  {
    assert rows[..|rows|] == rows && (observed == |receipts| ==> receipts[..observed] == receipts);
  }

  /**
   Close the ledger against the observed receipts.  It succeeds exactly on the printouts of nonempty
   forests whose children are the receipts, and reports that forest's totals.
   */
  method ValidateExportEvents(rows: seq<Row>, receipts: seq<Receipt>) returns (r: Result<Summary>)
    ensures r.Success? <==> (exists roots :: IsLedgerOf(rows, roots)) && Bound(receipts, ChildRows(rows))
    ensures r.Success? ==> exists roots :: IsLedgerOf(rows, roots) && SummaryOf(roots, r.value)
  {
    hide Step, IsLedgerOf, SummaryOf, ChildRows, Bound, Accepts, Progress;
    AcceptsIffPrinted(rows, receipts);
    var s := START;
    var observed := 0;
    ProgressStart(rows, receipts);
    for i := 0 to |rows|
      invariant Progress(rows, receipts, i, s, observed)
    {
      var row := rows[i];
      if row.schema != SCHEMA || row.seqNo != Int(i) {
        ProgressStuck(rows, receipts, i, s, observed);
        return Failure("Export ledger schema or sequence differs");
      }
      var next := Step(s, row.event);
      if next.None? {
        ProgressStuck(rows, receipts, i, s, observed);
        return Failure("Export row does not fit the source traversal");
      }
      if row.event.ChildBegin? && (observed >= |receipts| || receipts[observed] != Receipt(row, true)) {
        ProgressStuck(rows, receipts, i, s, observed);
        return Failure("Export child receipt does not bind its exact source event and completion");
      }
      ProgressStep(rows, receipts, i, s, observed);
      if row.event.ChildBegin? {
        observed := observed + 1;
      }
      s := next.value;
    }
    ProgressEnd(rows, receipts, s, observed);
    if !Closed(s) || observed != |receipts| {
      return Failure("Missing or unfinished export ledger or unmatched observed child");
    }
    SummaryFits(rows, receipts, s);
    r := Success(Summary(s.roots, s.count.modules, s.count.functions, s.count.children, |rows|));
  }
}
