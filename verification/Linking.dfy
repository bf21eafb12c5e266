/** The code of a whole module: every function is there, every branch has a target, and
    every label is defined once unless two functions have one symbol. */
module Linking {
  import opened Ir
  import opened I386
  import opened EmitI386
  import opened SimBase
  import opened Simulation
  import opened Labels
  import opened Branches

  /** The label belongs to one of the functions, or is numbered in `[lo, hi)`. */
  predicate Belongs(l: Label, fs: seq<Function>, lo: nat, hi: nat) {
    match l
    case Numbered(_, id) => lo <= id < hi
    case ReturnOf(f) => exists i :: 0 <= i < |fs| && fs[i].name == f
    case FunctionOf(f) => exists i :: 0 <= i < |fs| && fs[i].name == f
  }

  predicate ModuleLabels(code: seq<Instr>, fs: seq<Function>, lo: nat, hi: nat) {
    UniqueLabels(code) && forall i :: 0 <= i < |code| && code[i].Def? ==> Belongs(code[i].at, fs, lo, hi)
  }

  lemma FunctionLabels(f: Function, n: nat)
    ensures n <= EmitFunction(f, n).next
    ensures ModuleLabels(EmitFunction(f, n).code, [f], n, EmitFunction(f, n).next)
  {
    hide EmitStmts, CountAll, ParamSlots;
    var b := EmitStmts(f.body, ParamSlots(f.params), 0, n, NoLoop, ReturnOf(f.name));
    StmtsLabels(f.body, ParamSlots(f.params), 0, n, NoLoop, ReturnOf(f.name));
    var head, tail := Prologue(f), [Def(ReturnOf(f.name)), LeaveFrame, Ret];
    assert [f][0].name == f.name;
    JoinLabels(b.code, tail, [f], n, b.next, ReturnOf(f.name));
    JoinLabels(head, b.code + tail, [f], n, b.next, FunctionOf(f.name));
  }

  /** The prologue and the epilogue add one label each, which is not numbered. */
  lemma JoinLabels(a: seq<Instr>, b: seq<Instr>, fs: seq<Function>, lo: nat, hi: nat, l: Label)
    requires UniqueLabels(a) && UniqueLabels(b)
    requires forall i :: 0 <= i < |a| && a[i].Def? ==> Belongs(a[i].at, fs, lo, hi)
    requires forall i :: 0 <= i < |b| && b[i].Def? ==> Belongs(b[i].at, fs, lo, hi)
    requires forall i, j :: 0 <= i < |a| && 0 <= j < |b| && a[i].Def? ==> a[i] != b[j]
    ensures ModuleLabels(a + b, fs, lo, hi)
  {
    forall i, j | 0 <= i < j < |a + b| && (a + b)[i].Def? ensures (a + b)[i] != (a + b)[j] {
      if i < |a| && |a| <= j { assert (a + b)[j] == b[j - |a|]; }
    }
  }

  lemma {:induction false} FunctionsLabels(fs: seq<Function>, n: nat)
    requires forall i, j :: 0 <= i < j < |fs| ==> fs[i].name != fs[j].name
    ensures n <= EmitFunctions(fs, n).next
    ensures ModuleLabels(EmitFunctions(fs, n).code, fs, n, EmitFunctions(fs, n).next)
    decreases |fs|
  {
    hide EmitFunction;
    if fs == [] { return; }
    var a := EmitFunction(fs[0], n);
    var b := EmitFunctions(fs[1..], a.next);
    FunctionLabels(fs[0], n);
    FunctionsLabels(fs[1..], a.next);
    forall l: Label | Belongs(l, [fs[0]], n, a.next)
      ensures Belongs(l, fs, n, b.next) && !Belongs(l, fs[1..], a.next, b.next)
    {
      NotAgain(l, fs, n, a.next, b.next);
    }
    forall l: Label | Belongs(l, fs[1..], a.next, b.next) ensures Belongs(l, fs, n, b.next) {
      StillThere(l, fs, n, a.next, b.next);
    }
    JoinLabels(a.code, b.code, fs, n, b.next, FunctionOf(""));
  }

  lemma NotAgain(l: Label, fs: seq<Function>, lo: nat, mid: nat, hi: nat)
    requires fs != [] && Belongs(l, [fs[0]], lo, mid) && lo <= mid <= hi
    requires forall i, j :: 0 <= i < j < |fs| ==> fs[i].name != fs[j].name
    ensures Belongs(l, fs, lo, hi) && !Belongs(l, fs[1..], mid, hi)
  {
    forall i | 0 <= i < |fs[1..]| ensures fs[1..][i].name != fs[0].name { assert fs[1..][i] == fs[i + 1]; }
  }

  lemma StillThere(l: Label, fs: seq<Function>, lo: nat, mid: nat, hi: nat)
    requires fs != [] && Belongs(l, fs[1..], mid, hi) && lo <= mid <= hi
    ensures Belongs(l, fs, lo, hi)
  {
    if !l.Numbered? {
      var i :| 0 <= i < |fs[1..]| && fs[1..][i].name == l.f;
      assert fs[i + 1].name == l.f;
    }
  }

  /** The code of function `i` lies somewhere in the code of the module. */
  lemma {:induction false} FunctionLoaded(fs: seq<Function>, n: nat, i: nat) returns (pc: nat, n': nat)
    requires i < |fs|
    ensures var code := EmitFunctions(fs, n).code;
      var c := EmitFunction(fs[i], n').code;
      pc + |c| <= |code| && code[pc..pc + |c|] == c
    decreases |fs|
  {
    hide EmitFunction;
    var a := EmitFunction(fs[0], n);
    var b := EmitFunctions(fs[1..], a.next);
    if i == 0 {
      pc, n' := 0, n;
    } else {
      pc, n' := FunctionLoaded(fs[1..], a.next, i - 1);
      var c := EmitFunction(fs[i], n').code;
      assert (a.code + b.code)[|a.code| + pc..|a.code| + pc + |c|] == b.code[pc..pc + |c|];
      pc := |a.code| + pc;
    }
  }

  predicate DistinctNames(fs: seq<Function>) {
    forall i, j :: 0 <= i < j < |fs| ==> fs[i].name != fs[j].name
  }

  /** Two functions with one symbol define one label twice. */
  lemma {:induction false} NameTwice(fs: seq<Function>, n: nat)
    requires !DistinctNames(fs)
    ensures !UniqueLabels(EmitFunctions(fs, n).code)
    decreases |fs|
  {
    hide EmitFunction;
    var a := EmitFunction(fs[0], n);
    var b := EmitFunctions(fs[1..], a.next);
    if DistinctNames(fs[1..]) {
      assert forall k :: 0 < k < |fs| ==> fs[k] == fs[1..][k - 1];
      var i :| 0 < i < |fs| && fs[i].name == fs[0].name;
      var pc, n' := FunctionLoaded(fs[1..], a.next, i - 1);
      EntryFirst(fs[0], n);
      EntryFirst(fs[i], n');
      TwiceAcross(a.code, b.code, pc, FunctionOf(fs[0].name));
    } else {
      NameTwice(fs[1..], a.next);
      TwiceBehind(a.code, b.code);
    }
  }

  lemma EntryFirst(f: Function, n: nat)
    ensures var c := EmitFunction(f, n).code; c != [] && c[0] == Def(FunctionOf(f.name))
  {
  }

  lemma TwiceAcross(a: seq<Instr>, b: seq<Instr>, j: nat, l: Label)
    requires a != [] && a[0] == Def(l) && j < |b| && b[j] == Def(l)
    ensures !UniqueLabels(a + b)
  {
    assert (a + b)[0] == (a + b)[|a| + j];
  }

  lemma TwiceBehind(a: seq<Instr>, b: seq<Instr>)
    requires !UniqueLabels(b)
    ensures !UniqueLabels(a + b)
  {
    var i, j :| 0 <= i < j < |b| && b[i].Def? && b[i] == b[j];
    assert (a + b)[|a| + i] == (a + b)[|a| + j];
  }

  /** The machine loaded with the code of a module. */
  function Compile(m: Module, x: IrSemantics.Externs): Machine {
    Machine(EmitFunctions(m.functions, 0).code, x)
  }

  import IrSemantics

  /** The code is linked as the proofs about it need it exactly where the symbols of the
      functions are distinct, which the assembler would demand. */
  lemma CompiledIsLinked(m: Module, x: IrSemantics.Externs)
    ensures Linked(Compile(m, x), m) <==> m.DistinctNames()
  {
    hide EmitFunctions, EmitFunction;
    var p := Compile(m, x);
    if !m.DistinctNames() { return; }
    FunctionsLabels(m.functions, 0);
    forall i | 0 <= i < |m.functions| ensures Loaded(p, m.functions[i]) {
      var pc, n := FunctionLoaded(m.functions, 0, i);
      assert At(p, pc, EmitFunction(m.functions[i], n).code);
    }
    forall f | HasLabel(p.code, FunctionOf(f)) ensures m.Defines(f) {
      var i :| 0 <= i < |p.code| && p.code[i] == Def(FunctionOf(f));
      assert Belongs(p.code[i].at, m.functions, 0, EmitFunctions(m.functions, 0).next);
    }
  }

  lemma FunctionGoes(f: Function, n: nat)
    requires AllLoopsOk(f.body, false)
    ensures GoesTo(EmitFunction(f, n).code, {})
  {
    hide EmitStmts, CountAll, ParamSlots, GoesTo, HasLabel, AllLoopsOk;
    var ret := ReturnOf(f.name);
    var b := EmitStmts(f.body, ParamSlots(f.params), 0, n, NoLoop, ret);
    var tail := [Def(ret), LeaveFrame, Ret];
    StmtsGo(f.body, ParamSlots(f.params), 0, n, NoLoop, ret);
    Listed(Prologue(f), {ret});
    Listed(tail, {ret});
    GoesCat(b.code, tail, {ret});
    GoesCat(Prologue(f), b.code + tail, {ret});
    Defines(tail, 0, ret);
    HasCat(b.code, tail, ret);
    HasCat(Prologue(f), b.code + tail, ret);
    Discharge(EmitFunction(f, n).code, {}, ret);
  }

  /** Every branch of a module goes to one of its labels, and every label is defined once
      if and only if no two functions have one symbol. */
  lemma ModuleIsWellStructured(fs: seq<Function>, n: nat)
    requires forall i :: 0 <= i < |fs| ==> AllLoopsOk(fs[i].body, false)
    ensures UniqueLabels(EmitFunctions(fs, n).code) <==> DistinctNames(fs)
    ensures forall i :: 0 <= i < |EmitFunctions(fs, n).code| && IsBranch(EmitFunctions(fs, n).code[i]) ==>
      HasLabel(EmitFunctions(fs, n).code, EmitFunctions(fs, n).code[i].at)
  {
    hide UniqueLabels, DistinctNames, EmitFunctions, AllLoopsOk;
    if DistinctNames(fs) { NamesAreDistinct(fs, n); } else { NameTwice(fs, n); }
    ModuleGoes(fs, n);
  }

  lemma NamesAreDistinct(fs: seq<Function>, n: nat)
    requires DistinctNames(fs)
    ensures UniqueLabels(EmitFunctions(fs, n).code)
  {
    hide UniqueLabels, EmitFunctions;
    FunctionsLabels(fs, n);
  }

  lemma {:induction false} ModuleGoes(fs: seq<Function>, n: nat)
    requires forall i :: 0 <= i < |fs| ==> AllLoopsOk(fs[i].body, false)
    ensures GoesTo(EmitFunctions(fs, n).code, {})
    decreases |fs|
  {
    hide EmitFunction, GoesTo, AllLoopsOk;
    if fs == [] { Listed([], {}); return; }
    FunctionGoes(fs[0], n);
    var a := EmitFunction(fs[0], n);
    ModuleGoes(fs[1..], a.next);
    GoesCat(a.code, EmitFunctions(fs[1..], a.next).code, {});
  }
}
