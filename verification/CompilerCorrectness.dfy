/** The main result about the i386 back end: the machine code of a module and
    the interpreter agree in both directions. */
module CompilerCorrectness {
  import opened Words
  import opened Ir
  import opened IrSemantics
  import opened I386
  import opened EmitI386
  import opened SimBase
  import opened Simulation
  import opened Linking
  import opened Typing

  /** Control is at the entry of `f`, the stack holds a return address behind
      the code (where the machine halts) and the arguments above it. */
  predicate AtEntry(p: Machine, f: string, args: seq<Val>, w: World, s: State) {
    && s.status == Running && s.pc == Find(p.code, FunctionOf(f)) && s.world == w
    && s.esp % 4 == 0 && s.ebp % 4 == 0
    && Load(s.mem, s.esp) == |p.code| && ArgsAt(s.mem, s.esp + 4, args)
  }

  /** The interpreter returns `v` from the call, leaving the world `w'`. */
  ghost predicate Returns(m: Module, x: Externs, f: string, args: seq<Val>, ty: Type, w: World, v: Val, w': World) {
    exists fuel: nat :: CallFunction(m, x, fuel, f, args, ty, w) == Ok(v, map[], w')
  }

  ghost predicate Traps(m: Module, x: Externs, f: string, args: seq<Val>, ty: Type, w: World, w': World) {
    exists fuel: nat :: CallFunction(m, x, fuel, f, args, ty, w) == Trap(w')
  }

  /** The machine halts with `a` in `%eax` and the world `w'`, its stack and
      frame pointer as a call must leave them. */
  ghost predicate HaltsWith(p: Machine, s: State, argc: nat, a: int, w': World) {
    exists k: nat :: HaltedAt(p, s, k, argc, a, w')
  }

  ghost predicate HaltedAt(p: Machine, s: State, k: nat, argc: nat, a: int, w': World) {
    var t := Steps(p, s, k);
    && t.status == Halted && t.eax == a && t.world == w'
    && t.esp == s.esp + 4 && t.ebp == s.ebp && Unchanged(s.esp + 4 + 4 * argc, s.mem, t.mem)
  }

  ghost predicate DividesBadly(p: Machine, s: State, w': World) {
    exists k: nat :: Steps(p, s, k).status == Divide && Steps(p, s, k).world == w'
  }

  /** The machine comes to a stop of any kind. */
  ghost predicate Stops(p: Machine, s: State) {
    exists k: nat :: Steps(p, s, k).status != Running
  }

  /** No amount of fuel makes the interpreter complain about the IR. */
  ghost predicate NeverWrong(m: Module, x: Externs, f: string, args: seq<Val>, ty: Type, w: World) {
    forall fuel: nat :: CallFunction(m, x, fuel, f, args, ty, w) != Wrong
  }

  /** A machine that stopped stays as it is. */
  lemma StoppedAfter(p: Machine, s: State, i: nat, j: nat)
    requires Steps(p, s, i).status != Running && i <= j
    ensures Steps(p, s, j) == Steps(p, s, i)
  {
    StepsSum(p, s, i, j - i);
    Stopped(p, Steps(p, s, i), j - i);
  }

  /** After `k` steps the machine is where the interpreter ended. */
  ghost predicate Matched(p: Machine, s: State, k: nat, argc: nat, r: Res<Val>, fuel: nat) {
    match r
    case Ok(v, _, w') => HaltedAt(p, s, k, argc, Enc(v), w')
    case Trap(w') => Steps(p, s, k).status == Divide && Steps(p, s, k).world == w'
    case Timeout => Steps(p, s, k).status == Running && k >= fuel
    case Wrong => true
  }

  /** Interpreter to machine: what the interpreter computes with some fuel, the
      machine computes in some number of steps. */
  lemma Forward(m: Module, p: Machine, f: string, args: seq<Val>, ty: Type, w: World, fuel: nat, s: State)
    returns (k: nat)
    requires m.DistinctNames() && m.Defines(f) && p == Compile(m, p.x) && AtEntry(p, f, args, w, s)
    ensures Matched(p, s, k, |args|, CallFunction(m, p.x, fuel, f, args, ty, w), fuel)
  {
    hide CallFunction, Compile, Unchanged, ArgsAt, Linked, Find;
    CompiledIsLinked(m, p.x);
    var t;
    k, t := SimFunction(p, m, f, args, ty, fuel, w, s);
    if CallFunction(m, p.x, fuel, f, args, ty, w).Ok? {
      Steps1(p, t);
      var u := t.(status := Halted);
      assert Step(p, t) == u;
      Chain(p, s, k, t, 1, u);
      k := k + 1;
    }
  }

  /** Machine to interpreter: if the machine stops within `k` steps, the
      interpreter finishes with `k + 1` units of fuel. */
  lemma Backward(m: Module, p: Machine, f: string, args: seq<Val>, ty: Type, w: World, s: State, k: nat)
    requires m.DistinctNames() && m.Defines(f) && p == Compile(m, p.x) && AtEntry(p, f, args, w, s)
    requires Steps(p, s, k).status != Running
    requires NeverWrong(m, p.x, f, args, ty, w)
    ensures var r := CallFunction(m, p.x, k + 1, f, args, ty, w);
      (r.Ok? || r.Trap?) && Matched(p, s, k, |args|, r, k + 1)
  {
    hide CallFunction, Compile, Unchanged, ArgsAt, Step, Steps, Find;
    var j := Forward(m, p, f, args, ty, w, k + 1, s);
    var r := CallFunction(m, p.x, k + 1, f, args, ty, w);
    if j >= k { StoppedAfter(p, s, k, j); } else if !r.Timeout? { StoppedAfter(p, s, j, k); }
  }

  /** The code of a module computes exactly what the interpreter computes: for a
      call that is never `Wrong`, the machine halts with a result and a world if
      and only if the interpreter returns that result and that world; it raises a
      divide error if and only if the interpreter traps; it never faults; and it
      runs forever exactly when the interpreter finishes with no amount of fuel. */
  lemma CompiledCodeIsCorrect(m: Module, x: Externs, f: string, args: seq<Val>, ty: Type, w: World, s: State)
    requires m.DistinctNames() && m.Defines(f) && AtEntry(Compile(m, x), f, args, w, s)
    requires NeverWrong(m, x, f, args, ty, w)
    ensures forall a, w' ::
      HaltsWith(Compile(m, x), s, |args|, a, w') <==> exists v :: Returns(m, x, f, args, ty, w, v, w') && a == Enc(v)
    ensures forall w' :: DividesBadly(Compile(m, x), s, w') <==> Traps(m, x, f, args, ty, w, w')
    ensures forall k: nat :: Steps(Compile(m, x), s, k).status != Fault
    ensures Stops(Compile(m, x), s) <==> exists fuel: nat :: CallFunction(m, x, fuel, f, args, ty, w) != Timeout
  {
    hide CallFunction, Compile, Step, Steps, Find, HaltedAt, NeverWrong;
    var p := Compile(m, x);
    assert p.x == x by { CompileKeepsExterns(m, x); }
    forall a, w'
      ensures HaltsWith(p, s, |args|, a, w') <==> exists v :: Returns(m, x, f, args, ty, w, v, w') && a == Enc(v)
    {
      ResultsAgree(m, p, f, args, ty, w, s, a, w');
    }
    forall w' ensures DividesBadly(p, s, w') <==> Traps(m, x, f, args, ty, w, w') {
      TrapsAgree(m, p, f, args, ty, w, s, w');
    }
    forall k: nat | Steps(p, s, k).status != Running ensures Steps(p, s, k).status != Fault {
      Backward(m, p, f, args, ty, w, s, k);
      MatchedStatus(p, s, k, |args|, CallFunction(m, p.x, k + 1, f, args, ty, w), k + 1);
    }
    if Stops(p, s) {
      var k: nat :| Steps(p, s, k).status != Running;
      Backward(m, p, f, args, ty, w, s, k);
    }
    forall fuel: nat | CallFunction(m, x, fuel, f, args, ty, w) != Timeout ensures Stops(p, s) {
      NotWrong(m, x, f, args, ty, w, fuel);
      var k := Forward(m, p, f, args, ty, w, fuel, s);
      MatchedStatus(p, s, k, |args|, CallFunction(m, x, fuel, f, args, ty, w), fuel);
    }
  }

  lemma MatchedStatus(p: Machine, s: State, k: nat, argc: nat, r: Res<Val>, fuel: nat)
    requires Matched(p, s, k, argc, r, fuel)
    ensures r.Ok? ==> Steps(p, s, k).status == Halted
    ensures r.Trap? ==> Steps(p, s, k).status == Divide
  {
  }

  lemma TrapsAgree(m: Module, p: Machine, f: string, args: seq<Val>, ty: Type, w: World, s: State, w': World)
    requires m.DistinctNames() && m.Defines(f) && p == Compile(m, p.x) && AtEntry(p, f, args, w, s)
    requires NeverWrong(m, p.x, f, args, ty, w)
    ensures DividesBadly(p, s, w') <==> Traps(m, p.x, f, args, ty, w, w')
  {
    hide CallFunction, Compile, Step, Steps, Find, HaltedAt, NeverWrong, AtEntry;
    if DividesBadly(p, s, w') {
      var k: nat :| Steps(p, s, k).status == Divide && Steps(p, s, k).world == w';
      Backward(m, p, f, args, ty, w, s, k);
      MatchedStatus(p, s, k, |args|, CallFunction(m, p.x, k + 1, f, args, ty, w), k + 1);
    }
    if Traps(m, p.x, f, args, ty, w, w') {
      var fuel: nat :| CallFunction(m, p.x, fuel, f, args, ty, w) == Trap(w');
      var k := Forward(m, p, f, args, ty, w, fuel, s);
    }
  }

  lemma ResultsAgree(m: Module, p: Machine, f: string, args: seq<Val>, ty: Type, w: World, s: State, a: int, w': World)
    requires m.DistinctNames() && m.Defines(f) && p == Compile(m, p.x) && AtEntry(p, f, args, w, s)
    requires NeverWrong(m, p.x, f, args, ty, w)
    ensures HaltsWith(p, s, |args|, a, w') <==> exists v :: Returns(m, p.x, f, args, ty, w, v, w') && a == Enc(v)
  {
    hide CallFunction, Compile, Step, Steps, Find, HaltedAt, NeverWrong, AtEntry;
    if HaltsWith(p, s, |args|, a, w') {
      var k: nat :| HaltedAt(p, s, k, |args|, a, w');
      var v := ReturnedBy(m, p, f, args, ty, w, s, k, a, w');
      assert Returns(m, p.x, f, args, ty, w, v, w') && a == Enc(v);
    }
    if exists v :: Returns(m, p.x, f, args, ty, w, v, w') && a == Enc(v) {
      var v :| Returns(m, p.x, f, args, ty, w, v, w') && a == Enc(v);
      var fuel: nat :| CallFunction(m, p.x, fuel, f, args, ty, w) == Ok(v, map[], w');
      var k := Forward(m, p, f, args, ty, w, fuel, s);
      assert HaltedAt(p, s, k, |args|, a, w');
    }
  }

  lemma NotWrong(m: Module, x: Externs, f: string, args: seq<Val>, ty: Type, w: World, fuel: nat)
    requires NeverWrong(m, x, f, args, ty, w)
    ensures CallFunction(m, x, fuel, f, args, ty, w) != Wrong
  {
  }

  lemma CompileKeepsExterns(m: Module, x: Externs)
    ensures Compile(m, x).x == x
  {
  }

  lemma ReturnedBy(m: Module, p: Machine, f: string, args: seq<Val>, ty: Type, w: World, s: State, k: nat, a: int,
                   w': World)
      returns (v: Val)
    requires m.DistinctNames() && m.Defines(f) && p == Compile(m, p.x) && AtEntry(p, f, args, w, s)
    requires HaltedAt(p, s, k, |args|, a, w') && NeverWrong(m, p.x, f, args, ty, w)
    ensures Returns(m, p.x, f, args, ty, w, v, w') && a == Enc(v)
  {
    hide CallFunction, Compile, Step, Steps, Find, NeverWrong, Unchanged, AtEntry;
    Backward(m, p, f, args, ty, w, s, k);
    var r := CallFunction(m, p.x, k + 1, f, args, ty, w);
    CallEnv(m, p.x, k + 1, f, args, ty, w);
    v := r.v;
    assert r == Ok(v, map[], w');
  }

  lemma CallEnv(m: Module, x: Externs, fuel: nat, f: string, args: seq<Val>, ty: Type, w: World)
    ensures var r := CallFunction(m, x, fuel, f, args, ty, w);
      r.Ok? ==> r.env == map[]
  {
    hide Exec;
  }

  /** For a well-typed module no condition on the interpreter is left: from any
      entry state with arguments of the declared types, machine and interpreter
      agree on results, traps, worlds and divergence. */
  lemma WellTypedCodeIsCorrect(sig: Signatures, m: Module, x: Externs, f: string, args: seq<Val>, w: World, s: State)
    requires m.DistinctNames() && m.Defines(f) && TypedModule(sig, m, x)
    requires f in sig && ValuesFit(args, sig[f].params) && AtEntry(Compile(m, x), f, args, w, s)
    ensures forall a, w' ::
      HaltsWith(Compile(m, x), s, |args|, a, w') <==>
        exists v :: Returns(m, x, f, args, sig[f].ret, w, v, w') && a == Enc(v)
    ensures forall w' :: DividesBadly(Compile(m, x), s, w') <==> Traps(m, x, f, args, sig[f].ret, w, w')
    ensures forall k: nat :: Steps(Compile(m, x), s, k).status != Fault
    ensures Stops(Compile(m, x), s) <==> exists fuel: nat :: CallFunction(m, x, fuel, f, args, sig[f].ret, w) != Timeout
  {
    hide CallFunction, Compile, Step, Steps, Find, HaltedAt, TypedModule, AtEntry;
    WellTypedNeverWrong(sig, m, x, f, args, w);
    CompiledCodeIsCorrect(m, x, f, args, sig[f].ret, w, s);
  }
}
