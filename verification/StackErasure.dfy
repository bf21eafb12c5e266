/** The two models of the i386 emitter agree: on IR over single words, forgetting the
    operands in the detailed code gives the stack code of the same tree, with the same
    labels. */
module StackErasure {
  import opened Frames
  import opened Calls
  import opened StackCode
  import M = I386
  import E = EmitI386
  import Ir
  import Branches

  type Stmt = StackCode.Stmt
  type Arm = StackCode.Arm
  type Pattern = StackCode.Pattern

  // ---- trees ----

  function ShapeOf(e: Ir.Value): Value
    decreases e, 1
  {
    match e
    case Neg(a) => Wrap(Scalar, ShapeOf(a))
    case Not(a) => Wrap(Scalar, ShapeOf(a))
    case Cast(a, _) => Wrap(Scalar, ShapeOf(a))
    case Incr(_, postfix, _, _, _) => Increment(Scalar, postfix)
    case Binary(_, a, b, _) => StackCode.Binary(Scalar, ShapeOf(a), ShapeOf(b))
    case And(a, b) => Logical(Scalar, true, ShapeOf(a), ShapeOf(b))
    case Or(a, b) => Logical(Scalar, false, ShapeOf(a), ShapeOf(b))
    case Call(f, args, _) => StackCode.Call(Scalar, f, ShapesOf(args))
    case _ => Leaf(Scalar)
  }

  function ShapesOf(args: seq<Ir.Value>): (vs: seq<Value>)
    ensures |vs| == |args| && forall i :: 0 <= i < |vs| ==> vs[i] == ShapeOf(args[i]) && vs[i].size == Scalar
    decreases args, 0
  {
    if args == [] then [] else [ShapeOf(args[0])] + ShapesOf(args[1..])
  }

  /** Assignments to locals and statics take the same instructions here. */
  function ShapeOfStmt(st: Ir.Stmt): Stmt
    decreases st, 1
  {
    match st
    case Let(_, _, e) => StackCode.Let(ShapeOf(e))
    case Assign(_, e) => StackCode.Assign(true, ShapeOf(e))
    case Expr(e) => StackCode.Expr(ShapeOf(e))
    case Return(e) => StackCode.Return(ShapeOf(e))
    case If(c, a, b) => StackCode.If(ShapeOf(c), ShapeOfBody(a), ShapeOfBody(b))
    case While(c, body) => StackCode.While(ShapeOf(c), ShapeOfBody(body))
    case For(init, c, step, body) =>
      StackCode.For(ShapeOfStmt(init), ShapeOf(c), ShapeOfStmt(step), ShapeOfBody(body))
    case Match(_, e, arms) => StackCode.Match(ShapeOf(e), ShapeOfArms(arms))
    case Break => StackCode.Break
    case Continue => StackCode.Continue
  }

  function ShapeOfBody(body: seq<Ir.Stmt>): seq<Stmt>
    decreases body, 0
  {
    if body == [] then [] else [ShapeOfStmt(body[0])] + ShapeOfBody(body[1..])
  }

  function ShapeOfPatterns(patterns: seq<Ir.Pattern>): (ps: seq<Pattern>)
    ensures |ps| == |patterns|
    ensures forall i :: 0 <= i < |ps| ==> ps[i] == if patterns[i].Default? then StackCode.Default else Test
  {
    seq(|patterns|, i requires 0 <= i < |patterns| => if patterns[i].Default? then StackCode.Default else Test)
  }

  function ShapeOfArms(arms: seq<Ir.Arm>): (r: seq<Arm>)
    ensures |r| == |arms|
    decreases arms, 0
  {
    if arms == [] then []
    else [StackCode.Arm(ShapeOfPatterns(arms[0].patterns), ShapeOfBody(arms[0].body))] + ShapeOfArms(arms[1..])
  }

  function ShapeOfFunction(f: Ir.Function): Function {
    StackCode.Function(f.name, E.CountAll(f.body), ShapeOfBody(f.body))
  }

  function ShapeOfFunctions(fs: seq<Ir.Function>): seq<Function> {
    if fs == [] then [] else [ShapeOfFunction(fs[0])] + ShapeOfFunctions(fs[1..])
  }

  function LoopOf(lo: E.Loop): Loop {
    if lo.InLoop? then StackCode.InLoop(lo.start, lo.end) else StackCode.NoLoop
  }

  // ---- code ----

  /** What is left of an instruction without its operands. */
  function EraseOne(i: M.Instr): seq<Op> {
    match i
    case Def(l) => [StackCode.Def(l)]
    case PushEax => [PushWord]
    case PopEax => [PopWord]
    case Jmp(l) => [Jump(l)]
    case Jcc(c, l) => [Branch(l, c == M.E)]
    case CallTo(f) => [StackCode.CallTo(f, 0)]
    case AddEsp(n) => if n >= 0 then [RaiseSp(n)] else [LowerSp(0 - n)]
    case SubEsp(n) => if n >= 0 then [LowerSp(n)] else [RaiseSp(0 - n)]
    case MovEspEbp => [SaveFrame]
    case Ret => [Leave]
    case _ => []
  }

  function Erase(c: seq<M.Instr>): seq<Op> {
    if c == [] then [] else EraseOne(c[0]) + Erase(c[1..])
  }

  /** Stack code without what stands for other instructions, and without the sizes at
      calls. */
  function BareOne(op: Op): seq<Op> {
    if op.Plain? || op.SetAcc? || op.TestAcc? then [] else if op.CallTo? then [StackCode.CallTo(op.callee, 0)] else [op]
  }

  function Bare(c: seq<Op>): seq<Op> {
    if c == [] then [] else BareOne(c[0]) + Bare(c[1..])
  }

  lemma {:induction false} EraseCat(a: seq<M.Instr>, b: seq<M.Instr>)
    ensures Erase(a + b) == Erase(a) + Erase(b)
    decreases |a|
  {
    if a == [] {
      assert a + b == b;
    } else {
      assert (a + b)[1..] == a[1..] + b;
      EraseCat(a[1..], b);
    }
  }

  lemma {:induction false} BareCat(a: seq<Op>, b: seq<Op>)
    ensures Bare(a + b) == Bare(a) + Bare(b)
    decreases |a|
  {
    if a == [] {
      assert a + b == b;
    } else {
      assert (a + b)[1..] == a[1..] + b;
      BareCat(a[1..], b);
    }
  }

  lemma EraseSingle(i: M.Instr)
    ensures Erase([i]) == EraseOne(i)
  {
    assert [i][1..] == [];
    assert Erase([i]) == EraseOne([i][0]) + Erase([]);
  }

  lemma BareSingle(op: Op)
    ensures Bare([op]) == BareOne(op)
  {
    assert [op][1..] == [];
    assert Bare([op]) == BareOne([op][0]) + Bare([]);
  }

  /** The detailed code and the stack code leave the same. */
  predicate Alike(c: seq<M.Instr>, o: seq<Op>) {
    Erase(c) == Bare(o)
  }

  lemma AlikeCat(a: seq<M.Instr>, a': seq<Op>, b: seq<M.Instr>, b': seq<Op>)
    requires Alike(a, a') && Alike(b, b')
    ensures Alike(a + b, a' + b')
  {
    EraseCat(a, b);
    BareCat(a', b');
  }

  lemma AlikeOne(i: M.Instr, op: Op)
    ensures Alike([i], [op]) <==> EraseOne(i) == BareOne(op)
  {
    EraseSingle(i);
    BareSingle(op);
  }

  /** Code that is put together in the same way. */
  lemma Congruence()
    ensures forall a: seq<M.Instr>, a': seq<Op>, b: seq<M.Instr>, b': seq<Op> {:trigger Alike(a + b, a' + b')} ::
      Alike(a, a') && Alike(b, b') ==> Alike(a + b, a' + b')
    ensures forall i: M.Instr, op: Op {:trigger Alike([i], [op])} ::
      Alike([i], [op]) <==> EraseOne(i) == BareOne(op)
    ensures Alike([], [])
  {
    forall a: seq<M.Instr>, a': seq<Op>, b: seq<M.Instr>, b': seq<Op> | Alike(a, a') && Alike(b, b')
      ensures Alike(a + b, a' + b')
    {
      AlikeCat(a, a', b, b');
    }
    forall i: M.Instr, op: Op ensures Alike([i], [op]) <==> EraseOne(i) == BareOne(op) { AlikeOne(i, op); }
  }

  /** Other instructions on either side do not matter. */
  lemma PlainBehind(c: seq<M.Instr>, o: seq<Op>)
    requires Alike(c, o)
    ensures Alike(c, o + [Plain]) && Alike(c, [Plain] + o)
  {
    BareSingle(Plain);
    BareCat(o, [Plain]);
    BareCat([Plain], o);
    assert Bare(o + [Plain]) == Bare(o) && Bare([Plain] + o) == Bare(o);
  }

  lemma {:induction false} NothingLeft(c: seq<M.Instr>)
    requires forall i :: 0 <= i < |c| ==> EraseOne(c[i]) == []
    ensures Erase(c) == [] && Alike(c, [Plain]) && Alike(c, [])
    decreases |c|
  {
    if c != [] { NothingLeft(c[1..]); }
    assert [Plain][1..] == [];
  }

  lemma PairAlike(i: M.Instr, j: M.Instr, a: Op, b: Op)
    requires EraseOne(i) == BareOne(a) && EraseOne(j) == BareOne(b)
    ensures Alike([i, j], [a, b])
  {
    AlikeOne(i, a);
    AlikeOne(j, b);
    AlikeCat([i], [a], [j], [b]);
    assert [i, j] == [i] + [j] && [a, b] == [a] + [b];
  }

  predicate Same(c: seq<M.Instr>, next: nat, r: Emitted) {
    Alike(c, r.code) && next == r.next
  }

  // ---- values ----

  lemma {:induction false} ValueSame(e: Ir.Value, slots: E.SlotMap, n: nat)
    ensures var r := E.EmitValue(e, slots, n); Same(r.code, r.next, EmitValue(I386, ShapeOf(e), n))
    decreases e, 2
  {
    match e
    case Binary(_, _, _, _) => BinarySame(e, slots, n);
    case And(_, _) => LogicalSame(e, slots, n);
    case Or(_, _) => LogicalSame(e, slots, n);
    case Call(_, _, _) => CallSame(e, slots, n);
    case Incr(_, _, _, _, _) => IncrSame(e, slots, n);
    case Neg(_) => UnarySame(e, slots, n);
    case Not(_) => UnarySame(e, slots, n);
    case Cast(_, _) => UnarySame(e, slots, n);
    case _ => LeafSame(e, slots, n);
  }

  lemma LeafSame(e: Ir.Value, slots: E.SlotMap, n: nat)
    requires e.IntLit? || e.BoolLit? || e.Local? || e.Global?
    ensures var r := E.EmitValue(e, slots, n); Same(r.code, r.next, EmitValue(I386, ShapeOf(e), n))
  {
    hide Alike;
    var code := E.EmitValue(e, slots, n).code;
    assert code == [code[0]] && EraseOne(code[0]) == [];
    AlikeOne(code[0], Plain);
  }

  function UnaryTail(e: Ir.Value): seq<M.Instr> {
    if e.Neg? then [M.NegEax] else if e.Not? then [M.CmpAl, M.SetAl(M.E), M.ZeroExtendAl] else []
  }

  lemma UnaryCode(e: Ir.Value, slots: E.SlotMap, n: nat)
    requires e.Neg? || e.Not? || e.Cast?
    ensures var r := E.EmitValue(e.operand, slots, n);
      E.EmitValue(e, slots, n) == E.Emitted(r.code + UnaryTail(e), r.next)
    ensures var r' := EmitValue(I386, ShapeOf(e.operand), n);
      EmitValue(I386, ShapeOf(e), n) == Emitted(r'.code + [Plain], r'.next)
  {
    var r := E.EmitValue(e.operand, slots, n);
    if e.Cast? { assert r.code + [] == r.code; }
  }

  lemma UnarySame(e: Ir.Value, slots: E.SlotMap, n: nat)
    requires e.Neg? || e.Not? || e.Cast?
    ensures var r := E.EmitValue(e, slots, n); Same(r.code, r.next, EmitValue(I386, ShapeOf(e), n))
    decreases e, 1
  {
    hide Alike, E.EmitValue, EmitValue;
    UnaryCode(e, slots, n);
    ValueSame(e.operand, slots, n);
    NothingLeft(UnaryTail(e));
    AlikeCat(E.EmitValue(e.operand, slots, n).code, EmitValue(I386, ShapeOf(e.operand), n).code, UnaryTail(e), [Plain]);
  }

  lemma IncrSame(e: Ir.Value, slots: E.SlotMap, n: nat)
    requires e.Incr?
    ensures var r := E.EmitValue(e, slots, n); Same(r.code, r.next, EmitValue(I386, ShapeOf(e), n))
  {
    hide Alike;
    var c := E.IncrCode(e, slots);
    if e.postfix {
      PostfixAlike(c[0], c[2], c[3]);
      assert c == [c[0], M.PushEax, c[2], c[3], M.PopEax];
    } else {
      NothingLeft(c);
    }
  }

  lemma PostfixAlike(load: M.Instr, bump: M.Instr, store: M.Instr)
    requires EraseOne(load) == [] && EraseOne(bump) == [] && EraseOne(store) == []
    ensures Alike([load, M.PushEax, bump, store, M.PopEax], [Plain] + (PushAcc(I386) + ([Plain] + PopTo(I386))))
  {
    hide Alike;
    AlikeOne(load, Plain);
    AlikeOne(M.PushEax, PushWord);
    AlikeOne(M.PopEax, PopWord);
    NothingLeft([bump, store]);
    AlikeCat([bump, store], [Plain], [M.PopEax], [PopWord]);
    AlikeCat([M.PushEax], [PushWord], [bump, store] + [M.PopEax], [Plain] + [PopWord]);
    AlikeCat([load], [Plain], [M.PushEax] + ([bump, store] + [M.PopEax]), [PushWord] + ([Plain] + [PopWord]));
    assert [load, M.PushEax, bump, store, M.PopEax] == [load] + ([M.PushEax] + ([bump, store] + [M.PopEax]));
  }

  lemma BinaryTail(op: Ir.BinOp, operandTy: Ir.Type, ty: Ir.Type)
    ensures Alike([M.MovEaxEcx, M.PopEax] + E.OpCode(op, operandTy, ty), [Plain] + (PopTo(I386) + [Plain]))
  {
    hide Alike;
    var c := E.OpCode(op, operandTy, ty);
    NothingLeft(c);
    Congruence();
    assert [M.MovEaxEcx, M.PopEax] + c == [M.MovEaxEcx] + ([M.PopEax] + c);
  }

  lemma BinarySame(e: Ir.Value, slots: E.SlotMap, n: nat)
    requires e.Binary?
    ensures var r := E.EmitValue(e, slots, n); Same(r.code, r.next, EmitValue(I386, ShapeOf(e), n))
    decreases e, 1
  {
    hide Alike, E.OpCode;
    var r := E.EmitValue(e.lhs, slots, n);
    var q := E.EmitValue(e.rhs, slots, r.next);
    var a, b := EmitValue(I386, ShapeOf(e.lhs), n), EmitValue(I386, ShapeOf(e.rhs), r.next);
    ValueSame(e.lhs, slots, n);
    ValueSame(e.rhs, slots, r.next);
    BinaryAlike(r.code, q.code, a.code, b.code, e.op, Ir.TypeOf(e.lhs), e.ty);
  }

  lemma BinaryAlike(a: seq<M.Instr>, b: seq<M.Instr>, a': seq<Op>, b': seq<Op>, op: Ir.BinOp, operandTy: Ir.Type,
                    ty: Ir.Type)
    requires Alike(a, a') && Alike(b, b')
    ensures Alike(a + ([M.PushEax] + (b + ([M.MovEaxEcx, M.PopEax] + E.OpCode(op, operandTy, ty)))),
                  a' + (PushAcc(I386) + (b' + ([Plain] + (PopTo(I386) + [Plain])))))
  {
    hide Alike, E.OpCode;
    BinaryTail(op, operandTy, ty);
    Congruence();
  }

  lemma LogicalSame(e: Ir.Value, slots: E.SlotMap, n: nat)
    requires e.And? || e.Or?
    ensures var r := E.EmitValue(e, slots, n); Same(r.code, r.next, EmitValue(I386, ShapeOf(e), n))
    decreases e, 1
  {
    hide Alike;
    var r := E.EmitValue(e.lhs, slots, n + 2);
    var q := E.EmitValue(e.rhs, slots, r.next);
    var a, b := EmitValue(I386, ShapeOf(e.lhs), n + 2), EmitValue(I386, ShapeOf(e.rhs), r.next);
    ValueSame(e.lhs, slots, n + 2);
    ValueSame(e.rhs, slots, r.next);
    var short := Numbered(ShortPrefix(e.And?), n);
    var end := Numbered(M.LogicEnd, n + 1);
    LogicAlike(e.And?, r.code, q.code, a.code, b.code, short, end);
  }

  lemma LogicAlike(isAnd: bool, a: seq<M.Instr>, b: seq<M.Instr>, a': seq<Op>, b': seq<Op>, short: Label, end: Label)
    requires Alike(a, a') && Alike(b, b')
    ensures var test, test' := [M.CmpAl, M.Jcc(if isAnd then M.E else M.NE, short)], [TestAcc, Branch(short, isAnd)];
      Alike(a + (test + (b + (test + Exits(isAnd, short, end)))),
            a' + (test' + (b' + (test' + Exits'(isAnd, short, end)))))
  {
    hide Alike;
    PairAlike(M.CmpAl, M.Jcc(if isAnd then M.E else M.NE, short), TestAcc, Branch(short, isAnd));
    ExitsAlike(isAnd, short, end);
    Congruence();
  }

  function Exits(isAnd: bool, short: Label, end: Label): seq<M.Instr> {
    var one, zero := M.MovImm(1), M.MovImm(0);
    [if isAnd then one else zero, M.Jmp(end), M.Def(short), if isAnd then zero else one, M.Def(end)]
  }

  function Exits'(isAnd: bool, short: Label, end: Label): seq<Op> {
    [SetAcc(isAnd), Jump(end), StackCode.Def(short), SetAcc(!isAnd), StackCode.Def(end)]
  }

  lemma ExitsAlike(isAnd: bool, short: Label, end: Label)
    ensures Alike(Exits(isAnd, short, end), Exits'(isAnd, short, end))
  {
    hide Alike;
    var one, zero := M.MovImm(if isAnd then 1 else 0), M.MovImm(if isAnd then 0 else 1);
    PairAlike(one, M.Jmp(end), SetAcc(isAnd), Jump(end));
    PairAlike(zero, M.Def(end), SetAcc(!isAnd), StackCode.Def(end));
    AlikeOne(M.Def(short), StackCode.Def(short));
    var c, d := [one, M.Jmp(end)], [zero, M.Def(end)];
    var c', d' := [SetAcc(isAnd), Jump(end)], [SetAcc(!isAnd), StackCode.Def(end)];
    AlikeCat([M.Def(short)], [StackCode.Def(short)], d, d');
    AlikeCat(c, c', [M.Def(short)] + d, [StackCode.Def(short)] + d');
    assert Exits(isAnd, short, end) == c + ([M.Def(short)] + d);
    assert Exits'(isAnd, short, end) == c' + ([StackCode.Def(short)] + d');
  }

  // ---- calls ----

  /** On i386 every argument is one word on the stack. */
  lemma {:induction false} AllOnStack(vs: seq<Value>, i: nat)
    requires i <= |vs| && forall k :: 0 <= k < |vs| ==> vs[k].size == Scalar
    ensures var ns := ArgChunks(I386, vs); StackBefore(I386, ns, i) == i && RegistersBefore(I386, ns, i) == 0
    ensures forall k :: 0 <= k < i ==> !InRegisters(I386, ArgChunks(I386, vs), k)
  {
    if i > 0 { AllOnStack(vs, i - 1); }
  }

  lemma {:induction false} NoneInRegisters(vs: seq<Value>, i: nat, n: nat)
    requires i <= |vs| && forall k :: 0 <= k < i ==> !InRegisters(I386, ArgChunks(I386, vs), k)
    ensures EmitPushed(I386, vs, i, true, n) == Emitted([], n)
  {
    hide InRegisters;
    if i > 0 { NoneInRegisters(vs, i - 1, n); }
  }

  lemma {:induction false} LastArgument(args: seq<Ir.Value>, last: Ir.Value, slots: E.SlotMap, n: nat)
    ensures var r := E.EmitValue(last, slots, n);
      var q := E.EmitArgs(args, slots, r.next);
      E.EmitArgs(args + [last], slots, n) == E.Emitted((r.code + [M.PushEax]) + q.code, q.next)
    decreases |args|
  {
    hide E.EmitValue;
    var all := args + [last];
    if args == [] {
      assert all[1..] == [] && all[0] == last;
    } else {
      assert all[1..] == args[1..] + [last] && all[0] == args[0];
      LastArgument(args[1..], last, slots, n);
    }
  }

  lemma ArgumentsSame(args: seq<Ir.Value>, i: nat, slots: E.SlotMap, n: nat)
    requires i <= |args|
    ensures var r := E.EmitArgs(args[..i], slots, n);
      Same(r.code, r.next, EmitPushed(I386, ShapesOf(args), i, false, n))
    decreases args, 0, i
  {
    hide Alike, E.EmitValue, E.EmitArgs, EmitChunksDown, InRegisters, Chunks, EmitPushed;
    var vs := ShapesOf(args);
    PushedStack(vs, i, n);
    if i == 0 {
      NothingLeft([]);
      assert E.EmitArgs([], slots, n) == E.Emitted([], n) by { NoArguments(slots, n); }
    } else {
      var last := args[i - 1];
      var r := E.EmitValue(last, slots, n);
      ArgumentSame(last, slots, n);
      ArgumentsSame(args, i - 1, slots, r.next);
      OneMore(args, i, slots, n, EmitChunksDown(I386, vs[i - 1], Chunks(I386, Scalar), n), vs);
    }
  }

  lemma OneMore(args: seq<Ir.Value>, i: nat, slots: E.SlotMap, n: nat, a: Emitted, vs: seq<Value>)
    requires 0 < i <= |args| && i <= |vs|
    requires var r := E.EmitValue(args[i - 1], slots, n);
      var q := E.EmitArgs(args[..i - 1], slots, r.next);
      && Same(r.code + [M.PushEax], r.next, a)
      && Same(q.code, q.next, EmitPushed(I386, vs, i - 1, false, a.next))
    ensures var r := E.EmitArgs(args[..i], slots, n);
      var q := EmitPushed(I386, vs, i - 1, false, a.next);
      Same(r.code, r.next, Emitted(a.code + q.code, q.next))
  {
    hide Alike, E.EmitValue, E.EmitArgs, EmitPushed;
    var r := E.EmitValue(args[i - 1], slots, n);
    assert args[..i] == args[..i - 1] + [args[i - 1]];
    LastArgument(args[..i - 1], args[i - 1], slots, n);
    var q := E.EmitArgs(args[..i - 1], slots, r.next);
    AlikeCat(r.code + [M.PushEax], a.code, q.code, EmitPushed(I386, vs, i - 1, false, a.next).code);
  }

  lemma NoArguments(slots: E.SlotMap, n: nat)
    ensures E.EmitArgs([], slots, n) == E.Emitted([], n)
  {
  }

  lemma PushedStack(vs: seq<Value>, i: nat, n: nat)
    requires i <= |vs| && forall k :: 0 <= k < |vs| ==> vs[k].size == Scalar
    ensures EmitPushed(I386, vs, i, false, n) ==
      if i == 0 then Emitted([], n) else
      var a := EmitChunksDown(I386, vs[i - 1], Chunks(I386, Scalar), n);
      var q := EmitPushed(I386, vs, i - 1, false, a.next);
      Emitted(a.code + q.code, q.next)
  {
    hide InRegisters, Chunks, EmitChunksDown;
    AllOnStack(vs, |vs|);
  }

  lemma ArgumentSame(e: Ir.Value, slots: E.SlotMap, n: nat)
    ensures var r := E.EmitValue(e, slots, n);
      && ShapeOf(e).size == Scalar
      && Same(r.code + [M.PushEax], r.next, EmitChunksDown(I386, ShapeOf(e), Chunks(I386, Scalar), n))
    decreases e, 3
  {
    hide Alike, E.EmitValue, EmitValue;
    var v := ShapeOf(e);
    ValueSame(e, slots, n);
    Congruence();
    var a := EmitValue(I386, v, n);
    assert EmitChunk(I386, v, 0, n) == a;
    assert EmitChunksDown(I386, v, 0, a.next).code == [];
    assert EmitChunksDown(I386, v, 1, n).code == (a.code + [PushWord]) + [];
    assert (a.code + [PushWord]) + [] == a.code + [PushWord];
  }

  lemma CallSame(e: Ir.Value, slots: E.SlotMap, n: nat)
    requires e.Call?
    ensures var r := E.EmitValue(e, slots, n); Same(r.code, r.next, EmitValue(I386, ShapeOf(e), n))
    decreases e, 1
  {
    hide Alike, EmitPushed, RegistersBefore, StackBefore;
    var vs, k := ShapesOf(e.args), |e.args|;
    var a := EmitPushed(I386, vs, k, false, n);
    AllOnStack(vs, k);
    NoneInRegisters(vs, k, a.next);
    assert e.args[..k] == e.args;
    ArgumentsSame(e.args, k, slots, n);
    CallCode(a.code, StackCode.CallTo(e.callee, 4 * k), k);
    CallAlike(E.EmitArgs(e.args, slots, n).code, a.code, e.callee, k);
    assert PopsInto(I386, 0) == [];
  }

  lemma CallCode(a: seq<Op>, call: Op, k: nat)
    ensures var clean := if 4 * k > 0 then [RaiseSp(4 * k)] else [];
      [] + (a + ([] + ([] + ([call] + clean)))) == a + ([call] + clean)
  {
  }

  lemma CallAlike(a: seq<M.Instr>, a': seq<Op>, f: string, k: nat)
    requires Alike(a, a')
    ensures Alike(a + ([M.CallTo(f)] + if k == 0 then [] else [M.AddEsp(4 * k)]),
                  a' + ([StackCode.CallTo(f, 4 * k)] + if 4 * k > 0 then [RaiseSp(4 * k)] else []))
  {
    hide Alike;
    Congruence();
  }

  // ---- statements ----

  /** A value of one word, and what puts it into its slot. */
  lemma SlotSame(e: Ir.Value, slots: E.SlotMap, n: nat, store: M.Instr)
    requires EraseOne(store) == []
    ensures var r := E.EmitValue(e, slots, n);
      && Same(r.code + [store], r.next, EmitChunksUp(I386, ShapeOf(e), 0, 1, n))
      && ShapeOf(e).size == Scalar && !ShapeOf(e).Literal?
  {
    hide Alike, E.EmitValue, EmitValue;
    var v := ShapeOf(e);
    ValueSame(e, slots, n);
    Congruence();
    var a := EmitValue(I386, v, n);
    assert EmitChunk(I386, v, 0, n) == a;
    assert EmitChunksUp(I386, v, 1, 1, a.next).code == [];
    assert (a.code + [Plain]) + [] == a.code + [Plain];
  }

  lemma {:induction false} StmtSame(st: Ir.Stmt, slots: E.SlotMap, k: nat, n: nat, lo: E.Loop, ret: Label)
    requires Branches.LoopsOk(st, lo.InLoop?)
    ensures var r := E.EmitStmt(st, slots, k, n, lo, ret);
      Same(r.code, r.next, EmitStmt(I386, ShapeOfStmt(st), n, LoopOf(lo), ret))
    decreases st, 3
  {
    hide Same, E.EmitIf, E.EmitWhile, E.EmitFor, E.EmitMatch, EmitIf, EmitWhile, EmitFor, EmitMatch;
    match st
    case If(_, _, _) => IfSame(st, slots, k, n, lo, ret);
    case While(_, _) => WhileSame(st, slots, k, n, lo, ret);
    case For(_, _, _, _) => ForSame(st, slots, k, n, lo, ret);
    case Match(_, _, _) => MatchSame(st, slots, k, n, lo, ret);
    case Break => JumpSame(st, slots, k, n, lo, ret);
    case Continue => JumpSame(st, slots, k, n, lo, ret);
    case Return(_) => ReturnSame(st, slots, k, n, lo, ret);
    case _ => ValueStmtSame(st, slots, k, n, lo, ret);
  }

  lemma JumpSame(st: Ir.Stmt, slots: E.SlotMap, k: nat, n: nat, lo: E.Loop, ret: Label)
    requires (st.Break? || st.Continue?) && lo.InLoop?
    ensures var r := E.EmitStmt(st, slots, k, n, lo, ret);
      Same(r.code, r.next, EmitStmt(I386, ShapeOfStmt(st), n, LoopOf(lo), ret))
  {
    hide Alike;
    AlikeOne(M.Jmp(lo.start), Jump(lo.start));
    AlikeOne(M.Jmp(lo.end), Jump(lo.end));
  }

  lemma ReturnSame(st: Ir.Stmt, slots: E.SlotMap, k: nat, n: nat, lo: E.Loop, ret: Label)
    requires st.Return?
    ensures var r := E.EmitStmt(st, slots, k, n, lo, ret);
      Same(r.code, r.next, EmitStmt(I386, ShapeOfStmt(st), n, LoopOf(lo), ret))
  {
    hide Alike, E.EmitValue, EmitValue, EmitChunksUp;
    var e := st.value;
    SlotSame(e, slots, n, M.CmpAl);
    ValueSame(e, slots, n);
    AlikeOne(M.Jmp(ret), Jump(ret));
    AlikeCat(E.EmitValue(e, slots, n).code, EmitValue(I386, ShapeOf(e), n).code, [M.Jmp(ret)], [Jump(ret)]);
  }

  lemma ValueStmtSame(st: Ir.Stmt, slots: E.SlotMap, k: nat, n: nat, lo: E.Loop, ret: Label)
    requires st.Let? || st.Assign? || st.Expr?
    ensures var r := E.EmitStmt(st, slots, k, n, lo, ret);
      Same(r.code, r.next, EmitStmt(I386, ShapeOfStmt(st), n, LoopOf(lo), ret))
  {
    hide Alike, E.EmitValue, EmitValue, EmitChunksUp;
    match st
    case Let(_, _, e) => SlotSame(e, slots, n, M.StoreSlot(E.NextSlot(k)));
    case Assign(name, e) =>
      SlotSame(e, slots, n, if name in slots then M.StoreSlot(slots[name]) else M.StoreStatic(name));
    case Expr(e) => ValueSame(e, slots, n);
  }

  lemma IfSame(st: Ir.Stmt, slots: E.SlotMap, k: nat, n: nat, lo: E.Loop, ret: Label)
    requires st.If? && Branches.LoopsOk(st, lo.InLoop?)
    ensures var r := E.EmitIf(st, slots, k, n, lo, ret);
      Same(r.code, r.next, EmitIf(I386, ShapeOfStmt(st), n, LoopOf(lo), ret))
    decreases st, 2
  {
    hide Alike, E.EmitValue, EmitValue, E.EmitStmts, EmitBody, E.CountAll, Branches.AllLoopsOk, E.EmitIf, EmitIf;
    var r := E.EmitValue(st.cond, slots, n + 2);
    var a := E.EmitStmts(st.thenBody, slots, k, r.next, lo, ret);
    var d := k + E.CountAll(st.thenBody);
    var b := E.EmitStmts(st.elseBody, slots, d, a.next, lo, ret);
    ValueSame(st.cond, slots, n + 2);
    BodySame(st.thenBody, slots, k, r.next, lo, ret);
    BodySame(st.elseBody, slots, d, a.next, lo, ret);
    var r' := EmitValue(I386, ShapeOf(st.cond), n + 2);
    var a' := EmitBody(I386, ShapeOfBody(st.thenBody), r'.next, LoopOf(lo), ret);
    var b' := EmitBody(I386, ShapeOfBody(st.elseBody), a'.next, LoopOf(lo), ret);
    IfAlike(r.code, a.code, b.code, r'.code, a'.code, b'.code, Numbered(M.Else, n), Numbered(M.EndIf, n + 1));
    IfDetailed(st, slots, k, n, lo, ret, r, a, b);
    IfStack(ShapeOfStmt(st), n, LoopOf(lo), ret, r', a', b');
  }

  function DetailedIf(r: seq<M.Instr>, a: seq<M.Instr>, b: seq<M.Instr>, other: Label, end: Label): seq<M.Instr> {
    r + ([M.CmpAl, M.Jcc(M.E, other)] + (a + ([M.Jmp(end), M.Def(other)] + (b + [M.Def(end)]))))
  }

  function StackIf(r: seq<Op>, a: seq<Op>, b: seq<Op>, other: Label, end: Label): seq<Op> {
    r + ([TestAcc, Branch(other, true)] + (a + ([Jump(end), StackCode.Def(other)] + (b + [StackCode.Def(end)]))))
  }

  lemma IfDetailed(st: Ir.Stmt, slots: E.SlotMap, k: nat, n: nat, lo: E.Loop, ret: Label, r: E.Emitted,
                   a: E.EmittedStmt, b: E.EmittedStmt)
    requires st.If? && r == E.EmitValue(st.cond, slots, n + 2)
    requires a == E.EmitStmts(st.thenBody, slots, k, r.next, lo, ret)
    requires b == E.EmitStmts(st.elseBody, slots, k + E.CountAll(st.thenBody), a.next, lo, ret)
    ensures var f := E.EmitIf(st, slots, k, n, lo, ret);
      && f.next == b.next
      && f.code == DetailedIf(r.code, a.code, b.code, Numbered(M.Else, n), Numbered(M.EndIf, n + 1))
  {
    hide E.EmitValue, E.EmitStmts, E.CountAll;
  }

  lemma IfStack(st: Stmt, n: nat, lo: Loop, ret: Label, r: Emitted, a: Emitted, b: Emitted)
    requires st.If? && r == EmitValue(I386, st.cond, n + 2)
    requires a == EmitBody(I386, st.thenBody, r.next, lo, ret) && b == EmitBody(I386, st.elseBody, a.next, lo, ret)
    ensures EmitIf(I386, st, n, lo, ret)
         == Emitted(StackIf(r.code, a.code, b.code, Numbered(M.Else, n), Numbered(M.EndIf, n + 1)), b.next)
  {
    hide EmitValue, EmitBody;
  }

  lemma IfAlike(r: seq<M.Instr>, a: seq<M.Instr>, b: seq<M.Instr>, r': seq<Op>, a': seq<Op>, b': seq<Op>,
                other: Label, end: Label)
    requires Alike(r, r') && Alike(a, a') && Alike(b, b')
    ensures Alike(DetailedIf(r, a, b, other, end), StackIf(r', a', b', other, end))
  {
    hide Alike;
    PairAlike(M.CmpAl, M.Jcc(M.E, other), TestAcc, Branch(other, true));
    PairAlike(M.Jmp(end), M.Def(other), Jump(end), StackCode.Def(other));
    Congruence();
  }

  lemma WhileSame(st: Ir.Stmt, slots: E.SlotMap, k: nat, n: nat, lo: E.Loop, ret: Label)
    requires st.While? && Branches.LoopsOk(st, lo.InLoop?)
    ensures var r := E.EmitWhile(st, slots, k, n, lo, ret);
      Same(r.code, r.next, EmitWhile(I386, ShapeOfStmt(st), n, ret))
    decreases st, 2
  {
    var start, end := Numbered(M.WhileStart, n), Numbered(M.WhileEnd, n + 1);
    var r := E.EmitValue(st.cond, slots, n + 2);
    var b := E.EmitStmts(st.body, slots, k, r.next, E.InLoop(start, end), ret);
    var r' := EmitValue(I386, ShapeOf(st.cond), n + 2);
    var b' := EmitBody(I386, ShapeOfBody(st.body), r'.next, StackCode.InLoop(start, end), ret);
    hide Alike, E.EmitValue, EmitValue, E.EmitStmts, EmitBody, Branches.AllLoopsOk;
    ValueSame(st.cond, slots, n + 2);
    BodySame(st.body, slots, k, r.next, E.InLoop(start, end), ret);
    WhileAlike(r.code, b.code, r'.code, b'.code, start, end);
  }

  lemma WhileAlike(r: seq<M.Instr>, b: seq<M.Instr>, r': seq<Op>, b': seq<Op>, start: Label, end: Label)
    requires Alike(r, r') && Alike(b, b')
    ensures Alike([M.Def(start)] + (r + ([M.CmpAl, M.Jcc(M.E, end)] + (b + [M.Jmp(start), M.Def(end)]))),
                  [StackCode.Def(start)] + (r' + ([TestAcc, Branch(end, true)]
                    + (b' + [Jump(start), StackCode.Def(end)]))))
  {
    hide Alike;
    PairAlike(M.CmpAl, M.Jcc(M.E, end), TestAcc, Branch(end, true));
    PairAlike(M.Jmp(start), M.Def(end), Jump(start), StackCode.Def(end));
    Congruence();
  }

  lemma ForSame(st: Ir.Stmt, slots: E.SlotMap, k: nat, n: nat, lo: E.Loop, ret: Label)
    requires st.For? && Branches.LoopsOk(st, lo.InLoop?)
    ensures var r := E.EmitFor(st, slots, k, n, lo, ret);
      Same(r.code, r.next, EmitFor(I386, ShapeOfStmt(st), n, LoopOf(lo), ret))
    decreases st, 2
  {
    hide Alike, E.EmitValue, EmitValue, E.EmitStmts, EmitBody, E.EmitStmt, EmitStmt, E.CountAll, E.Count;
    hide Branches.AllLoopsOk, E.EmitFor, EmitFor;
    var cond, step, end := Numbered(M.ForCondition, n), Numbered(M.ForIncrement, n + 1), Numbered(M.ForEnd, n + 2);
    var i := E.EmitStmt(st.init, slots, k, n + 3, lo, ret);
    var d := k + E.Count(st.init);
    var r := E.EmitValue(st.cond, i.slots, i.next);
    var b := E.EmitStmts(st.body, i.slots, d, r.next, E.InLoop(step, end), ret);
    var g := E.EmitStmt(st.step, i.slots, d + E.CountAll(st.body), b.next, lo, ret);
    StmtSame(st.init, slots, k, n + 3, lo, ret);
    ValueSame(st.cond, i.slots, i.next);
    BodySame(st.body, i.slots, d, r.next, E.InLoop(step, end), ret);
    StmtSame(st.step, i.slots, d + E.CountAll(st.body), b.next, lo, ret);
    var i' := EmitStmt(I386, ShapeOfStmt(st.init), n + 3, LoopOf(lo), ret);
    var r' := EmitValue(I386, ShapeOf(st.cond), i'.next);
    var b' := EmitBody(I386, ShapeOfBody(st.body), r'.next, StackCode.InLoop(step, end), ret);
    var g' := EmitStmt(I386, ShapeOfStmt(st.step), b'.next, LoopOf(lo), ret);
    ForAlike(i.code, r.code, b.code, g.code, i'.code, r'.code, b'.code, g'.code, cond, step, end);
    ForDetailed(st, slots, k, n, lo, ret, i, r, b, g);
    ForStack(ShapeOfStmt(st), n, LoopOf(lo), ret, i', r', b', g');
  }

  function DetailedLoop(i: seq<M.Instr>, r: seq<M.Instr>, b: seq<M.Instr>, g: seq<M.Instr>, cond: Label, step: Label,
                        end: Label): seq<M.Instr> {
    i + ([M.Def(cond)] + (r + ([M.CmpAl, M.Jcc(M.E, end)] + (b + ([M.Def(step)] + (g
      + [M.Jmp(cond), M.Def(end)]))))))
  }

  function StackLoop(i: seq<Op>, r: seq<Op>, b: seq<Op>, g: seq<Op>, cond: Label, step: Label, end: Label): seq<Op> {
    i + ([StackCode.Def(cond)] + (r + ([TestAcc, Branch(end, true)] + (b + ([StackCode.Def(step)] + (g
      + [Jump(cond), StackCode.Def(end)]))))))
  }

  lemma ForDetailed(st: Ir.Stmt, slots: E.SlotMap, k: nat, n: nat, lo: E.Loop, ret: Label, i: E.EmittedStmt,
                    r: E.Emitted, b: E.EmittedStmt, g: E.EmittedStmt)
    requires st.For? && i == E.EmitStmt(st.init, slots, k, n + 3, lo, ret)
    requires r == E.EmitValue(st.cond, i.slots, i.next)
    requires var d := k + E.Count(st.init);
      && b == E.EmitStmts(st.body, i.slots, d, r.next, E.InLoop(Numbered(M.ForIncrement, n + 1),
                                                                Numbered(M.ForEnd, n + 2)), ret)
      && g == E.EmitStmt(st.step, i.slots, d + E.CountAll(st.body), b.next, lo, ret)
    ensures var f := E.EmitFor(st, slots, k, n, lo, ret);
      && f.next == g.next
      && f.code == DetailedLoop(i.code, r.code, b.code, g.code, Numbered(M.ForCondition, n),
                                Numbered(M.ForIncrement, n + 1), Numbered(M.ForEnd, n + 2))
  {
    hide E.EmitValue, E.EmitStmts, E.EmitStmt, E.CountAll, E.Count;
  }

  lemma ForStack(st: Stmt, n: nat, lo: Loop, ret: Label, i: Emitted, r: Emitted, b: Emitted, g: Emitted)
    requires st.For? && i == EmitStmt(I386, st.init, n + 3, lo, ret) && r == EmitValue(I386, st.cond, i.next)
    requires b == EmitBody(I386, st.body, r.next, StackCode.InLoop(Numbered(M.ForIncrement, n + 1),
                                                                   Numbered(M.ForEnd, n + 2)), ret)
    requires g == EmitStmt(I386, st.step, b.next, lo, ret)
    ensures EmitFor(I386, st, n, lo, ret)
         == Emitted(StackLoop(i.code, r.code, b.code, g.code, Numbered(M.ForCondition, n),
                              Numbered(M.ForIncrement, n + 1), Numbered(M.ForEnd, n + 2)), g.next)
  {
    hide EmitValue, EmitBody, EmitStmt;
  }

  lemma ForAlike(i: seq<M.Instr>, r: seq<M.Instr>, b: seq<M.Instr>, g: seq<M.Instr>, i': seq<Op>, r': seq<Op>,
                 b': seq<Op>, g': seq<Op>, cond: Label, step: Label, end: Label)
    requires Alike(i, i') && Alike(r, r') && Alike(b, b') && Alike(g, g')
    ensures Alike(DetailedLoop(i, r, b, g, cond, step, end), StackLoop(i', r', b', g', cond, step, end))
  {
    hide Alike;
    PairAlike(M.CmpAl, M.Jcc(M.E, end), TestAcc, Branch(end, true));
    PairAlike(M.Jmp(cond), M.Def(end), Jump(cond), StackCode.Def(end));
    Congruence();
  }

  lemma MatchSame(st: Ir.Stmt, slots: E.SlotMap, k: nat, n: nat, lo: E.Loop, ret: Label)
    requires st.Match? && Branches.LoopsOk(st, lo.InLoop?)
    ensures var r := E.EmitMatch(st, slots, k, n, lo, ret);
      Same(r.code, r.next, EmitMatch(I386, ShapeOfStmt(st), n, LoopOf(lo), ret))
    decreases st, 2
  {
    hide Alike, E.EmitValue, EmitChunksUp, E.EmitArms, EmitArms, E.Dispatch, Dispatch, E.Fallback, Fallback;
    hide Branches.ArmsLoopsOk;
    var end, first := Numbered(M.MatchEnd, n), n + 1 + |st.arms|;
    var r := E.EmitValue(st.value, slots, first);
    var store := M.StoreSlot(E.NextSlot(k));
    var b := E.EmitArms(st.arms, slots, k + 1, n + 1, r.next, end, lo, ret);
    var r' := EmitChunksUp(I386, ShapeOf(st.value), 0, 1, first);
    var b' := EmitArms(I386, ShapeOfArms(st.arms), n + 1, r'.next, end, LoopOf(lo), ret);
    SlotSame(st.value, slots, first, store);
    DispatchSame(st.arms, E.NextSlot(k), n + 1);
    FallbackSame(st.arms, n + 1, end);
    ArmsSame(st.arms, slots, k + 1, n + 1, r.next, end, lo, ret);
    MatchAlike(r.code, store, E.Dispatch(st.arms, E.NextSlot(k), n + 1), b.code, r'.code,
               Dispatch(ShapeOfArms(st.arms), n + 1), b'.code, E.Fallback(st.arms, n + 1, end), end);
  }

  lemma MatchAlike(r: seq<M.Instr>, store: M.Instr, d: seq<M.Instr>, b: seq<M.Instr>, r': seq<Op>, d': seq<Op>,
                   b': seq<Op>, other: Label, end: Label)
    requires Alike(r + [store], r') && Alike(d, d') && Alike(b, b')
    ensures Alike(r + ([store] + ((d + [M.Jmp(other)]) + (b + [M.Def(end)]))),
                  r' + (d' + ([Jump(other)] + (b' + [StackCode.Def(end)]))))
  {
    hide Alike;
    Congruence();
    var tail := b + [M.Def(end)];
    assert r + ([store] + ((d + [M.Jmp(other)]) + tail)) == (r + [store]) + (d + ([M.Jmp(other)] + tail));
  }

  lemma {:induction false} DispatchSame(arms: seq<Ir.Arm>, slot: int, label0: nat)
    ensures Alike(E.Dispatch(arms, slot, label0), Dispatch(ShapeOfArms(arms), label0))
    decreases |arms|
  {
    hide Alike, E.DispatchArm, DispatchArm;
    Congruence();
    if arms != [] {
      TestsSame(arms[0].patterns, slot, ArmLabel(label0));
      DispatchSame(arms[1..], slot, label0 + 1);
    }
  }

  lemma {:induction false} TestsSame(patterns: seq<Ir.Pattern>, slot: int, arm: Label)
    ensures Alike(E.DispatchArm(patterns, slot, arm), DispatchArm(ShapeOfPatterns(patterns), arm))
    decreases |patterns|
  {
    hide Alike, E.PatternImmediate;
    Congruence();
    if patterns != [] {
      assert ShapeOfPatterns(patterns)[1..] == ShapeOfPatterns(patterns[1..]);
      PairAlike(M.CmpSlot(E.PatternImmediate(patterns[0]), slot), M.Jcc(M.E, arm), Plain, Branch(arm, true));
      TestsSame(patterns[1..], slot, arm);
    }
  }

  lemma {:induction false} FallbackSame(arms: seq<Ir.Arm>, label0: nat, end: Label)
    ensures E.Fallback(arms, label0, end) == Fallback(ShapeOfArms(arms), label0, end)
    decreases |arms|
  {
    if arms != [] {
      var ps, qs := arms[0].patterns, ShapeOfPatterns(arms[0].patterns);
      assert Ir.Default in ps <==> StackCode.Default in qs by {
        if Ir.Default in ps {
          var i :| 0 <= i < |ps| && ps[i] == Ir.Default;
          assert qs[i] == StackCode.Default;
        }
      }
      FallbackSame(arms[1..], label0 + 1, if Ir.Default in ps then ArmLabel(label0) else end);
    }
  }

  lemma ArmsSame(arms: seq<Ir.Arm>, slots: E.SlotMap, k: nat, label0: nat, n: nat, end: Label, lo: E.Loop, ret: Label)
    requires Branches.ArmsLoopsOk(arms, lo.InLoop?)
    ensures var r := E.EmitArms(arms, slots, k, label0, n, end, lo, ret);
      Same(r.code, r.next, EmitArms(I386, ShapeOfArms(arms), label0, n, end, LoopOf(lo), ret))
    decreases arms, 0
  {
    hide Alike, E.EmitStmts, EmitBody, E.CountAll, Branches.AllLoopsOk;
    if arms == [] {
      Congruence();
    } else {
      var a := E.EmitStmts(arms[0].body, slots, k, n, lo, ret);
      var b := E.EmitArms(arms[1..], slots, k + E.CountAll(arms[0].body), label0 + 1, a.next, end, lo, ret);
      var a' := EmitBody(I386, ShapeOfBody(arms[0].body), n, LoopOf(lo), ret);
      var b' := EmitArms(I386, ShapeOfArms(arms[1..]), label0 + 1, a'.next, end, LoopOf(lo), ret);
      BodySame(arms[0].body, slots, k, n, lo, ret);
      ArmsSame(arms[1..], slots, k + E.CountAll(arms[0].body), label0 + 1, a.next, end, lo, ret);
      ArmAlike(ArmLabel(label0), a.code, b.code, a'.code, b'.code, end);
    }
  }

  lemma ArmAlike(arm: Label, a: seq<M.Instr>, b: seq<M.Instr>, a': seq<Op>, b': seq<Op>, end: Label)
    requires Alike(a, a') && Alike(b, b')
    ensures Alike([M.Def(arm)] + (a + ([M.Jmp(end)] + b)), [StackCode.Def(arm), Plain] + (a' + ([Jump(end)] + b')))
  {
    hide Alike;
    Congruence();
    PlainBehind([M.Def(arm)], [StackCode.Def(arm)]);
    assert [StackCode.Def(arm), Plain] == [StackCode.Def(arm)] + [Plain];
  }

  lemma BodySame(body: seq<Ir.Stmt>, slots: E.SlotMap, k: nat, n: nat, lo: E.Loop, ret: Label)
    requires Branches.AllLoopsOk(body, lo.InLoop?)
    ensures var r := E.EmitStmts(body, slots, k, n, lo, ret);
      Same(r.code, r.next, EmitBody(I386, ShapeOfBody(body), n, LoopOf(lo), ret))
    decreases body, 0
  {
    hide Alike, E.EmitStmt, EmitStmt, E.Count, Branches.LoopsOk;
    Congruence();
    if body != [] {
      var a := E.EmitStmt(body[0], slots, k, n, lo, ret);
      StmtSame(body[0], slots, k, n, lo, ret);
      BodySame(body[1..], a.slots, k + E.Count(body[0]), a.next, lo, ret);
    }
  }

  // ---- modules ----

  lemma FunctionSame(f: Ir.Function, n: nat)
    requires Branches.AllLoopsOk(f.body, false)
    ensures var r := E.EmitFunction(f, n); Same(r.code, r.next, EmitFunction(I386, ShapeOfFunction(f), n))
  {
    hide Alike, E.EmitStmts, EmitBody, E.CountAll, E.ParamSlots, Branches.AllLoopsOk;
    BodySame(f.body, E.ParamSlots(f.params), 0, n, E.NoLoop, M.ReturnOf(f.name));
    EntryAlike(M.FunctionOf(f.name), E.CountAll(f.body));
    ExitAlike(M.ReturnOf(f.name));
    Congruence();
  }

  lemma EntryAlike(entry: Label, k: nat)
    ensures Alike([M.Def(entry), M.PushEbp, M.MovEspEbp] + (if k > 0 then [M.SubEsp(4 * k)] else []),
                  [StackCode.Def(entry), SaveFrame]
                  + ((if AlignedBytes(I386, k) > 0 then [LowerSp(AlignedBytes(I386, k))] else []) + [Plain]))
  {
    hide Alike;
    FrameAlike(entry);
    var a, b := if k > 0 then [M.SubEsp(4 * k)] else [], if 4 * k > 0 then [LowerSp(4 * k)] else [];
    assert Alike(a, b) by {
      if k > 0 { AlikeOne(M.SubEsp(4 * k), LowerSp(4 * k)); } else { NothingLeft([]); }
    }
    PlainBehind(a, b);
    AlikeCat([M.Def(entry), M.PushEbp, M.MovEspEbp], [StackCode.Def(entry), SaveFrame], a, b + [Plain]);
  }

  lemma FrameAlike(entry: Label)
    ensures Alike([M.Def(entry), M.PushEbp, M.MovEspEbp], [StackCode.Def(entry), SaveFrame])
  {
    hide Alike;
    AlikeOne(M.Def(entry), StackCode.Def(entry));
    AlikeOne(M.MovEspEbp, SaveFrame);
    NothingLeft([M.PushEbp]);
    AlikeCat([M.PushEbp], [], [M.MovEspEbp], [SaveFrame]);
    assert [] + [SaveFrame] == [SaveFrame];
    AlikeCat([M.Def(entry)], [StackCode.Def(entry)], [M.PushEbp] + [M.MovEspEbp], [SaveFrame]);
    assert [M.Def(entry), M.PushEbp, M.MovEspEbp] == [M.Def(entry)] + ([M.PushEbp] + [M.MovEspEbp]);
    assert [StackCode.Def(entry), SaveFrame] == [StackCode.Def(entry)] + [SaveFrame];
  }

  lemma ExitAlike(ret: Label)
    ensures Alike([M.Def(ret), M.LeaveFrame, M.Ret], [StackCode.Def(ret), Leave])
  {
    hide Alike;
    AlikeOne(M.Def(ret), StackCode.Def(ret));
    AlikeOne(M.Ret, Leave);
    NothingLeft([M.LeaveFrame]);
    AlikeCat([M.LeaveFrame], [], [M.Ret], [Leave]);
    assert [] + [Leave] == [Leave];
    AlikeCat([M.Def(ret)], [StackCode.Def(ret)], [M.LeaveFrame] + [M.Ret], [Leave]);
    assert [M.Def(ret), M.LeaveFrame, M.Ret] == [M.Def(ret)] + ([M.LeaveFrame] + [M.Ret]);
    assert [StackCode.Def(ret), Leave] == [StackCode.Def(ret)] + [Leave];
  }

  /** Forgetting the operands in the code of a module leaves the stack code of its tree,
      labels, branches and all, and the counters agree. */
  lemma {:induction false} ModuleSame(fs: seq<Ir.Function>, n: nat)
    requires forall i :: 0 <= i < |fs| ==> Branches.AllLoopsOk(fs[i].body, false)
    ensures var r := E.EmitFunctions(fs, n); Same(r.code, r.next, EmitFunctions(I386, ShapeOfFunctions(fs), n))
    decreases |fs|
  {
    hide Alike, E.EmitFunction, EmitFunction, Branches.AllLoopsOk, ShapeOfFunction;
    Congruence();
    if fs != [] {
      FunctionSame(fs[0], n);
      ModuleSame(fs[1..], E.EmitFunction(fs[0], n).next);
    }
  }
}
