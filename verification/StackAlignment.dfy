/** Which calls meet a stack that is aligned to 16 bytes on x86_64, read off the source
    tree: every push around a call moves the stack by 8. */
module StackAlignment {
  import opened Frames
  import opened Calls
  import opened StackCode
  import opened StackLevel
  import opened StackProof
  import opened StackModule
  import opened StackStatements
  import opened StackMachine
  import I386

  type Stmt = StackCode.Stmt
  type Arm = StackCode.Arm
  type State = StackMachine.State

  // ---- on the source tree ----

  /** All calls in the value meet an aligned stack if the value starts on one that is
      aligned, or on one that is not. */
  predicate ValueMeets(v: Value, even: bool)
    decreases v, 4
  {
    match v
    case Wrap(_, a) => ValueMeets(a, even)
    case Binary(_, a, b) => ValueMeets(a, even) && ValueMeets(b, !even)
    case Logical(_, _, a, b) => ValueMeets(a, even) && ValueMeets(b, even)
    case Call(_, _, args) =>
      && even && ArgumentsMeet(args, |args|, false, StackChunks(args) % 2 == 0)
      && ArgumentsMeet(args, |args|, true, true)
    case Literal(_, _, fields) => FieldsMeet(fields, 0, even)
    case FieldOf(_, offset, base) => ChunkMeets(base, offset / 8, even)
    case _ => true
  }

  predicate ChunkMeets(v: Value, c: nat, even: bool)
    decreases v, 5
  {
    if v.Literal? then FieldsMeet(v.fields, c, even) else c == 0 ==> ValueMeets(v, even)
  }

  predicate FieldsMeet(fields: seq<Field>, c: nat, even: bool)
    decreases fields, 2
  {
    fields == [] || (FieldMeets(fields[0], c, even) && FieldsMeet(fields[1..], c, even))
  }

  /** What there is of the chunk already has been pushed. */
  predicate FieldMeets(f: Field, c: nat, even: bool)
    decreases f, 0
  {
    f.offset / 8 == c ==> ValueMeets(f.value, !even)
  }

  /** The first `i` arguments that go to registers, or to the stack, from the last to the
      first. */
  predicate ArgumentsMeet(args: seq<Value>, i: nat, inRegisters: bool, even: bool)
    requires i <= |args|
    decreases args, 2, i
  {
    if i == 0 then true
    else if InRegisters(X64, ArgChunks(X64, args), i - 1) != inRegisters then
      ArgumentsMeet(args, i - 1, inRegisters, even)
    else
      var k := Chunks(X64, args[i - 1].size);
      ChunksMeetDown(args[i - 1], k, even) && ArgumentsMeet(args, i - 1, inRegisters, even == (k % 2 == 0))
  }

  predicate ChunksMeetDown(v: Value, k: nat, even: bool)
    decreases v, 6, k
  {
    k == 0 || (ChunkMeets(v, k - 1, even) && ChunksMeetDown(v, k - 1, !even))
  }

  function StackChunks(args: seq<Value>): nat {
    StackBefore(X64, ArgChunks(X64, args), |args|)
  }

  predicate ChunksMeetUp(v: Value, c: nat, k: nat)
    decreases k - c
  {
    c >= k || (ChunkMeets(v, c, true) && ChunksMeetUp(v, c + 1, k))
  }

  predicate StmtMeets(st: Stmt)
    decreases st, 1
  {
    match st
    case Let(v) => ChunksMeetUp(v, 0, Chunks(X64, v.size))
    case Assign(isLocal, v) => if isLocal then ChunksMeetUp(v, 0, Chunks(X64, v.size)) else ValueMeets(v, true)
    case Store(v, target) => ValueMeets(v, true) && ValueMeets(target, false)
    case Expr(v) => ValueMeets(v, true)
    case If(c, a, b) => ValueMeets(c, true) && BodyMeets(a) && BodyMeets(b)
    case While(c, body) => ValueMeets(c, true) && BodyMeets(body)
    case For(init, c, step, body) => StmtMeets(init) && ValueMeets(c, true) && BodyMeets(body) && StmtMeets(step)
    case Match(v, arms) => ChunksMeetUp(v, 0, Chunks(X64, v.size)) && ArmsMeet(arms)
    case Return(v) => ValueMeets(v, true)
    case _ => true
  }

  predicate ArmsMeet(arms: seq<Arm>)
    decreases arms, 0
  {
    arms == [] || (BodyMeets(arms[0].body) && ArmsMeet(arms[1..]))
  }

  predicate BodyMeets(body: seq<Stmt>)
    decreases body, 0
  {
    body == [] || (StmtMeets(body[0]) && BodyMeets(body[1..]))
  }

  // ---- in the code ----

  function After(c: seq<Op>, d: int): int {
    Depth(X64, c, d, |c|)
  }

  /** Every call in the code meets a depth that is a multiple of 16. */
  predicate Aligned(c: seq<Op>, d: int) {
    forall i :: 0 <= i < |c| && c[i].CallTo? ==> Depth(X64, c, d, i) % 16 == 0
  }

  lemma CodeCat(a: seq<Op>, b: seq<Op>, d: int)
    ensures After(a + b, d) == After(b, After(a, d))
    ensures Aligned(a + b, d) <==> Aligned(a, d) && Aligned(b, After(a, d))
  {
    hide Depth;
    var c, m := a + b, After(a, d);
    CatDepths(X64, a, b, d, m);
    if Aligned(c, d) {
      forall i | 0 <= i < |a| && a[i].CallTo? ensures Depth(X64, a, d, i) % 16 == 0 { assert c[i] == a[i]; }
      forall i | 0 <= i < |b| && b[i].CallTo? ensures Depth(X64, b, m, i) % 16 == 0 { assert c[|a| + i] == b[i]; }
    }
  }

  lemma OneOp(op: Op, d: int)
    ensures After([op], d) == d + Effect(X64, op) && (Aligned([op], d) <==> (op.CallTo? ==> d % 16 == 0))
  {
    assert Depth(X64, [op], d, 0) == d;
  }

  /** How both run through code. */
  lemma Runs()
    ensures forall a: seq<Op>, b: seq<Op>, d: int {:trigger After(a + b, d)} :: After(a + b, d) == After(b, After(a, d))
    ensures forall a: seq<Op>, b: seq<Op>, d: int {:trigger Aligned(a + b, d)} ::
      Aligned(a + b, d) <==> Aligned(a, d) && Aligned(b, After(a, d))
    ensures forall op: Op, d: int {:trigger After([op], d)} :: After([op], d) == d + Effect(X64, op)
    ensures forall op: Op, d: int {:trigger Aligned([op], d)} ::
      Aligned([op], d) <==> (op.CallTo? ==> d % 16 == 0)
    ensures forall d: int :: After([], d) == d && Aligned([], d)
  {
    forall a: seq<Op>, b: seq<Op>, d: int
      ensures After(a + b, d) == After(b, After(a, d))
      ensures Aligned(a + b, d) <==> Aligned(a, d) && Aligned(b, After(a, d))
    {
      CodeCat(a, b, d);
    }
    forall op: Op, d: int
      ensures After([op], d) == d + Effect(X64, op) && (Aligned([op], d) <==> (op.CallTo? ==> d % 16 == 0))
    {
      OneOp(op, d);
    }
  }

  /** The code ends as deep as it began, and its calls are aligned just if `ok`. */
  predicate Met(c: seq<Op>, d: int, ok: bool) {
    After(c, d) == d && (Aligned(c, d) <==> ok)
  }

  predicate Even(d: int) {
    d % 16 == 0
  }

  lemma Pushed(d: int, k: nat)
    requires d % 8 == 0
    ensures Even(d + 8) == !Even(d) && (d + 8 * k) % 8 == 0 && (Even(d + 8 * k) <==> (Even(d) == (k % 2 == 0)))
  {
    hide Even;
    var a := d / 8;
    assert d == 8 * a && d + 8 == 8 * (a + 1) && d + 8 * k == 8 * (a + k);
    Eights(a);
    Eights(a + 1);
    Eights(a + k);
  }

  lemma Eights(a: int)
    ensures 8 * a % 8 == 0 && (Even(8 * a) <==> a % 2 == 0)
  {
    var h := a / 2;
    assert 8 * a == 16 * h + 8 * (a % 2);
  }

  // ---- values ----

  lemma {:induction false} ValueMet(v: Value, d: int, n: nat)
    requires d % 8 == 0
    ensures Met(EmitValue(X64, v, n).code, d, ValueMeets(v, Even(d)))
    decreases v, 4
  {
    match v
    case Call(_, _, _) => CallMet(v, d, n);
    case Literal(_, _, _) => LiteralMet(v, 0, d, n);
    case Binary(_, _, _) => OperandsMet(v, d, n);
    case Logical(_, _, _, _) => OperandsMet(v, d, n);
    case _ => SimpleMet(v, d, n);
  }

  lemma SimpleMet(v: Value, d: int, n: nat)
    requires v.StringLiteral? || v.Leaf? || v.Increment? || v.Wrap? || v.FieldOf?
    requires d % 8 == 0
    ensures Met(EmitValue(X64, v, n).code, d, ValueMeets(v, Even(d)))
    decreases v, 3
  {
    hide After, Aligned, EmitChunk;
    Runs();
    match v
    case Wrap(_, a) => ValueMet(a, d, n);
    case FieldOf(_, offset, base) => ChunkMet(base, offset / 8, d, n);
    case _ =>
  }

  lemma OperandsMet(v: Value, d: int, n: nat)
    requires (v.Binary? || v.Logical?) && d % 8 == 0
    ensures Met(EmitValue(X64, v, n).code, d, ValueMeets(v, Even(d)))
    decreases v, 3
  {
    hide After, Aligned;
    var first := if v.Binary? then n else n + 2;
    var r := EmitValue(X64, v.lhs, first);
    ValueMet(v.lhs, d, first);
    if v.Binary? {
      Pushed(d, 1);
      ValueMet(v.rhs, d + 8, r.next);
      BinaryRuns(r.code, EmitValue(X64, v.rhs, r.next).code, d);
    } else {
      ValueMet(v.rhs, d, r.next);
      var short, end := Numbered(ShortPrefix(v.isAnd), n), Numbered(I386.LogicEnd, n + 1);
      LogicRuns(v.isAnd, r.code, EmitValue(X64, v.rhs, r.next).code, short, end, d);
    }
  }

  lemma BinaryRuns(a: seq<Op>, b: seq<Op>, d: int)
    requires After(a, d) == d && After(b, d + 8) == d + 8
    ensures Met(a + (PushAcc(X64) + (b + ([Plain] + (PopTo(X64) + [Plain])))), d, Aligned(a, d) && Aligned(b, d + 8))
  {
    hide After, Aligned;
    Runs();
  }

  lemma TestRuns(l: Label, equal: bool, d: int)
    ensures After([TestAcc, Branch(l, equal)], d) == d && Aligned([TestAcc, Branch(l, equal)], d)
  {
    hide After, Aligned;
    Runs();
    assert [TestAcc, Branch(l, equal)] == [TestAcc] + [Branch(l, equal)];
  }

  lemma LogicRuns(isAnd: bool, a: seq<Op>, b: seq<Op>, short: Label, end: Label, d: int)
    requires After(a, d) == d && After(b, d) == d
    ensures var test := [TestAcc, Branch(short, isAnd)];
      Met(a + (test + (b + (test + [SetAcc(isAnd), Jump(end), Def(short), SetAcc(!isAnd), Def(end)]))), d,
          Aligned(a, d) && Aligned(b, d))
  {
    hide After, Aligned;
    TestRuns(short, isAnd, d);
    LogicEndRuns(isAnd, short, end, d);
    Runs();
  }

  lemma LogicEndRuns(isAnd: bool, short: Label, end: Label, d: int)
    ensures var c := [SetAcc(isAnd), Jump(end), Def(short), SetAcc(!isAnd), Def(end)]; After(c, d) == d && Aligned(c, d)
  {
    hide After, Aligned;
    Runs();
    assert [SetAcc(isAnd), Jump(end), Def(short), SetAcc(!isAnd), Def(end)]
        == [SetAcc(isAnd)] + ([Jump(end)] + ([Def(short)] + ([SetAcc(!isAnd)] + [Def(end)])));
  }

  lemma ChunkMet(v: Value, c: nat, d: int, n: nat)
    requires d % 8 == 0
    ensures Met(EmitChunk(X64, v, c, n).code, d, ChunkMeets(v, c, Even(d)))
    decreases v, 5
  {
    hide After, Aligned, EmitValue, EmitLiteralChunk;
    Runs();
    if v.Literal? { LiteralMet(v, c, d, n); } else if c == 0 { ValueMet(v, d, n); }
  }

  lemma LiteralMet(v: Value, c: nat, d: int, n: nat)
    requires v.Literal? && d % 8 == 0
    ensures Met(EmitLiteralChunk(X64, v, c, n).code, d, FieldsMeet(v.fields, c, Even(d)))
    decreases v, 3
  {
    hide After, Aligned, EmitFields;
    FieldsMet(v.fields, c, d, n);
    LiteralRuns(v.isEnum && c == 0, EmitFields(X64, v.fields, c, n).code, d);
  }

  lemma LiteralRuns(tagged: bool, a: seq<Op>, d: int)
    requires After(a, d) == d
    ensures var tag := if tagged then PushAcc(X64) + ([Plain] + (PopTo(X64) + [Plain])) else [];
      Met([Plain] + (tag + a), d, Aligned(a, d))
  {
    hide After, Aligned;
    Runs();
  }

  lemma FieldsMet(fields: seq<Field>, c: nat, d: int, n: nat)
    requires d % 8 == 0
    ensures Met(EmitFields(X64, fields, c, n).code, d, FieldsMeet(fields, c, Even(d)))
    decreases fields, 2
  {
    hide After, Aligned, EmitField;
    Runs();
    if fields != [] {
      FieldMet(fields[0], c, d, n);
      FieldsMet(fields[1..], c, d, EmitField(X64, fields[0], c, n).next);
    }
  }

  lemma FieldMet(f: Field, c: nat, d: int, n: nat)
    requires d % 8 == 0
    ensures Met(EmitField(X64, f, c, n).code, d, FieldMeets(f, c, Even(d)))
    decreases f, 0
  {
    hide After, Aligned, EmitValue;
    Runs();
    if f.offset / 8 == c {
      Pushed(d, 1);
      ValueMet(f.value, d + 8, n);
    }
  }

  lemma CallMet(v: Value, d: int, n: nat)
    requires v.Call? && d % 8 == 0
    ensures Met(EmitCallOf(X64, v, n).code, d, ValueMeets(v, Even(d)))
    decreases v, 3
  {
    hide After, Aligned, EmitPushed, PopsInto, RegistersBefore, StackBefore;
    var ns, k, stack := ArgChunks(X64, v.args), |v.args|, StackChunks(v.args);
    var regs := RegistersBefore(X64, ns, k);
    var pad := Padding(X64, ns);
    var a := EmitPushed(X64, v.args, k, false, n);
    var b := EmitPushed(X64, v.args, k, true, a.next);
    PaddedEven(d, pad, stack);
    ArgumentsMet(v.args, k, false, d + pad, n);
    ArgumentsMet(v.args, k, true, d + pad + 8 * stack, a.next);
    CallRuns(pad, a.code, b.code, regs, stack, CallTo(v.callee, 8 * stack), d);
  }

  /** The padding makes the stack arguments a multiple of 16. */
  lemma PaddedEven(d: int, pad: nat, stack: nat)
    requires d % 8 == 0 && pad == if stack % 2 != 0 then 8 else 0
    ensures (d + pad) % 8 == 0 && (Even(d + pad) <==> (Even(d) == (stack % 2 == 0)))
    ensures (d + pad + 8 * stack) % 8 == 0 && (Even(d + pad + 8 * stack) <==> Even(d))
  {
    Pushed(d, 1);
    Pushed(d + pad, stack);
  }

  lemma CallRuns(pad: nat, a: seq<Op>, b: seq<Op>, regs: nat, stack: nat, call: Op, d: int)
    requires call.CallTo? && d % 8 == 0 && pad == if stack % 2 != 0 then 8 else 0
    requires After(a, d + pad) == d + pad + 8 * stack
    requires After(b, d + pad + 8 * stack) == d + pad + 8 * stack + 8 * regs
    ensures var pads := if pad > 0 then [LowerSp(pad)] else [];
      var k := 8 * stack + pad;
      var clean := if k > 0 then [RaiseSp(k)] else [];
      Met(pads + (a + (b + (PopsInto(X64, regs) + ([call] + clean)))), d,
          Even(d) && Aligned(a, d + pad) && Aligned(b, d + pad + 8 * stack))
  {
    hide After, Aligned, PopsInto;
    var e := d + pad + 8 * stack;
    PaddedEven(d, pad, stack);
    PopsRun(regs, e);
    Runs();
    var k := 8 * stack + pad;
    var clean := if k > 0 then [RaiseSp(k)] else [];
    var tail := PopsInto(X64, regs) + ([call] + clean);
    assert After(tail, e + 8 * regs) == d && (Aligned(tail, e + 8 * regs) <==> Even(d));
    var pads := if pad > 0 then [LowerSp(pad)] else [];
    assert After(pads, d) == d + pad && Aligned(pads, d);
  }

  lemma {:induction false} PopsRun(k: nat, d: int)
    ensures After(PopsInto(X64, k), d + 8 * k) == d && Aligned(PopsInto(X64, k), d + 8 * k)
  {
    hide After, Aligned;
    Runs();
    if k > 0 { PopsRun(k - 1, d); }
  }

  lemma ArgumentsMet(args: seq<Value>, i: nat, inRegisters: bool, d: int, n: nat)
    requires i <= |args| && d % 8 == 0
    ensures var c := EmitPushed(X64, args, i, inRegisters, n).code;
      && After(c, d) == d + 8 * Count(X64, ArgChunks(X64, args), i, inRegisters)
      && (Aligned(c, d) <==> ArgumentsMeet(args, i, inRegisters, Even(d)))
    decreases args, 2, i
  {
    hide After, Aligned, EmitChunksDown, Chunks, InRegisters, Count;
    var ns := ArgChunks(X64, args);
    Runs();
    if i == 0 {
      NothingCounted(X64, ns, inRegisters);
    } else {
      CountMore(X64, ns, i - 1, inRegisters);
      if InRegisters(X64, ns, i - 1) != inRegisters {
        ArgumentsMet(args, i - 1, inRegisters, d, n);
      } else {
        var k := Chunks(X64, args[i - 1].size);
        Pushed(d, k);
        ChunksDownMet(args[i - 1], k, d, n);
        ArgumentsMet(args, i - 1, inRegisters, d + 8 * k, EmitChunksDown(X64, args[i - 1], k, n).next);
      }
    }
  }

  lemma ChunksDownMet(v: Value, k: nat, d: int, n: nat)
    requires d % 8 == 0
    ensures var c := EmitChunksDown(X64, v, k, n).code;
      After(c, d) == d + 8 * k && (Aligned(c, d) <==> ChunksMeetDown(v, k, Even(d)))
    decreases v, 6, k
  {
    hide After, Aligned, EmitChunk;
    Runs();
    if k > 0 {
      Pushed(d, 1);
      ChunkMet(v, k - 1, d, n);
      ChunksDownMet(v, k - 1, d + 8, EmitChunk(X64, v, k - 1, n).next);
    }
  }

  // ---- statements ----

  lemma {:induction false} ChunksUpMet(v: Value, c: nat, k: nat, d: int, n: nat)
    requires Even(d)
    ensures Met(EmitChunksUp(X64, v, c, k, n).code, d, ChunksMeetUp(v, c, k))
    decreases k - c
  {
    hide After, Aligned, EmitChunk;
    Runs();
    if c < k {
      ChunkMet(v, c, d, n);
      ChunksUpMet(v, c + 1, k, d, EmitChunk(X64, v, c, n).next);
    }
  }

  lemma {:induction false} StmtMet(st: Stmt, d: int, n: nat, lo: Loop, ret: Label)
    requires Even(d)
    ensures Met(EmitStmt(X64, st, n, lo, ret).code, d, StmtMeets(st))
    decreases st, 2
  {
    hide After, Aligned, EmitValue, EmitChunksUp, Chunks, EmitIf, EmitWhile, EmitFor, EmitMatch;
    match st
    case Let(v) => ChunksUpMet(v, 0, Chunks(X64, v.size), d, n);
    case Assign(isLocal, v) =>
      ValueMet(v, d, n);
      ChunksUpMet(v, 0, Chunks(X64, v.size), d, n);
      Runs();
    case Store(v, target) => StoreMet(v, target, d, n);
    case Expr(v) => ValueMet(v, d, n);
    case If(_, _, _) => IfMet(st, d, n, lo, ret);
    case While(_, _) => WhileMet(st, d, n, ret);
    case For(_, _, _, _) => ForMet(st, d, n, lo, ret);
    case Match(_, _) => MatchMet(st, d, n, lo, ret);
    case Break => Runs();
    case Continue => Runs();
    case Return(v) =>
      ValueMet(v, d, n);
      Runs();
  }

  lemma StoreMet(v: Value, target: Value, d: int, n: nat)
    requires Even(d)
    ensures var r := EmitValue(X64, v, n);
      var q := EmitValue(X64, target, r.next);
      Met(r.code + (PushAcc(X64) + (q.code + (PopTo(X64) + [Plain]))), d,
          ValueMeets(v, true) && ValueMeets(target, false))
  {
    hide After, Aligned, EmitValue;
    Pushed(d, 1);
    var r := EmitValue(X64, v, n);
    ValueMet(v, d, n);
    ValueMet(target, d + 8, r.next);
    StoreRuns(r.code, EmitValue(X64, target, r.next).code, d);
  }

  lemma StoreRuns(a: seq<Op>, b: seq<Op>, d: int)
    requires After(a, d) == d && After(b, d + 8) == d + 8
    ensures Met(a + (PushAcc(X64) + (b + (PopTo(X64) + [Plain]))), d, Aligned(a, d) && Aligned(b, d + 8))
  {
    hide After, Aligned;
    Runs();
  }

  lemma TwoRun(a: Op, b: Op, d: int)
    requires !a.CallTo? && !b.CallTo? && Effect(X64, a) == 0 && Effect(X64, b) == 0
    ensures After([a, b], d) == d && Aligned([a, b], d)
  {
    hide After, Aligned;
    Runs();
    assert [a, b] == [a] + [b];
  }

  lemma IfMet(st: Stmt, d: int, n: nat, lo: Loop, ret: Label)
    requires st.If? && Even(d)
    ensures Met(EmitIf(X64, st, n, lo, ret).code, d, StmtMeets(st))
    decreases st, 1
  {
    hide After, Aligned, EmitValue, EmitBody;
    var other, end := Numbered(I386.Else, n), Numbered(I386.EndIf, n + 1);
    var r := EmitValue(X64, st.cond, n + 2);
    var a := EmitBody(X64, st.thenBody, r.next, lo, ret);
    var b := EmitBody(X64, st.elseBody, a.next, lo, ret);
    ValueMet(st.cond, d, n + 2);
    BodyMet(st.thenBody, d, r.next, lo, ret);
    BodyMet(st.elseBody, d, a.next, lo, ret);
    IfRuns(r.code, a.code, b.code, other, end, d);
  }

  lemma IfRuns(r: seq<Op>, a: seq<Op>, b: seq<Op>, other: Label, end: Label, d: int)
    requires After(r, d) == d && After(a, d) == d && After(b, d) == d
    ensures Met(r + ([TestAcc, Branch(other, true)] + (a + ([Jump(end), Def(other)] + (b + [Def(end)])))), d,
                Aligned(r, d) && Aligned(a, d) && Aligned(b, d))
  {
    hide After, Aligned;
    TwoRun(TestAcc, Branch(other, true), d);
    TwoRun(Jump(end), Def(other), d);
    Runs();
  }

  lemma WhileMet(st: Stmt, d: int, n: nat, ret: Label)
    requires st.While? && Even(d)
    ensures Met(EmitWhile(X64, st, n, ret).code, d, StmtMeets(st))
    decreases st, 1
  {
    hide After, Aligned, EmitValue, EmitBody;
    var start, end := Numbered(I386.WhileStart, n), Numbered(I386.WhileEnd, n + 1);
    var r := EmitValue(X64, st.cond, n + 2);
    ValueMet(st.cond, d, n + 2);
    BodyMet(st.body, d, r.next, InLoop(start, end), ret);
    WhileRuns(r.code, EmitBody(X64, st.body, r.next, InLoop(start, end), ret).code, start, end, d);
  }

  lemma WhileRuns(r: seq<Op>, b: seq<Op>, start: Label, end: Label, d: int)
    requires After(r, d) == d && After(b, d) == d
    ensures Met([Def(start)] + (r + ([TestAcc, Branch(end, true)] + (b + [Jump(start), Def(end)]))), d,
                Aligned(r, d) && Aligned(b, d))
  {
    hide After, Aligned;
    TwoRun(TestAcc, Branch(end, true), d);
    TwoRun(Jump(start), Def(end), d);
    Runs();
  }

  lemma ForMet(st: Stmt, d: int, n: nat, lo: Loop, ret: Label)
    requires st.For? && Even(d)
    ensures Met(EmitFor(X64, st, n, lo, ret).code, d, StmtMeets(st))
    decreases st, 1
  {
    hide After, Aligned, EmitValue, EmitBody, EmitStmt;
    var cond, step := Numbered(I386.ForCondition, n), Numbered(I386.ForIncrement, n + 1);
    var end := Numbered(I386.ForEnd, n + 2);
    var i := EmitStmt(X64, st.init, n + 3, lo, ret);
    var r := EmitValue(X64, st.cond, i.next);
    var b := EmitBody(X64, st.body, r.next, InLoop(step, end), ret);
    StmtMet(st.init, d, n + 3, lo, ret);
    ValueMet(st.cond, d, i.next);
    BodyMet(st.body, d, r.next, InLoop(step, end), ret);
    StmtMet(st.step, d, b.next, lo, ret);
    ForRuns(i.code, r.code, b.code, EmitStmt(X64, st.step, b.next, lo, ret).code, cond, step, end, d);
  }

  lemma ForRuns(i: seq<Op>, r: seq<Op>, b: seq<Op>, g: seq<Op>, cond: Label, step: Label, end: Label, d: int)
    requires After(i, d) == d && After(r, d) == d && After(b, d) == d && After(g, d) == d
    ensures Met(i + ([Def(cond)] + (r + ([TestAcc, Branch(end, true)]
                  + (b + ([Def(step)] + (g + [Jump(cond), Def(end)])))))),
                d, Aligned(i, d) && Aligned(r, d) && Aligned(b, d) && Aligned(g, d))
  {
    hide After, Aligned;
    TwoRun(TestAcc, Branch(end, true), d);
    TwoRun(Jump(cond), Def(end), d);
    Runs();
  }

  lemma MatchMet(st: Stmt, d: int, n: nat, lo: Loop, ret: Label)
    requires st.Match? && Even(d)
    ensures Met(EmitMatch(X64, st, n, lo, ret).code, d, StmtMeets(st))
    decreases st, 1
  {
    hide After, Aligned, EmitChunksUp, Chunks, EmitArms, Dispatch, Fallback;
    var end, k := Numbered(I386.MatchEnd, n), Chunks(X64, st.value.size);
    var r := EmitChunksUp(X64, st.value, 0, k, n + 1 + |st.arms|);
    ChunksUpMet(st.value, 0, k, d, n + 1 + |st.arms|);
    DispatchRuns(st.arms, n + 1, d);
    ArmsMet(st.arms, n + 1, r.next, d, end, lo, ret);
    Runs();
  }

  lemma {:induction false} DispatchRuns(arms: seq<Arm>, label0: nat, d: int)
    ensures After(Dispatch(arms, label0), d) == d && Aligned(Dispatch(arms, label0), d)
    decreases |arms|
  {
    hide After, Aligned, DispatchArm;
    Runs();
    if arms != [] {
      TestsRun(arms[0].patterns, ArmLabel(label0), d);
      DispatchRuns(arms[1..], label0 + 1, d);
    }
  }

  lemma {:induction false} TestsRun(patterns: seq<Pattern>, arm: Label, d: int)
    ensures After(DispatchArm(patterns, arm), d) == d && Aligned(DispatchArm(patterns, arm), d)
    decreases |patterns|
  {
    hide After, Aligned;
    Runs();
    if patterns != [] {
      TwoRun(Plain, Branch(arm, true), d);
      TestsRun(patterns[1..], arm, d);
    }
  }

  lemma ArmsMet(arms: seq<Arm>, label0: nat, n: nat, d: int, end: Label, lo: Loop, ret: Label)
    requires Even(d)
    ensures Met(EmitArms(X64, arms, label0, n, end, lo, ret).code, d, ArmsMeet(arms))
    decreases arms, 0
  {
    hide After, Aligned, EmitBody;
    Runs();
    if arms != [] {
      BodyMet(arms[0].body, d, n, lo, ret);
      TwoRun(Def(ArmLabel(label0)), Plain, d);
      ArmsMet(arms[1..], label0 + 1, EmitBody(X64, arms[0].body, n, lo, ret).next, d, end, lo, ret);
    }
  }

  lemma BodyMet(body: seq<Stmt>, d: int, n: nat, lo: Loop, ret: Label)
    requires Even(d)
    ensures Met(EmitBody(X64, body, n, lo, ret).code, d, BodyMeets(body))
    decreases body, 0
  {
    hide After, Aligned, EmitStmt;
    Runs();
    if body != [] {
      StmtMet(body[0], d, n, lo, ret);
      BodyMet(body[1..], d, EmitStmt(X64, body[0], n, lo, ret).next, lo, ret);
    }
  }

  /** All calls in the code of a function meet an aligned stack if and only if they do on
      its source tree. */
  lemma FunctionMet(f: Function, n: nat)
    ensures Aligned(EmitFunction(X64, f, n).code, 0) <==> BodyMeets(f.body)
  {
    hide After, Aligned, EmitBody, AlignedBytes;
    var room, ret := AlignedBytes(X64, f.locals), I386.ReturnOf(f.name);
    RoomIsEven(f.locals);
    BodyMet(f.body, room, n, NoLoop, ret);
    FunctionRuns(f.name, room, EmitBody(X64, f.body, n, NoLoop, ret).code, ret);
  }

  lemma RoomIsEven(locals: nat)
    ensures Even(AlignedBytes(X64, locals))
  {
    RoundUp(8 * locals);
  }

  lemma FunctionRuns(name: string, room: nat, b: seq<Op>, ret: Label)
    requires After(b, room) == room
    ensures var lower := if room > 0 then [LowerSp(room)] else [];
      var front := [Def(I386.FunctionOf(name)), SaveFrame] + (lower + [Plain]);
      Aligned(front + (b + [Def(ret), Leave]), 0) <==> Aligned(b, room)
  {
    hide After, Aligned;
    TwoRun(Def(I386.FunctionOf(name)), SaveFrame, 0);
    TwoRun(Def(ret), Leave, room);
    Runs();
    var lower := if room > 0 then [LowerSp(room)] else [];
    assert After(lower, 0) == room && Aligned(lower, 0);
  }

  // ---- in runs ----

  lemma {:induction false} RoutineOf(fs: seq<Function>, n: nat, f: string) returns (i: nat, k: nat)
    requires f in Routines(X64, fs, n)
    ensures i < |fs| && Routines(X64, fs, n)[f].code == EmitFunction(X64, fs[i], k).code
    decreases |fs|
  {
    hide EmitFunction, Room;
    if fs[0].name == f {
      i, k := 0, n;
    } else {
      i, k := RoutineOf(fs[1..], EmitFunction(X64, fs[0], n).next, f);
      i := i + 1;
    }
  }

  /** In a module whose calls all are aligned on the source tree, every call on every path
      through a function that was called with an aligned stack meets an aligned stack. */
  lemma CallsAreAligned(fs: seq<Function>, f: string, entry: State, outer: iset<int>, events: seq<Event>)
    requires AllFunctionsOk(fs) && f in Routines(X64, fs, 0) && entry.pc == 0 && entry.sp % 16 == 0
    requires forall a :: a in outer ==> a >= entry.sp
    requires Path(X64, Routines(X64, fs, 0), Activation(Routines(X64, fs, 0)[f], entry, outer), events)
    requires forall g :: g in fs ==> BodyMeets(g.body)
    ensures var c, s := Routines(X64, fs, 0)[f].code, Last(entry, events);
      2 <= s.pc < |c| && c[s.pc].CallTo? ==> s.sp % 16 == 0
  {
    hide Path, Routines, Depth, AllFunctionsOk, BodyMeets, EmitFunction;
    ModuleIsLevel(X64, fs, f, entry, outer, events);
    var i, k := RoutineOf(fs, 0, f);
    FunctionMet(fs[i], k);
  }

  /** `1 + g()` is a value in which one is not, and `g()` alone is none. */
  lemma OperandMeets()
    ensures var g := StackCode.Call(Scalar, "g", []);
      ValueMeets(g, true) && !ValueMeets(Binary(Scalar, Leaf(Scalar), g), true)
  {
    assert ArgChunks(X64, []) == [];
  }
}
