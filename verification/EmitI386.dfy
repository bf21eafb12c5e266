/** What the i386 emitter writes for each IR node, as functions of the node, the
    slot map, the number of slots already handed out and the next label number. */
module EmitI386 {
  import opened Ir
  import opened I386

  type SlotMap = map<string, int>

  function SlotOf(slots: SlotMap, name: string): int {
    if name in slots then slots[name] else 0
  }

  datatype Emitted = Emitted(code: seq<Instr>, next: nat)

  function SetCond(op: BinOp, unsigned: bool): Cond
    requires IsComparison(op)
  {
    match op
    case Eq => E
    case Ne => NE
    case Lt => if unsigned then B else L
    case Le => if unsigned then BE else LE
    case Gt => if unsigned then A else G
    case Ge => if unsigned then AE else GE
  }

  /** The instructions after both operands are in place: left in `%eax`, right
      in `%ecx`. Comparisons look at the type of the left operand, division at
      the type of the result. */
  function OpCode(op: BinOp, operandTy: Type, ty: Type): seq<Instr> {
    match op
    case Add => [AddEcx]
    case Sub => [SubEcx]
    case Mul => [MulEcx]
    case Div => if ty == U32 then [XorEdx, DivEcx] else [Cltd, IdivEcx]
    case Rem => (if ty == U32 then [XorEdx, DivEcx] else [Cltd, IdivEcx]) + [MovEdxEax]
    case _ => [CmpEcx, SetAl(SetCond(op, operandTy == U32)), ZeroExtendAl]
  }

  function IncrCode(e: Value, slots: SlotMap): seq<Instr>
    requires e.Incr?
  {
    var load := if e.isLocal then LoadSlot(SlotOf(slots, e.name)) else LoadStatic(e.name);
    var store := if e.isLocal then StoreSlot(SlotOf(slots, e.name)) else StoreStatic(e.name);
    var bump := if e.up then AddImm(1) else SubImm(1);
    if e.postfix then [load, PushEax, bump, store, PopEax] else [load, bump, store]
  }

  function EmitValue(e: Value, slots: SlotMap, n: nat): Emitted
    decreases e, 1
  {
    match e
    case IntLit(_, k) => Emitted([MovImm(k)], n)
    case BoolLit(b) => Emitted([MovImm(if b then 1 else 0)], n)
    case Local(name, _) => Emitted([LoadSlot(SlotOf(slots, name))], n)
    case Global(name, _) => Emitted([LoadStatic(name)], n)
    case Neg(a) =>
      var r := EmitValue(a, slots, n);
      Emitted(r.code + [NegEax], r.next)
    case Not(a) =>
      var r := EmitValue(a, slots, n);
      Emitted(r.code + [CmpAl, SetAl(E), ZeroExtendAl], r.next)
    case Incr(_, _, _, _, _) => Emitted(IncrCode(e, slots), n)
    case Binary(_, _, _, _) => EmitBinary(e, slots, n)
    case And(_, _) => EmitLogical(e, slots, n)
    case Or(_, _) => EmitLogical(e, slots, n)
    case Cast(a, _) => EmitValue(a, slots, n)
    case Call(_, _, _) => EmitCall(e, slots, n)
  }

  /** The left operand waits on the stack while the right one is computed. */
  function EmitBinary(e: Value, slots: SlotMap, n: nat): Emitted
    requires e.Binary?
    decreases e, 0
  {
    var r := EmitValue(e.lhs, slots, n);
    var s := EmitValue(e.rhs, slots, r.next);
    Emitted(r.code + ([PushEax] + (s.code + ([MovEaxEcx, PopEax] + OpCode(e.op, TypeOf(e.lhs), e.ty)))), s.next)
  }

  /** The caller removes the arguments again. */
  function EmitCall(e: Value, slots: SlotMap, n: nat): Emitted
    requires e.Call?
    decreases e, 0
  {
    var r := EmitArgs(e.args, slots, n);
    Emitted(r.code + ([CallTo(e.callee)] + if e.args == [] then [] else [AddEsp(4 * |e.args|)]), r.next)
  }

  /** `a && b` jumps to the false exit as soon as an operand is false, and
      `a || b` to the true exit as soon as one is true. */
  function EmitLogical(e: Value, slots: SlotMap, n: nat): Emitted
    requires e.And? || e.Or?
    decreases e, 0
  {
    var short := Numbered(if e.And? then LogicFalse else LogicTrue, n);
    var end := Numbered(LogicEnd, n + 1);
    var test := [CmpAl, Jcc(if e.And? then E else NE, short)];
    var r := EmitValue(e.lhs, slots, n + 2);
    var s := EmitValue(e.rhs, slots, r.next);
    var tail := [MovImm(if e.And? then 1 else 0), Jmp(end), Def(short), MovImm(if e.And? then 0 else 1), Def(end)];
    Emitted(r.code + (test + (s.code + (test + tail))), s.next)
  }

  /** Arguments are pushed from the last to the first. */
  function EmitArgs(args: seq<Value>, slots: SlotMap, n: nat): Emitted
    decreases args, 0
  {
    if args == [] then Emitted([], n) else
    var r := EmitArgs(args[1..], slots, n);
    var s := EmitValue(args[0], slots, r.next);
    Emitted(r.code + (s.code + [PushEax]), s.next)
  }

  /** The number of slots that a statement needs. */
  function Count(s: Stmt): nat
    decreases s, 1
  {
    match s
    case Let(_, _, _) => 1
    case If(_, a, b) => CountAll(a) + CountAll(b)
    case While(_, body) => CountAll(body)
    case For(init, _, step, body) => Count(init) + CountAll(body) + Count(step)
    case Match(_, _, arms) => 1 + CountArms(arms)
    case _ => 0
  }

  function CountAll(body: seq<Stmt>): nat
    decreases body, 0
  {
    if body == [] then 0 else Count(body[0]) + CountAll(body[1..])
  }

  function CountArms(arms: seq<Arm>): nat
    decreases arms, 0
  {
    if arms == [] then 0 else CountAll(arms[0].body) + CountArms(arms[1..])
  }

  datatype Loop = NoLoop | InLoop(start: Label, end: Label)

  datatype EmittedStmt = EmittedStmt(code: seq<Instr>, slots: SlotMap, next: nat)

  function NextSlot(k: nat): int {
    -4 * (k + 1)
  }

  /** A branch whose target does not exist, for `break` outside a loop. */
  function StartOf(lo: Loop): Label {
    if lo.InLoop? then lo.start else Numbered(WhileStart, 0)
  }

  function EndOf(lo: Loop): Label {
    if lo.InLoop? then lo.end else Numbered(WhileEnd, 0)
  }

  function EmitStmt(s: Stmt, slots: SlotMap, k: nat, n: nat, lo: Loop, ret: Label): EmittedStmt
    decreases s, 2
  {
    match s
    case Let(_, name, e) =>
      var r := EmitValue(e, slots, n);
      EmittedStmt(r.code + [StoreSlot(NextSlot(k))], slots[name := NextSlot(k)], r.next)
    case Assign(name, e) =>
      var r := EmitValue(e, slots, n);
      EmittedStmt(r.code + [if name in slots then StoreSlot(slots[name]) else StoreStatic(name)], slots, r.next)
    case Expr(e) =>
      var r := EmitValue(e, slots, n);
      EmittedStmt(r.code, slots, r.next)
    case Return(e) =>
      var r := EmitValue(e, slots, n);
      EmittedStmt(r.code + [Jmp(ret)], slots, r.next)
    case If(_, _, _) => EmitIf(s, slots, k, n, lo, ret)
    case While(_, _) => EmitWhile(s, slots, k, n, lo, ret)
    case For(_, _, _, _) => EmitFor(s, slots, k, n, lo, ret)
    case Match(_, _, _) => EmitMatch(s, slots, k, n, lo, ret)
    case Break => EmittedStmt([Jmp(EndOf(lo))], slots, n)
    case Continue => EmittedStmt([Jmp(StartOf(lo))], slots, n)
  }

  function EmitIf(s: Stmt, slots: SlotMap, k: nat, n: nat, lo: Loop, ret: Label): (r: EmittedStmt)
    requires s.If?
    ensures r.slots == slots
    decreases s, 0
  {
    var other, end := Numbered(Else, n), Numbered(EndIf, n + 1);
    var r := EmitValue(s.cond, slots, n + 2);
    var a := EmitStmts(s.thenBody, slots, k, r.next, lo, ret);
    var b := EmitStmts(s.elseBody, slots, k + CountAll(s.thenBody), a.next, lo, ret);
    EmittedStmt(
      r.code + ([CmpAl, Jcc(E, other)] + (a.code + ([Jmp(end), Def(other)] + (b.code + [Def(end)])))),
      slots, b.next)
  }

  function EmitWhile(s: Stmt, slots: SlotMap, k: nat, n: nat, lo: Loop, ret: Label): (r: EmittedStmt)
    requires s.While?
    ensures r.slots == slots
    decreases s, 0
  {
    var start, end := Numbered(WhileStart, n), Numbered(WhileEnd, n + 1);
    var r := EmitValue(s.cond, slots, n + 2);
    var b := EmitStmts(s.body, slots, k, r.next, InLoop(start, end), ret);
    EmittedStmt([Def(start)] + (r.code + ([CmpAl, Jcc(E, end)] + (b.code + [Jmp(start), Def(end)]))),
      slots, b.next)
  }

  function EmitFor(s: Stmt, slots: SlotMap, k: nat, n: nat, lo: Loop, ret: Label): (r: EmittedStmt)
    requires s.For?
    ensures r.slots == slots
    decreases s, 1
  {
    var i := EmitStmt(s.init, slots, k, n + 3, lo, ret);
    var l := EmitForLoop(s, i.slots, k + Count(s.init), n, i.next, lo, ret);
    EmittedStmt(i.code + l.code, slots, l.next)
  }

  /** The scrutinee is stored, compared with every constant in source order, and
      the chain ends in a jump to the default arm or behind the match. */
  function EmitMatch(s: Stmt, slots: SlotMap, k: nat, n: nat, lo: Loop, ret: Label): (r: EmittedStmt)
    requires s.Match?
    ensures r.slots == slots
    decreases s, 0
  {
    var end := Numbered(MatchEnd, n);
    var r := EmitValue(s.value, slots, n + 1 + |s.arms|);
    var b := EmitArms(s.arms, slots, k + 1, n + 1, r.next, end, lo, ret);
    EmittedStmt(
      r.code + ([StoreSlot(NextSlot(k))] + ((Dispatch(s.arms, NextSlot(k), n + 1) +
        [Jmp(Fallback(s.arms, n + 1, end))]) + (b.code + [Def(end)]))),
      slots, b.next)
  }

  /** A `for` loop from its condition on; its labels are numbered from `n`. */
  function EmitForLoop(s: Stmt, slots: SlotMap, k: nat, n: nat, next: nat, lo: Loop, ret: Label): EmittedStmt
    requires s.For?
    decreases s, 0
  {
    var cond, step, end := Numbered(ForCondition, n), Numbered(ForIncrement, n + 1), Numbered(ForEnd, n + 2);
    var r := EmitValue(s.cond, slots, next);
    var b := EmitStmts(s.body, slots, k, r.next, InLoop(step, end), ret);
    var t := EmitStmt(s.step, slots, k + CountAll(s.body), b.next, lo, ret);
    EmittedStmt(
      [Def(cond)] + (r.code + ([CmpAl, Jcc(E, end)] + (b.code + ([Def(step)] + (t.code + [Jmp(cond), Def(end)]))))),
      slots, t.next)
  }

  function EmitStmts(body: seq<Stmt>, slots: SlotMap, k: nat, n: nat, lo: Loop, ret: Label): EmittedStmt
    decreases body, 0
  {
    if body == [] then EmittedStmt([], slots, n) else
    var a := EmitStmt(body[0], slots, k, n, lo, ret);
    var b := EmitStmts(body[1..], a.slots, k + Count(body[0]), a.next, lo, ret);
    EmittedStmt(a.code + b.code, b.slots, b.next)
  }

  function PatternImmediate(p: Pattern): int {
    match p
    case Default => 0
    case IntPattern(n) => n
    case BoolPattern(b) => if b then 1 else 0
  }

  /** The compare-and-branch pairs of one arm. */
  function DispatchArm(patterns: seq<Pattern>, slot: int, arm: Label): seq<Instr> {
    if patterns == [] then [] else
      (if patterns[0].Default? then [] else [CmpSlot(PatternImmediate(patterns[0]), slot), Jcc(E, arm)])
      + DispatchArm(patterns[1..], slot, arm)
  }

  function Dispatch(arms: seq<Arm>, slot: int, label0: nat): seq<Instr> {
    if arms == [] then [] else
      DispatchArm(arms[0].patterns, slot, Numbered(MatchArm, label0)) + Dispatch(arms[1..], slot, label0 + 1)
  }

  /** Where the compare chain ends: the last arm with a `_`, or the end label. */
  function Fallback(arms: seq<Arm>, label0: nat, end: Label): Label {
    if arms == [] then end
    else if Default in arms[0].patterns then Fallback(arms[1..], label0 + 1, Numbered(MatchArm, label0))
    else Fallback(arms[1..], label0 + 1, end)
  }

  function EmitArms(arms: seq<Arm>, slots: SlotMap, k: nat, label0: nat, n: nat, end: Label, lo: Loop, ret: Label)
      : Emitted
    decreases arms, 0
  {
    if arms == [] then Emitted([], n) else
    var a := EmitStmts(arms[0].body, slots, k, n, lo, ret);
    var b := EmitArms(arms[1..], slots, k + CountAll(arms[0].body), label0 + 1, a.next, end, lo, ret);
    Emitted([Def(Numbered(MatchArm, label0))] + (a.code + ([Jmp(end)] + b.code)), b.next)
  }

  /** Parameters lie above the return address in declaration order. */
  function ParamSlots(params: seq<Param>): SlotMap {
    if params == [] then map[]
    else
      var last := |params| - 1;
      ParamSlots(params[..last])[params[last].name := 8 + 4 * last]
  }

  function Prologue(f: Function): seq<Instr> {
    [Def(FunctionOf(f.name)), PushEbp, MovEspEbp] +
    if CountAll(f.body) > 0 then [SubEsp(4 * CountAll(f.body))] else []
  }

  function EmitFunction(f: Function, n: nat): Emitted {
    var b := EmitStmts(f.body, ParamSlots(f.params), 0, n, NoLoop, ReturnOf(f.name));
    Emitted(Prologue(f) + (b.code + [Def(ReturnOf(f.name)), LeaveFrame, Ret]), b.next)
  }

  function EmitFunctions(fs: seq<Function>, n: nat): Emitted {
    if fs == [] then Emitted([], n) else
    var a := EmitFunction(fs[0], n);
    var b := EmitFunctions(fs[1..], a.next);
    Emitted(a.code + b.code, b.next)
  }
}
