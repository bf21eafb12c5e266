/** What the emitters of the three targets write, as far as the stack pointer and
    control flow go: pushes, pops, moves of the stack pointer, labels, branches and
    calls. All other instructions are `Plain`. */
module StackCode {
  import opened Frames
  import opened Calls
  import I386

  type Label = I386.Label

  function Numbered(prefix: I386.Prefix, id: nat): Label {
    I386.Numbered(prefix, id)
  }

  /** `Plain` stands for any number of instructions that neither move the stack
      pointer nor branch, a comparison at the end included. `SetAcc` puts a truth value
      into the accumulator and `TestAcc` compares the accumulator with zero; `Branch`
      jumps if the comparison found its sides equal, or found them different. `CallTo`
      names the bytes of arguments on the stack, which belong to the callee. `SaveFrame`
      and `Leave` set up and take down a frame. */
  datatype Op =
    | Plain
    | SetAcc(value: bool)
    | TestAcc
    | PushWord
    | PopWord
    | LowerSp(bytes: nat)
    | RaiseSp(bytes: nat)
    | Def(at: Label)
    | Jump(at: Label)
    | Branch(at: Label, equal: bool)
    | CallTo(callee: string, bytes: nat)
    | SaveFrame
    | Leave

  datatype Size = Scalar | Aggregate(bytes: nat)

  function Chunks(t: Target, size: Size): (n: nat)
    ensures n >= 1
  {
    if size.Scalar? || size.bytes == 0 then 1 else (size.bytes + Word(t) - 1) / Word(t)
  }

  datatype Field = Field(offset: nat, value: Value)

  /** `StringLiteral` is just that, `Leaf` any other literal, a name or an address, `Wrap` a
      unary operator, a load through a pointer or a cast. */
  datatype Value =
    | StringLiteral(size: Size)
    | Leaf(size: Size)
    | Increment(size: Size, postfix: bool)
    | Wrap(size: Size, operand: Value)
    | Binary(size: Size, lhs: Value, rhs: Value)
    | Logical(size: Size, isAnd: bool, lhs: Value, rhs: Value)
    | Call(size: Size, callee: string, args: seq<Value>)
    | Literal(size: Size, isEnum: bool, fields: seq<Field>)
    | FieldOf(size: Size, offset: nat, base: Value)

  /** A pattern of a match: the default, a struct pattern, or one that is tested. */
  datatype Pattern = Default | Always | Test

  datatype Arm = Arm(patterns: seq<Pattern>, body: seq<Stmt>)

  datatype Stmt =
    | Let(value: Value)
    | Assign(isLocal: bool, value: Value)
    | Store(value: Value, target: Value)
    | Expr(value: Value)
    | If(cond: Value, thenBody: seq<Stmt>, elseBody: seq<Stmt>)
    | While(cond: Value, body: seq<Stmt>)
    | For(init: Stmt, cond: Value, step: Stmt, body: seq<Stmt>)
    | Match(value: Value, arms: seq<Arm>)
    | Break
    | Continue
    | Return(value: Value)

  datatype Function = Function(name: string, locals: nat, body: seq<Stmt>)

  datatype Emitted = Emitted(code: seq<Op>, next: nat)

  // ---- values ----

  /** On arm64 a push is a subtraction and a store, and a pop the reverse. */
  function PushAcc(t: Target): seq<Op> {
    if t.Arm64? then [LowerSp(16), Plain] else [PushWord]
  }

  function PopTo(t: Target): seq<Op> {
    if t.Arm64? then [Plain, RaiseSp(16)] else [PopWord]
  }

  function ArgChunks(t: Target, args: seq<Value>): (ns: seq<nat>)
    ensures |ns| == |args| && forall i :: 0 <= i < |args| ==> ns[i] == Chunks(t, args[i].size)
  {
    seq(|args|, i requires 0 <= i < |args| => Chunks(t, args[i].size))
  }

  function EmitValue(t: Target, v: Value, n: nat): Emitted
    decreases v, 4
  {
    match v
    case StringLiteral(_) => Emitted([Plain], n)
    case Leaf(_) => Emitted([Plain], n)
    case Increment(_, postfix) =>
      Emitted(if postfix then [Plain] + (PushAcc(t) + ([Plain] + PopTo(t))) else [Plain], n)
    case Wrap(_, a) =>
      var r := EmitValue(t, a, n);
      Emitted(r.code + [Plain], r.next)
    case Binary(_, a, b) =>
      var r := EmitValue(t, a, n);
      var q := EmitValue(t, b, r.next);
      Emitted(r.code + (PushAcc(t) + (q.code + ([Plain] + (PopTo(t) + [Plain])))), q.next)
    case Logical(_, isAnd, a, b) =>
      var short, end := Numbered(ShortPrefix(isAnd), n), Numbered(I386.LogicEnd, n + 1);
      var r := EmitValue(t, a, n + 2);
      var q := EmitValue(t, b, r.next);
      var test := [TestAcc, Branch(short, isAnd)];
      var exits := [SetAcc(isAnd), Jump(end), Def(short), SetAcc(!isAnd), Def(end)];
      Emitted(r.code + (test + (q.code + (test + exits))), q.next)
    case Call(_, _, _) => EmitCallOf(t, v, n)
    case Literal(_, _, _) => EmitLiteralChunk(t, v, 0, n)
    case FieldOf(_, offset, base) =>
      var r := EmitChunk(t, base, offset / Word(t), n);
      Emitted(r.code + [Plain], r.next)
  }

  function ShortPrefix(isAnd: bool): I386.Prefix {
    if isAnd then I386.LogicFalse else I386.LogicTrue
  }

  /** One chunk of a value. Only literals can be built from any chunk; a later chunk
      of anything else is a load or a move. */
  function EmitChunk(t: Target, v: Value, c: nat, n: nat): Emitted
    decreases v, 5
  {
    if v.Literal? then EmitLiteralChunk(t, v, c, n)
    else if c == 0 then EmitValue(t, v, n)
    else Emitted([Plain], n)
  }

  /** Starts from zero and combines in the tag and every field of this chunk. */
  function EmitLiteralChunk(t: Target, v: Value, c: nat, n: nat): Emitted
    requires v.Literal?
    decreases v, 3
  {
    var tag := if v.isEnum && c == 0 then PushAcc(t) + ([Plain] + (PopTo(t) + [Plain])) else [];
    var r := EmitFields(t, v.fields, c, n);
    Emitted([Plain] + (tag + r.code), r.next)
  }

  function EmitFields(t: Target, fields: seq<Field>, c: nat, n: nat): Emitted
    decreases fields, 2
  {
    if fields == [] then Emitted([], n)
    else
      var r := EmitField(t, fields[0], c, n);
      var q := EmitFields(t, fields[1..], c, r.next);
      Emitted(r.code + q.code, q.next)
  }

  /** A field is skipped in other chunks than its own. */
  function EmitField(t: Target, f: Field, c: nat, n: nat): Emitted
    decreases f, 0
  {
    if f.offset / Word(t) != c then Emitted([], n) else
    var r := EmitValue(t, f.value, n);
    Emitted(PushAcc(t) + (r.code + ([Plain] + (PopTo(t) + [Plain]))), r.next)
  }

  /** Stack arguments from the last to the first, register arguments likewise, the
      pops into registers, the call and the cleanup. */
  function EmitCallOf(t: Target, v: Value, n: nat): Emitted
    requires v.Call?
    decreases v, 3
  {
    var ns := ArgChunks(t, v.args);
    var regs, stack := RegistersBefore(t, ns, |ns|), StackBefore(t, ns, |ns|);
    var a := EmitPushed(t, v.args, |v.args|, false, n);
    var b := EmitPushed(t, v.args, |v.args|, true, a.next);
    var pad := if Padding(t, ns) > 0 then [LowerSp(Padding(t, ns))] else [];
    var clean := if CleanupBytes(t, ns) > 0 then [RaiseSp(CleanupBytes(t, ns))] else [];
    Emitted(pad + (a.code + (b.code + (PopsInto(t, regs)
      + ([CallTo(v.callee, PushBytes(t) * stack)] + clean)))), b.next)
  }

  /** The first `i` arguments of one kind, from the last to the first. */
  function EmitPushed(t: Target, args: seq<Value>, i: nat, wanted: bool, n: nat): Emitted
    requires i <= |args|
    decreases args, 2, i
  {
    if i == 0 then Emitted([], n)
    else if InRegisters(t, ArgChunks(t, args), i - 1) != wanted then EmitPushed(t, args, i - 1, wanted, n)
    else
      var r := EmitChunksDown(t, args[i - 1], Chunks(t, args[i - 1].size), n);
      var q := EmitPushed(t, args, i - 1, wanted, r.next);
      Emitted(r.code + q.code, q.next)
  }

  /** The chunks below `k`, from the last to the first, each evaluated and pushed. */
  function EmitChunksDown(t: Target, v: Value, k: nat, n: nat): Emitted
    decreases v, 6, k
  {
    if k == 0 then Emitted([], n) else
    var r := EmitChunk(t, v, k - 1, n);
    var q := EmitChunksDown(t, v, k - 1, r.next);
    Emitted((r.code + PushAcc(t)) + q.code, q.next)
  }

  function PopsInto(t: Target, k: nat): seq<Op> {
    if k == 0 then [] else PopTo(t) + PopsInto(t, k - 1)
  }

  // ---- statements ----

  /** The chunks from `c` on, each followed by a store or move. */
  function EmitChunksUp(t: Target, v: Value, c: nat, k: nat, n: nat): Emitted
    decreases k - c
  {
    if c >= k then Emitted([], n) else
    var r := EmitChunk(t, v, c, n);
    var q := EmitChunksUp(t, v, c + 1, k, r.next);
    Emitted((r.code + [Plain]) + q.code, q.next)
  }

  /** The arm64 emitter gives up on a call that returns more than two chunks, and on
      returning more than two. */
  predicate Refused(t: Target, st: Stmt) {
    && t.Arm64?
    && match st
       case Let(v) => v.Call? && Chunks(t, v.size) > 2
       case Match(v, _) => v.Call? && Chunks(t, v.size) > 2
       case Return(v) => Chunks(t, v.size) > 2
       case _ => false
  }

  /** A value goes to its slots. On arm64 both chunks of a returned pair are stored at
      once. */
  function EmitToSlots(t: Target, v: Value, n: nat): Emitted {
    if t.Arm64? && v.Call? && Chunks(t, v.size) == 2 then
      var r := EmitValue(t, v, n);
      Emitted(r.code + [Plain], r.next)
    else EmitChunksUp(t, v, 0, Chunks(t, v.size), n)
  }

  function EmitReturned(t: Target, v: Value, n: nat): Emitted {
    var k := Chunks(t, v.size);
    if t.X64? || k == 1 then EmitValue(t, v, n) else
    var r := EmitChunk(t, v, 0, n);
    var q := EmitChunksUp(t, v, 1, k, r.next);
    Emitted(r.code + (PushAcc(t) + (q.code + PopTo(t))), q.next)
  }

  datatype Loop = NoLoop | InLoop(start: Label, end: Label)

  function StartLabel(lo: Loop): Label {
    if lo.InLoop? then lo.start else ArmLabel(0)
  }

  function EndLabel(lo: Loop): Label {
    if lo.InLoop? then lo.end else ArmLabel(0)
  }

  function EmitStmt(t: Target, st: Stmt, n: nat, lo: Loop, ret: Label): Emitted
    decreases st, 1
  {
    if Refused(t, st) then Emitted([], n) else
    match st
    case Let(v) => EmitToSlots(t, v, n)
    case Assign(isLocal, v) =>
      if isLocal && !t.Arm64? then EmitChunksUp(t, v, 0, Chunks(t, v.size), n) else
      var r := EmitValue(t, v, n);
      Emitted(r.code + [Plain], r.next)
    case Store(v, target) =>
      var r := EmitValue(t, v, n);
      var q := EmitValue(t, target, r.next);
      Emitted(r.code + (PushAcc(t) + (q.code + (PopTo(t) + [Plain]))), q.next)
    case Expr(v) => EmitValue(t, v, n)
    case If(_, _, _) => EmitIf(t, st, n, lo, ret)
    case While(_, _) => EmitWhile(t, st, n, ret)
    case For(_, _, _, _) => EmitFor(t, st, n, lo, ret)
    case Match(_, _) => EmitMatch(t, st, n, lo, ret)
    case Break => Emitted([Jump(EndLabel(lo))], n)
    case Continue => Emitted([Jump(StartLabel(lo))], n)
    case Return(v) =>
      var r := EmitReturned(t, v, n);
      Emitted(r.code + [Jump(ret)], r.next)
  }

  function EmitIf(t: Target, st: Stmt, n: nat, lo: Loop, ret: Label): Emitted
    requires st.If?
    decreases st, 0
  {
    var other, end := Numbered(I386.Else, n), Numbered(I386.EndIf, n + 1);
    var r := EmitValue(t, st.cond, n + 2);
    var a := EmitBody(t, st.thenBody, r.next, lo, ret);
    var b := EmitBody(t, st.elseBody, a.next, lo, ret);
    var rest := a.code + ([Jump(end), Def(other)] + (b.code + [Def(end)]));
    Emitted(r.code + ([TestAcc, Branch(other, true)] + rest), b.next)
  }

  function EmitWhile(t: Target, st: Stmt, n: nat, ret: Label): Emitted
    requires st.While?
    decreases st, 0
  {
    var start, end := Numbered(I386.WhileStart, n), Numbered(I386.WhileEnd, n + 1);
    var r := EmitValue(t, st.cond, n + 2);
    var b := EmitBody(t, st.body, r.next, InLoop(start, end), ret);
    Emitted([Def(start)] + (r.code + ([TestAcc, Branch(end, true)] + (b.code + [Jump(start), Def(end)]))), b.next)
  }

  function EmitFor(t: Target, st: Stmt, n: nat, lo: Loop, ret: Label): Emitted
    requires st.For?
    decreases st, 0
  {
    var cond, step := Numbered(I386.ForCondition, n), Numbered(I386.ForIncrement, n + 1);
    var end := Numbered(I386.ForEnd, n + 2);
    var i := EmitStmt(t, st.init, n + 3, lo, ret);
    var r := EmitValue(t, st.cond, i.next);
    var b := EmitBody(t, st.body, r.next, InLoop(step, end), ret);
    var g := EmitStmt(t, st.step, b.next, lo, ret);
    Emitted(i.code + ([Def(cond)] + (r.code + ([TestAcc, Branch(end, true)] + (b.code
      + ([Def(step)] + (g.code + [Jump(cond), Def(end)])))))), g.next)
  }

  function EmitMatch(t: Target, st: Stmt, n: nat, lo: Loop, ret: Label): Emitted
    requires st.Match?
    decreases st, 0
  {
    var end := Numbered(I386.MatchEnd, n);
    var r := EmitToSlots(t, st.value, n + 1 + |st.arms|);
    var b := EmitArms(t, st.arms, n + 1, r.next, end, lo, ret);
    Emitted(r.code + (Dispatch(st.arms, n + 1)
      + ([Jump(Fallback(st.arms, n + 1, end))] + (b.code + [Def(end)]))), b.next)
  }

  function ArmLabel(id: nat): Label {
    Numbered(I386.MatchArm, id)
  }

  /** The tests of all arms; arm `i` has label `label0 + i`. */
  function Dispatch(arms: seq<Arm>, label0: nat): seq<Op> {
    if arms == [] then [] else DispatchArm(arms[0].patterns, ArmLabel(label0)) + Dispatch(arms[1..], label0 + 1)
  }

  function DispatchArm(patterns: seq<Pattern>, arm: Label): seq<Op> {
    if patterns == [] then []
    else (match patterns[0]
          case Default => []
          case Always => [Jump(arm)]
          case Test => [Plain, Branch(arm, true)]) + DispatchArm(patterns[1..], arm)
  }

  /** The last default arm, or the end. */
  function Fallback(arms: seq<Arm>, label0: nat, end: Label): Label {
    if arms == [] then end
    else Fallback(arms[1..], label0 + 1, if Default in arms[0].patterns then ArmLabel(label0) else end)
  }

  function EmitArms(t: Target, arms: seq<Arm>, label0: nat, n: nat, end: Label, lo: Loop, ret: Label): Emitted
    decreases arms, 0
  {
    if arms == [] then Emitted([], n) else
    var a := EmitBody(t, arms[0].body, n, lo, ret);
    var b := EmitArms(t, arms[1..], label0 + 1, a.next, end, lo, ret);
    Emitted([Def(ArmLabel(label0)), Plain] + (a.code + ([Jump(end)] + b.code)), b.next)
  }

  function EmitBody(t: Target, body: seq<Stmt>, n: nat, lo: Loop, ret: Label): Emitted
    decreases body, 0
  {
    if body == [] then Emitted([], n) else
    var a := EmitStmt(t, body[0], n, lo, ret);
    var b := EmitBody(t, body[1..], a.next, lo, ret);
    Emitted(a.code + b.code, b.next)
  }

  /** Entry label, frame, room for the locals, spills, the body, and the epilogue. */
  function EmitFunction(t: Target, f: Function, n: nat): Emitted {
    var room := AlignedBytes(t, f.locals);
    var b := EmitBody(t, f.body, n, NoLoop, I386.ReturnOf(f.name));
    Emitted(Prologue(t, f) + (b.code + [Def(I386.ReturnOf(f.name)), Leave]), b.next)
  }

  function Prologue(t: Target, f: Function): seq<Op> {
    var room := AlignedBytes(t, f.locals);
    [Def(I386.FunctionOf(f.name)), SaveFrame] + ((if room > 0 then [LowerSp(room)] else []) + [Plain])
  }

  function EmitFunctions(t: Target, fs: seq<Function>, n: nat): Emitted {
    if fs == [] then Emitted([], n) else
    var a := EmitFunction(t, fs[0], n);
    var b := EmitFunctions(t, fs[1..], a.next);
    Emitted(a.code + b.code, b.next)
  }
}
