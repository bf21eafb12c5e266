/** The emitted code simulates the interpreter: forward simulation by induction
    on fuel and on the IR. */
module Simulation {
  import opened Words
  import opened Ir
  import opened IrSemantics
  import opened I386
  import opened EmitI386
  import opened SimBase

  /** The machine holds the code of every function of the module, no label is
      defined twice, and only functions of the module have entry labels. */
  ghost predicate Linked(p: Machine, m: Module) {
    && UniqueLabels(p.code)
    && m.DistinctNames()
    && (forall i :: 0 <= i < |m.functions| ==> Loaded(p, m.functions[i]))
    && (forall f :: HasLabel(p.code, FunctionOf(f)) ==> m.Defines(f))
  }

  ghost predicate Loaded(p: Machine, f: Function) {
    exists pc, n :: At(p, pc, EmitFunction(f, n).code)
  }

  ghost predicate Ready(p: Machine, m: Module, code: seq<Instr>, env: Env, w: World, slots: SlotMap, s: State) {
    Linked(p, m) && s.status == Running && s.world == w && At(p, s.pc, code) && Rel(env, slots, s)
  }

  lemma Branch(p: Machine, s: State, c: Cond, l: Label, b: bool) returns (t: State)
    requires s.status == Running && s.eax == Enc(Boolean(b))
    requires c == E || c == NE
    requires At(p, s.pc, [CmpAl, Jcc(c, l)])
    ensures Steps(p, s, 2) == t
    ensures t == s.(pc := if (c == E) == b then s.pc + 2 else Find(p.code, l), flags := t.flags)
  {
    Fetch(p, s.pc, [CmpAl, Jcc(c, l)], 0);
    Fetch(p, s.pc, [CmpAl, Jcc(c, l)], 1);
    Steps2(p, s);
    t := Step(p, Step(p, s));
  }


  lemma Pass(p: Machine, s: State, l: Label)
    requires s.status == Running && At(p, s.pc, [Def(l)])
    ensures Steps(p, s, 1) == s.(pc := s.pc + 1)
  {
    Fetch(p, s.pc, [Def(l)], 0);
    Steps1(p, s);
  }

  lemma SimValue(p: Machine, m: Module, e: Value, fuel: nat, env: Env, w: World, slots: SlotMap, n: nat, s: State)
      returns (k: nat, t: State)
    requires Ready(p, m, EmitValue(e, slots, n).code, env, w, slots, s)
    ensures Steps(p, s, k) == t
    ensures ValueDone(s, |EmitValue(e, slots, n).code|, Eval(m, p.x, fuel, e, env, w), fuel, slots, k, t)
    decreases fuel, e, 3
  {
    hide EvalNeg, EvalNot, EvalIncr, EvalBinary, EvalLogical, EvalCast, EvalCall, Step, Linked, Layout, Stored, Same;
    hide At;
    hide EmitBinary, EmitLogical, EmitCall, IncrCode;
    match e
    case IntLit(_, _) => k, t := SimLeaf(p, m, e, fuel, env, w, slots, n, s);
    case BoolLit(_) => k, t := SimLeaf(p, m, e, fuel, env, w, slots, n, s);
    case Local(_, _) => k, t := SimLeaf(p, m, e, fuel, env, w, slots, n, s);
    case Global(_, _) => k, t := SimLeaf(p, m, e, fuel, env, w, slots, n, s);
    case Neg(_) => k, t := SimNeg(p, m, e, fuel, env, w, slots, n, s);
    case Not(_) => k, t := SimNot(p, m, e, fuel, env, w, slots, n, s);
    case Incr(_, _, _, _, _) => k, t := SimIncr(p, m, e, fuel, env, w, slots, s);
    case Binary(_, _, _, _) => k, t := SimBinary(p, m, e, fuel, env, w, slots, n, s);
    case And(_, _) => k, t := SimLogical(p, m, e, fuel, env, w, slots, n, s);
    case Or(_, _) => k, t := SimLogical(p, m, e, fuel, env, w, slots, n, s);
    case Cast(_, _) => k, t := SimCast(p, m, e, fuel, env, w, slots, n, s);
    case Call(_, _, _) => k, t := SimCallValue(p, m, e, fuel, env, w, slots, n, s);
  }

  lemma SimLeaf(p: Machine, m: Module, e: Value, fuel: nat, env: Env, w: World, slots: SlotMap, n: nat, s: State)
      returns (k: nat, t: State)
    requires e.IntLit? || e.BoolLit? || e.Local? || e.Global?
    requires Ready(p, m, EmitValue(e, slots, n).code, env, w, slots, s)
    ensures Steps(p, s, k) == t
    ensures ValueDone(s, |EmitValue(e, slots, n).code|, Eval(m, p.x, fuel, e, env, w), fuel, slots, k, t)
  {
    hide EvalNeg, EvalNot, EvalIncr, EvalBinary, EvalLogical, EvalCast, EvalCall, Linked;
    hide EmitBinary, EmitLogical, EmitCall, IncrCode, Layout, Same;
    SameRefl(slots, s.esp, s.ebp, s.mem);
    Fetch(p, s.pc, EmitValue(e, slots, n).code, 0);
    Steps1(p, s);
    if e.Local? && e.name in slots { SlotAligned(slots, s.esp, s.ebp, e.name); }
    k, t := 1, Step(p, s);
    if e.Global? { WordOfSigned(StaticWord(w, e.name)); }
  }

  lemma SimNeg(p: Machine, m: Module, e: Value, fuel: nat, env: Env, w: World, slots: SlotMap, n: nat, s: State)
      returns (k: nat, t: State)
    requires e.Neg?
    requires Ready(p, m, EmitValue(e.operand, slots, n).code + [NegEax], env, w, slots, s)
    ensures Steps(p, s, k) == t
    ensures ValueDone(s, |EmitValue(e.operand, slots, n).code| + 1, EvalNeg(m, p.x, fuel, e, env, w), fuel, slots, k, t)
    decreases fuel, e, 2
  {
    hide Eval, EmitValue, Linked, Layout, Stored, Same, Step, At;
    var c := EmitValue(e.operand, slots, n).code;
    Split(p, s.pc, c, [NegEax]);
    k, t := SimValue(p, m, e.operand, fuel, env, w, slots, n, s);
    var r := Eval(m, p.x, fuel, e.operand, env, w);
    if r.Ok? && HasType(r.v, I32) {
      var u := NegStep(p, t, r.v.n);
      Chain(p, s, k, t, 1, u);
      k, t := k + 1, u;
    }
  }

  lemma NegStep(p: Machine, t: State, a: int) returns (u: State)
    requires t.status == Running && At(p, t.pc, [NegEax]) && t.eax == Word(a)
    ensures Steps(p, t, 1) == u
    ensures u == t.(pc := t.pc + 1, eax := Word(Wrap(I32, -a)), flags := Unknown)
  {
    Fetch(p, t.pc, [NegEax], 0);
    Steps1(p, t);
    WordSub(0, a);
    WrapWord(I32, -a);
    u := Step(p, t);
  }

  lemma SimNot(p: Machine, m: Module, e: Value, fuel: nat, env: Env, w: World, slots: SlotMap, n: nat, s: State)
      returns (k: nat, t: State)
    requires e.Not?
    requires Ready(p, m, EmitValue(e.operand, slots, n).code + [CmpAl, SetAl(E), ZeroExtendAl], env, w, slots, s)
    ensures Steps(p, s, k) == t
    ensures ValueDone(s, |EmitValue(e.operand, slots, n).code| + 3, EvalNot(m, p.x, fuel, e, env, w), fuel, slots, k, t)
    decreases fuel, e, 2
  {
    hide Eval, EmitValue, Linked, Layout, Stored, Same, Step, At;
    var c := EmitValue(e.operand, slots, n).code;
    Split(p, s.pc, c, [CmpAl, SetAl(E), ZeroExtendAl]);
    k, t := SimValue(p, m, e.operand, fuel, env, w, slots, n, s);
    var r := Eval(m, p.x, fuel, e.operand, env, w);
    if r.Ok? && r.v.Boolean? {
      var u := NotSteps(p, t, r.v.b);
      Chain(p, s, k, t, 3, u);
      k, t := k + 3, u;
    }
  }

  lemma NotSteps(p: Machine, t: State, b: bool) returns (u: State)
    requires t.status == Running && At(p, t.pc, [CmpAl, SetAl(E), ZeroExtendAl]) && t.eax == Enc(Boolean(b))
    ensures Steps(p, t, 3) == u
    ensures u == t.(pc := t.pc + 3, eax := Enc(Boolean(!b)), flags := u.flags)
  {
    hide Step, Steps;
    var d := [CmpAl, SetAl(E), ZeroExtendAl];
    Fetch(p, t.pc, d, 0);
    Fetch(p, t.pc, d, 1);
    Fetch(p, t.pc, d, 2);
    var t1 := StepTest(p, t, b);
    var t2 := StepSet(p, t1, E);
    u := StepExtend(p, t2);
    Chain(p, t, 1, t1, 1, t2);
    Chain(p, t, 2, t2, 1, u);
    LowByte(t.eax, if b then 0 else 1);
  }

  lemma StepTest(p: Machine, s: State, b: bool) returns (t: State)
    requires s.status == Running && 0 <= s.pc < |p.code| && p.code[s.pc] == CmpAl && s.eax == Enc(Boolean(b))
    ensures Steps(p, s, 1) == t && t == s.(pc := s.pc + 1, flags := t.flags)
    ensures t.flags.Flags? && t.flags.zf == !b
  {
    Steps1(p, s);
    t := Step(p, s);
  }

  lemma SimCast(p: Machine, m: Module, e: Value, fuel: nat, env: Env, w: World, slots: SlotMap, n: nat, s: State)
      returns (k: nat, t: State)
    requires e.Cast?
    requires Ready(p, m, EmitValue(e.operand, slots, n).code, env, w, slots, s)
    ensures Steps(p, s, k) == t
    ensures ValueDone(s, |EmitValue(e.operand, slots, n).code|, EvalCast(m, p.x, fuel, e, env, w), fuel, slots, k, t)
    decreases fuel, e, 2
  {
    hide Eval, EmitValue, Linked, Layout, Stored, Same, Step, At;
    k, t := SimValue(p, m, e.operand, fuel, env, w, slots, n, s);
    var r := Eval(m, p.x, fuel, e.operand, env, w);
    if r.Ok? && r.v.Num? { WrapWord(e.ty, r.v.n); }
  }

  /** `++` and `--`: read, bump and write back one slot or static. */
  lemma SimIncr(p: Machine, m: Module, e: Value, fuel: nat, env: Env, w: World, slots: SlotMap, s: State)
      returns (k: nat, t: State)
    requires e.Incr?
    requires Ready(p, m, IncrCode(e, slots), env, w, slots, s)
    ensures Steps(p, s, k) == t
    ensures ValueDone(s, |IncrCode(e, slots)|, EvalIncr(e, env, w), fuel, slots, k, t)
  {
    hide Linked, Layout, Same, Stored, Step, Steps, Wrap, SetStatic, StaticWord, IncrCode, At;
    k, t := 0, s;
    Steps0(p, s);
    if !EvalIncr(e, env, w).Ok? { return; }
    var before := if e.isLocal then env[e.name] else Dec(e.ty, StaticWord(w, e.name)).value;
    assert before.Num?;
    hide EvalIncr, ValueDone, BumpDone, BumpInstr, StoreInstr, HasType, Dec, Enc;
    var load := LoadOperand(p, e, before, env, w, slots, s);
    IncrParts(p, s.pc, e, slots);
    if e.postfix {
      t := SimPostfix(p, e, before, env, w, slots, load);
      Chain(p, s, 1, load, 4, t);
      k := 5;
    } else {
      t := SimBump(p, e, before, env, w, slots, load);
      Chain(p, s, 1, load, 2, t);
      k := 3;
    }
    Incremented(e, before, fuel, env, w, slots, s, load, k, t);
  }

  lemma Incremented(e: Value, before: Val, fuel: nat, env: Env, w: World, slots: SlotMap, s: State, load: State, k: nat,
                    t: State)
    requires e.Incr? && EvalIncr(e, env, w).Ok? && before.Num?
    requires before == if e.isLocal then env[e.name] else Dec(e.ty, StaticWord(w, e.name)).value
    requires load == s.(pc := s.pc + 1, eax := Enc(before)) && BumpDone(load, e, before, env, w, slots, t)
    requires t == s.(pc := s.pc + k, eax := Enc(if e.postfix then before else Bumped(e, before)), flags := Unknown,
                     mem := t.mem, world := t.world)
    ensures ValueDone(s, k, EvalIncr(e, env, w), fuel, slots, k, t)
  {
    hide Layout, Same, Stored, Wrap, SetStatic, StaticWord, Enc;
  }

  lemma IncrParts(p: Machine, at: int, e: Value, slots: SlotMap)
    requires e.Incr? && At(p, at, IncrCode(e, slots))
    ensures |IncrCode(e, slots)| == if e.postfix then 5 else 3
    ensures 0 <= at && at + |IncrCode(e, slots)| <= |p.code|
    ensures !e.postfix ==> p.code[at + 1] == BumpInstr(e) && p.code[at + 2] == StoreInstr(e, slots)
    ensures e.postfix ==> p.code[at + 1] == PushEax && p.code[at + 2] == BumpInstr(e)
    ensures e.postfix ==> p.code[at + 3] == StoreInstr(e, slots) && p.code[at + 4] == PopEax
  {
    var c := IncrCode(e, slots);
    Fetch(p, at, c, 1);
    Fetch(p, at, c, 2);
    if e.postfix {
      Fetch(p, at, c, 3);
      Fetch(p, at, c, 4);
    }
  }

  lemma LoadOperand(p: Machine, e: Value, before: Val, env: Env, w: World, slots: SlotMap, s: State) returns (t: State)
    requires e.Incr? && s.status == Running && s.world == w && At(p, s.pc, IncrCode(e, slots)) && Rel(env, slots, s)
    requires e.isLocal ==> e.name in slots && before == env[e.name]
    requires !e.isLocal ==> e.ty != Bool && before == Dec(e.ty, StaticWord(w, e.name)).value
    ensures Steps(p, s, 1) == t
    ensures t == s.(pc := s.pc + 1, eax := Enc(before))
  {
    Fetch(p, s.pc, IncrCode(e, slots), 0);
    Steps1(p, s);
    WordOfSigned(StaticWord(w, e.name));
    t := Step(p, s);
  }

  function Bumped(e: Value, before: Val): Val
    requires e.Incr? && before.Num?
  {
    Num(Wrap(e.ty, if e.up then before.n + 1 else before.n - 1))
  }

  function BumpInstr(e: Value): Instr
    requires e.Incr?
  {
    if e.up then AddImm(1) else SubImm(1)
  }

  function StoreInstr(e: Value, slots: SlotMap): Instr
    requires e.Incr?
  {
    if e.isLocal then StoreSlot(SlotOf(slots, e.name)) else StoreStatic(e.name)
  }

  /** What a bump does to environment, world and memory. */
  ghost predicate BumpDone(s: State, e: Value, before: Val, env: Env, w: World, slots: SlotMap, t: State)
    requires e.Incr? && before.Num?
  {
    && t.world == (if e.isLocal then w else SetStatic(w, e.name, Enc(Bumped(e, before))))
    && Rel(if e.isLocal then env[e.name := Bumped(e, before)] else env, slots, t)
    && Preserved(s, t, slots)
  }

  lemma SimPostfix(p: Machine, e: Value, before: Val, env: Env, w: World, slots: SlotMap, s: State) returns (t: State)
    requires e.Incr? && before.Num? && s.status == Running && s.world == w
    requires Rel(env, slots, s) && s.eax == Enc(before)
    requires e.isLocal ==> e.name in slots
    requires 0 <= s.pc && s.pc + 3 < |p.code|
    requires p.code[s.pc] == PushEax && p.code[s.pc + 3] == PopEax
    requires p.code[s.pc + 1] == BumpInstr(e) && p.code[s.pc + 2] == StoreInstr(e, slots)
    ensures Steps(p, s, 4) == t
    ensures t == s.(pc := s.pc + 4, flags := Unknown, mem := t.mem, world := t.world)
    ensures BumpDone(s, e, before, env, w, slots, t)
  {
    hide Step, Layout, Stored, Same, Bumped;
    var pushed := PushStep(p, env, slots, s);
    var u := SimBump(p, e, before, env, w, slots, pushed);
    Chain(p, s, 1, pushed, 2, u);
    PushedCell(slots, s.esp, s.ebp, s.mem, s.eax, u.mem);
    Aligned(slots, u.esp, u.ebp);
    t := PopStep(p, s, u);
    Chain(p, s, 3, u, 1, t);
  }

  lemma PushStep(p: Machine, env: Env, slots: SlotMap, s: State) returns (t: State)
    requires s.status == Running && Rel(env, slots, s) && 0 <= s.pc < |p.code| && p.code[s.pc] == PushEax
    ensures Steps(p, s, 1) == t
    ensures t == s.(pc := s.pc + 1, esp := s.esp - 4, mem := s.mem[s.esp - 4 := s.eax]) && Rel(env, slots, t)
  {
    PushRel(env, slots, s.(pc := s.pc + 1), s.eax);
    Steps1(p, s);
    t := Step(p, s);
  }

  /** Pops what was pushed at `s`. */
  lemma PopStep(p: Machine, s: State, u: State) returns (t: State)
    requires u.status == Running && 0 <= u.pc < |p.code| && p.code[u.pc] == PopEax
    requires u.esp == s.esp - 4 && u.esp % 4 == 0 && Load(u.mem, u.esp) == s.eax
    ensures Steps(p, u, 1) == t
    ensures t == u.(pc := u.pc + 1, eax := s.eax, esp := s.esp)
  {
    Steps1(p, u);
    t := Step(p, u);
  }

  lemma SimBump(p: Machine, e: Value, before: Val, env: Env, w: World, slots: SlotMap, s: State) returns (t: State)
    requires e.Incr? && before.Num? && s.status == Running && s.world == w
    requires Rel(env, slots, s) && s.eax == Enc(before)
    requires e.isLocal ==> e.name in slots
    requires 0 <= s.pc && s.pc + 1 < |p.code|
    requires p.code[s.pc] == BumpInstr(e) && p.code[s.pc + 1] == StoreInstr(e, slots)
    ensures Steps(p, s, 2) == t
    ensures t == s.(pc := s.pc + 2, eax := Enc(Bumped(e, before)), flags := Unknown, mem := t.mem, world := t.world)
    ensures BumpDone(s, e, before, env, w, slots, t)
  {
    var after := Bumped(e, before);
    var u := s.(pc := s.pc + 1, eax := Enc(after), flags := Unknown);
    BumpWord(e, before);
    assert Step(p, s) == u;
    SameRefl(slots, s.esp, s.ebp, s.mem);
    if e.isLocal { StoreSlotOf(env, slots, s.esp, s.ebp, s.mem, e.name, after); }
    t := Step(p, u);
    Steps2(p, s);
  }

  lemma BumpWord(e: Value, before: Val)
    requires e.Incr? && before.Num?
    ensures Enc(Bumped(e, before)) == Word(if e.up then Enc(before) + 1 else Enc(before) - 1)
  {
    WordAdd(before.n, 1);
    WordSub(before.n, 1);
    SignedOfWord(1);
    WrapWord(e.ty, if e.up then before.n + 1 else before.n - 1);
  }

  lemma SimBinary(p: Machine, m: Module, e: Value, fuel: nat, env: Env, w: World, slots: SlotMap, n: nat, s: State)
      returns (k: nat, t: State)
    requires e.Binary?
    requires Ready(p, m, EmitBinary(e, slots, n).code, env, w, slots, s)
    ensures Steps(p, s, k) == t
    ensures ValueDone(s, |EmitBinary(e, slots, n).code|, EvalBinary(m, p.x, fuel, e, env, w), fuel, slots, k, t)
    decreases fuel, e, 2
  {
    hide Eval, EmitValue, Linked, OpCode, OperandsFit, Combine, Step, TypeOf, Layout, Stored, Same, At;
    var a := EmitValue(e.lhs, slots, n);
    var b := EmitValue(e.rhs, slots, a.next);
    var op := OpCode(e.op, TypeOf(e.lhs), e.ty);
    var tail := [MovEaxEcx, PopEax] + op;
    Pieces4(p, s.pc, a.code, [PushEax], b.code, tail);
    k, t := SimValue(p, m, e.lhs, fuel, env, w, slots, n, s);
    var r := Eval(m, p.x, fuel, e.lhs, env, w);
    if !r.Ok? { return; }
    var left := t.(pc := t.pc + 1);
    var u := SimPush(p, r.env, slots, t);
    Chain(p, s, k, t, 1, u);
    var k2, v := SimValue(p, m, e.rhs, fuel, r.env, r.w, slots, a.next, u);
    Chain(p, s, k + 1, u, k2, v);
    k := k + 1 + k2;
    var q := Eval(m, p.x, fuel, e.rhs, r.env, r.w);
    if !q.Ok? || !OperandsFit(e, r.v, q.v) { t := v; return; }
    PushedCell(slots, s.esp, s.ebp, t.mem, t.eax, v.mem);
    SameTrans(slots, s.esp, s.ebp, s.mem, t.mem, v.mem);
    var k3, y := SimCombine(p, e, r.v, q, r.env, slots, left, v);
    Chain(p, s, k, v, k3, y);
    k, t := k + k3, y;
  }

  lemma SimPush(p: Machine, env: Env, slots: SlotMap, t: State) returns (u: State)
    requires t.status == Running && At(p, t.pc, [PushEax]) && Rel(env, slots, t)
    ensures Steps(p, t, 1) == u
    ensures u == t.(pc := t.pc + 1, esp := t.esp - 4, mem := t.mem[t.esp - 4 := t.eax]) && Rel(env, slots, u)
  {
    Fetch(p, t.pc, [PushEax], 0);
    Steps1(p, t);
    PushRel(env, slots, t.(pc := t.pc + 1), t.eax);
    u := Step(p, t);
  }

  /** What computing on two operands achieves. */
  ghost predicate CombineDone(e: Value, a: Val, q: Res<Val>, slots: SlotMap, left: State, v: State, t: State)
    requires e.Binary? && q.Ok? && OperandsFit(e, a, q.v)
  {
    match Combine(e, a, q)
    case Ok(r, env', w) =>
      && t == v.(pc := v.pc + 2 + |OpCode(e.op, TypeOf(e.lhs), e.ty)|, esp := left.esp,
                 eax := Enc(r), ecx := t.ecx, edx := t.edx, flags := t.flags)
      && w == v.world && env' == q.env && Rel(env', slots, t)
    case Trap(w) => t.status == Divide && t.world == w
    case Timeout => false
    case Wrong => false
  }

  /** Both operands are there: pop the left one and compute. */
  lemma SimCombine(p: Machine, e: Value, a: Val, q: Res<Val>, env: Env, slots: SlotMap, left: State, v: State)
      returns (k: nat, t: State)
    requires e.Binary? && q.Ok? && OperandsFit(e, a, q.v)
    requires v.status == Running && v.world == q.w && v.eax == Enc(q.v) && left.eax == Enc(a)
    requires At(p, v.pc, [MovEaxEcx, PopEax] + OpCode(e.op, TypeOf(e.lhs), e.ty))
    requires v.esp == left.esp - 4 && v.ebp == left.ebp && Load(v.mem, left.esp - 4) == left.eax
    requires Rel(env, slots, left) && Rel(q.env, slots, v)
    ensures Steps(p, v, k) == t
    ensures CombineDone(e, a, q, slots, left, v, t)
  {
    hide OpCode, Step, Layout, Stored, Same, At;
    Aligned(slots, v.esp, v.ebp);
    var op := OpCode(e.op, TypeOf(e.lhs), e.ty);
    Split(p, v.pc, [MovEaxEcx, PopEax], op);
    var x := SimPop(p, v, left);
    var k2, y := SimOp(p, x, e.op, TypeOf(e.lhs), e.ty, a.n, q.v.n);
    Chain(p, v, 2, x, k2, y);
    k, t := 2 + k2, y;
  }

  /** Moves the right operand to `%ecx` and pops the left one. */
  lemma SimPop(p: Machine, v: State, left: State) returns (x: State)
    requires v.status == Running && At(p, v.pc, [MovEaxEcx, PopEax])
    requires v.esp == left.esp - 4 && v.esp % 4 == 0 && Load(v.mem, left.esp - 4) == left.eax
    ensures Steps(p, v, 2) == x
    ensures x == v.(pc := v.pc + 2, eax := left.eax, ecx := v.eax, esp := left.esp)
  {
    Fetch(p, v.pc, [MovEaxEcx, PopEax], 0);
    Fetch(p, v.pc, [MovEaxEcx, PopEax], 1);
    Steps2(p, v);
    x := Step(p, Step(p, v));
  }

  lemma LogicParts(p: Machine, isAnd: bool, short: Label, end: Label, at: int)
    requires UniqueLabels(p.code)
    requires At(p, at, [MovImm(if isAnd then 1 else 0), Jmp(end), Def(short), MovImm(if isAnd then 0 else 1), Def(end)])
    ensures 0 <= at <= |p.code| - 5 && Find(p.code, end) == at + 4
    ensures p.code[at] == MovImm(if isAnd then 1 else 0) && p.code[at + 1] == Jmp(end)
    ensures p.code[at + 2] == Def(short) && p.code[at + 3] == MovImm(if isAnd then 0 else 1)
    ensures p.code[at + 4] == Def(end)
  {
    var c := [MovImm(if isAnd then 1 else 0), Jmp(end), Def(short), MovImm(if isAnd then 0 else 1), Def(end)];
    Fetch(p, at, c, 0);
    Fetch(p, at, c, 1);
    Fetch(p, at, c, 2);
    Fetch(p, at, c, 3);
    Fetch(p, at, c, 4);
    FindsDefinition(p.code, end, at + 4);
  }

  /** The two exits of `&&` and `||` meet behind the end label. */
  lemma LogicExit(p: Machine, s: State, isAnd: bool, short: Label, end: Label, at: int, decided: bool)
    returns (t: State)
    requires UniqueLabels(p.code) && s.status == Running
    requires At(p, at, [MovImm(if isAnd then 1 else 0), Jmp(end), Def(short), MovImm(if isAnd then 0 else 1), Def(end)])
    requires s.pc == if decided then at + 2 else at
    ensures Steps(p, s, 3) == t
    ensures t == s.(pc := at + 5, eax := if decided == isAnd then 0 else 1)
  {
    hide Step, Steps;
    LogicParts(p, isAnd, short, end, at);
    hide At, UniqueLabels, Find;
    var t1, t2;
    if decided {
      t1 := StepDef(p, s);
      t2 := StepMovImm(p, t1);
    } else {
      t1 := StepMovImm(p, s);
      t2 := StepJmp(p, t1, end);
    }
    t := StepDef(p, t2);
    Chain(p, s, 1, t1, 1, t2);
    Chain(p, s, 2, t2, 1, t);
  }

  lemma StepDef(p: Machine, s: State) returns (t: State)
    requires s.status == Running && 0 <= s.pc < |p.code| && p.code[s.pc].Def?
    ensures Steps(p, s, 1) == t && t == s.(pc := s.pc + 1)
  {
    Steps1(p, s);
    t := Step(p, s);
  }

  lemma StepMovImm(p: Machine, s: State) returns (t: State)
    requires s.status == Running && 0 <= s.pc < |p.code| && p.code[s.pc].MovImm?
    ensures Steps(p, s, 1) == t && t == s.(pc := s.pc + 1, eax := Word(p.code[s.pc].n))
  {
    Steps1(p, s);
    t := Step(p, s);
  }

  lemma StepJmp(p: Machine, s: State, l: Label) returns (t: State)
    requires s.status == Running && 0 <= s.pc < |p.code| && p.code[s.pc] == Jmp(l)
    ensures Steps(p, s, 1) == t && t == s.(pc := Find(p.code, l))
  {
    Steps1(p, s);
    t := Step(p, s);
  }

  lemma SimLogical(p: Machine, m: Module, e: Value, fuel: nat, env: Env, w: World, slots: SlotMap, n: nat, s: State)
      returns (k: nat, t: State)
    requires e.And? || e.Or?
    requires Ready(p, m, EmitLogical(e, slots, n).code, env, w, slots, s)
    ensures Steps(p, s, k) == t
    ensures ValueDone(s, |EmitLogical(e, slots, n).code|, EvalLogical(m, p.x, fuel, e, env, w), fuel, slots, k, t)
    decreases fuel, e, 2
  {
    hide Eval, EmitValue, Linked, Step, Layout, Stored, Same, At;
    var short := Numbered(if e.And? then LogicFalse else LogicTrue, n);
    var end := Numbered(LogicEnd, n + 1);
    var cond := if e.And? then E else NE;
    var test := [CmpAl, Jcc(cond, short)];
    var a := EmitValue(e.lhs, slots, n + 2);
    var b := EmitValue(e.rhs, slots, a.next);
    var tail := [MovImm(if e.And? then 1 else 0), Jmp(end), Def(short), MovImm(if e.And? then 0 else 1), Def(end)];
    var at := s.pc + |a.code| + 2 + |b.code| + 2;
    assert UniqueLabels(p.code) by { LinkedLabels(p, m); }
    Pieces5(p, s.pc, a.code, test, b.code, test, tail);
    k, t := SimValue(p, m, e.lhs, fuel, env, w, slots, n + 2, s);
    var r := Eval(m, p.x, fuel, e.lhs, env, w);
    if !r.Ok? || !r.v.Boolean? { return; }
    var u := LogicTest(p, t, e.And?, short, end, at, r.v.b);
    Chain(p, s, k, t, 2, u);
    k := k + 2;
    if r.v.b == e.Or? {
      t := LogicExit(p, u, e.And?, short, end, at, true);
      Chain(p, s, k, u, 3, t);
      k := k + 3;
      return;
    }
    var k2, v := SimValue(p, m, e.rhs, fuel, r.env, r.w, slots, a.next, u);
    Chain(p, s, k, u, k2, v);
    k := k + k2;
    var q := Eval(m, p.x, fuel, e.rhs, r.env, r.w);
    if !q.Ok? || !q.v.Boolean? { t := v; return; }
    SameTrans(slots, s.esp, s.ebp, s.mem, t.mem, v.mem);
    var y := LogicTest(p, v, e.And?, short, end, at, q.v.b);
    Chain(p, s, k, v, 2, y);
    k := k + 2;
    t := LogicExit(p, y, e.And?, short, end, at, q.v.b == e.Or?);
    Chain(p, s, k, y, 3, t);
    k := k + 3;
  }

  lemma LinkedLabels(p: Machine, m: Module)
    requires Linked(p, m)
    ensures UniqueLabels(p.code)
  {
  }

  /** The test after an operand falls through or takes the short way out. */
  lemma LogicTest(p: Machine, s: State, isAnd: bool, short: Label, end: Label, at: int, b: bool) returns (t: State)
    requires UniqueLabels(p.code) && s.status == Running && s.eax == Enc(Boolean(b))
    requires At(p, at, [MovImm(if isAnd then 1 else 0), Jmp(end), Def(short), MovImm(if isAnd then 0 else 1), Def(end)])
    requires At(p, s.pc, [CmpAl, Jcc(if isAnd then E else NE, short)])
    ensures Steps(p, s, 2) == t
    ensures t == s.(pc := if b == isAnd then s.pc + 2 else at + 2, flags := t.flags)
  {
    Fetch(p, at, [MovImm(if isAnd then 1 else 0), Jmp(end), Def(short), MovImm(if isAnd then 0 else 1), Def(end)], 2);
    FindsDefinition(p.code, short, at + 2);
    t := Branch(p, s, if isAnd then E else NE, short, b);
  }

  /** What pushing the arguments achieves: argument `i` lies `4 * i` bytes above
      the stack pointer. */
  ghost predicate ArgsDone(s: State, len: nat, r: Res<seq<Val>>, fuel: nat, slots: SlotMap, k: nat, t: State) {
    match r
    case Ok(vs, env, w) =>
      && t == s.(pc := s.pc + len, eax := t.eax, ecx := t.ecx, edx := t.edx, flags := t.flags,
                 esp := s.esp - 4 * |vs|, mem := t.mem, world := w)
      && Rel(env, slots, t) && Preserved(s, t, slots)
      && Layout(slots, s.esp, s.ebp) && ArgsAt(t.mem, t.esp, vs)
    case Trap(w) => t.status == Divide && t.world == w
    case Timeout => t.status == Running && k >= fuel
    case Wrong => true
  }

  predicate ArgsAt(mem: map<int, int>, a: int, vs: seq<Val>) {
    forall i :: 0 <= i < |vs| ==> Load(mem, a + 4 * i) == Enc(vs[i])
  }

  /** The code of the other arguments, of the first one, and its push. */
  lemma ArgParts(p: Machine, args: seq<Value>, slots: SlotMap, n: nat, at: int)
    requires args != [] && At(p, at, EmitArgs(args, slots, n).code)
    ensures var a := EmitArgs(args[1..], slots, n);
      var b := EmitValue(args[0], slots, a.next);
      && At(p, at, a.code) && At(p, at + |a.code|, b.code) && At(p, at + |a.code| + |b.code|, [PushEax])
      && |EmitArgs(args, slots, n).code| == |a.code| + |b.code| + 1
  {
    hide EmitValue, At;
    var a := EmitArgs(args[1..], slots, n);
    var b := EmitValue(args[0], slots, a.next);
    Split(p, at, a.code, b.code + [PushEax]);
    Split(p, at + |a.code|, b.code, [PushEax]);
  }

  lemma SimArgs(p: Machine, m: Module, args: seq<Value>, fuel: nat, env: Env, w: World, slots: SlotMap, n: nat,
                s: State)
      returns (k: nat, t: State)
    requires Ready(p, m, EmitArgs(args, slots, n).code, env, w, slots, s)
    ensures Steps(p, s, k) == t
    ensures ArgsDone(s, |EmitArgs(args, slots, n).code|, EvalArgs(m, p.x, fuel, args, env, w), fuel, slots, k, t)
    decreases fuel, args, 0
  {
    hide Eval, EmitValue, Linked, Step, Layout, Stored, Same, At, ArgsAt, Steps, Enc, Load, Find;
    if args == [] {
      k, t := 0, s;
      Steps0(p, s);
      NoArgs(s.mem, s.esp);
      SameRefl(slots, s.esp, s.ebp, s.mem);
      return;
    }
    ArgParts(p, args, slots, n, s.pc);
    hide EmitArgs;
    var a := EmitArgs(args[1..], slots, n);
    var b := EmitValue(args[0], slots, a.next);
    k, t := SimArgs(p, m, args[1..], fuel, env, w, slots, n, s);
    var r := EvalArgs(m, p.x, fuel, args[1..], env, w);
    if !r.Ok? { return; }
    var k2, u := SimValue(p, m, args[0], fuel, r.env, r.w, slots, a.next, t);
    Chain(p, s, k, t, k2, u);
    k := k + k2;
    var q := Eval(m, p.x, fuel, args[0], r.env, r.w);
    if !q.Ok? { t := u; return; }
    var v := SimPush(p, q.env, slots, u);
    Pushed(slots, s.esp, s.ebp, s.mem, t.mem, u.mem, r.v, q.v);
    Chain(p, s, k, u, 1, v);
    k, t := k + 1, v;
  }

  lemma NoArgs(mem: map<int, int>, a: int)
    ensures ArgsAt(mem, a, [])
  {
  }

  /** The value of one more argument goes below those already pushed. */
  lemma Pushed(slots: SlotMap, esp: int, ebp: int, m0: map<int, int>, m1: map<int, int>, m2: map<int, int>,
               vs: seq<Val>, v: Val)
    requires Layout(slots, esp, ebp)
    requires Same(slots, esp, ebp, m0, m1) && Same(slots, esp - 4 * |vs|, ebp, m1, m2)
    requires ArgsAt(m1, esp - 4 * |vs|, vs)
    ensures var low := esp - 4 * |vs| - 4;
      ArgsAt(m2[low := Enc(v)], low, [v] + vs) && Same(slots, esp, ebp, m0, m2[low := Enc(v)])
  {
    var low := esp - 4 * |vs| - 4;
    var m3 := m2[low := Enc(v)];
    forall i | 0 <= i < |[v] + vs|
      ensures Load(m3, low + 4 * i) == Enc(([v] + vs)[i])
    {
      if i > 0 {
        var a := low + 4 + 4 * (i - 1);
        assert !IsSlot(slots, a - ebp);
        assert Load(m1, a) == Enc(vs[i - 1]);
      }
    }
  }

  /** What a call achieves: control is back at the return address, the result is
      in `%eax`, the frame pointer is restored, and only memory below the
      caller's stack (including the arguments) has changed. */
  ghost predicate CallDone(s: State, argc: nat, r: Res<Val>, fuel: nat, k: nat, t: State) {
    match r
    case Ok(v, _, w) =>
      && t == s.(pc := Load(s.mem, s.esp), eax := Enc(v), ecx := t.ecx, edx := t.edx, flags := t.flags,
                 esp := s.esp + 4, mem := t.mem, world := w)
      && Unchanged(s.esp + 4 + 4 * argc, s.mem, t.mem)
    case Trap(w) => t.status == Divide && t.world == w
    case Timeout => t.status == Running && k >= fuel
    case Wrong => true
  }

  ghost predicate Unchanged(from: int, mem: map<int, int>, mem': map<int, int>) {
    forall a :: a >= from ==> Load(mem', a) == Load(mem, a)
  }

  lemma SimCallValue(p: Machine, m: Module, e: Value, fuel: nat, env: Env, w: World, slots: SlotMap, n: nat, s: State)
      returns (k: nat, t: State)
    requires e.Call?
    requires Ready(p, m, EmitCall(e, slots, n).code, env, w, slots, s)
    ensures Steps(p, s, k) == t
    ensures ValueDone(s, |EmitCall(e, slots, n).code|, EvalCall(m, p.x, fuel, e, env, w), fuel, slots, k, t)
    decreases fuel, e, 2
  {
    hide EvalArgs, EmitArgs, Linked, Step, Layout, Stored, Same, CallFunction, Unchanged, ArgsAt, At;
    var a := EmitArgs(e.args, slots, n);
    var clean := if e.args == [] then [] else [AddEsp(4 * |e.args|)];
    Split(p, s.pc, a.code, [CallTo(e.callee)] + clean);
    Split(p, s.pc + |a.code|, [CallTo(e.callee)], clean);
    k, t := SimArgs(p, m, e.args, fuel, env, w, slots, n, s);
    var r := EvalArgs(m, p.x, fuel, e.args, env, w);
    if !r.Ok? { return; }
    var c := CallFunction(m, p.x, fuel, e.callee, r.v, e.ty, r.w);
    Aligned(slots, t.esp, t.ebp);
    var k2, u := SimCallee(p, m, e.callee, r.v, e.ty, fuel, r.w, t);
    Chain(p, s, k, t, k2, u);
    k := k + k2;
    if !c.Ok? { t := u; return; }
    var k3, v := SimClean(p, |e.args|, u);
    Chain(p, s, k, u, k3, v);
    AfterCall(r.env, slots, s.esp, s.ebp, s.mem, t.mem, v.mem);
    k, t := k + k3, v;
  }

  lemma SimClean(p: Machine, argc: nat, u: State) returns (k: nat, v: State)
    requires u.status == Running && At(p, u.pc, if argc == 0 then [] else [AddEsp(4 * argc)])
    ensures Steps(p, u, k) == v
    ensures v == u.(pc := u.pc + (if argc == 0 then 0 else 1), esp := u.esp + 4 * argc, flags := v.flags)
  {
    k, v := 0, u;
    if argc > 0 {
      Fetch(p, u.pc, [AddEsp(4 * argc)], 0);
      Steps1(p, u);
      k, v := 1, Step(p, u);
    }
  }

  /** The callee leaves the caller's slots and everything above alone. */
  lemma AfterCall(env: Env, slots: SlotMap, esp: int, ebp: int, m0: map<int, int>, m1: map<int, int>, m2: map<int, int>)
    requires Layout(slots, esp, ebp) && Stored(env, slots, ebp, m1)
    requires Same(slots, esp, ebp, m0, m1) && Unchanged(esp, m1, m2)
    ensures Stored(env, slots, ebp, m2) && Same(slots, esp, ebp, m0, m2)
  {
  }

  /** What `call` achieves, seen from the call instruction. */
  ghost predicate CalleeDone(s: State, argc: nat, r: Res<Val>, fuel: nat, k: nat, t: State) {
    match r
    case Ok(v, _, w) =>
      && t == s.(pc := s.pc + 1, eax := Enc(v), ecx := t.ecx, edx := t.edx, flags := t.flags, mem := t.mem, world := w)
      && Unchanged(s.esp + 4 * argc, s.mem, t.mem)
    case Trap(w) => t.status == Divide && t.world == w
    case Timeout => t.status == Running && k >= fuel
    case Wrong => true
  }

  /** `call`: into a function of the module, or through an extern. */
  lemma SimCallee(p: Machine, m: Module, f: string, args: seq<Val>, ty: Type, fuel: nat, w: World, s: State)
      returns (k: nat, t: State)
    requires Linked(p, m) && s.status == Running && s.world == w && At(p, s.pc, [CallTo(f)])
    requires s.esp % 4 == 0 && s.ebp % 4 == 0 && ArgsAt(s.mem, s.esp, args)
    ensures Steps(p, s, k) == t
    ensures CalleeDone(s, |args|, CallFunction(m, p.x, fuel, f, args, ty, w), fuel, k, t)
    decreases fuel, f, 1
  {
    hide CallFunction, CallExtern, Step, HasLabel, Linked, Find, Unchanged;
    if m.Defines(f) {
      EntryLabel(p, m, f);
      var u := EnterCall(p, f, args, s);
      k, t := SimFunction(p, m, f, args, ty, fuel, w, u);
      Chain(p, s, 1, u, k, t);
      k := k + 1;
      if CallFunction(m, p.x, fuel, f, args, ty, w).Ok? {
        AboveReturn(s.esp + 4 * |args|, s.esp - 4, s.pc + 1, s.mem, t.mem);
      }
    } else {
      NotDefined(p, m, f, fuel, args, ty, w);
      t := SimExtern(p, f, args, ty, fuel, w, s);
      k := 1;
    }
  }

  lemma NotDefined(p: Machine, m: Module, f: string, fuel: nat, args: seq<Val>, ty: Type, w: World)
    requires Linked(p, m) && !m.Defines(f)
    ensures !HasLabel(p.code, FunctionOf(f))
    ensures CallFunction(m, p.x, fuel, f, args, ty, w) == CallExtern(p.x, f, args, ty, w)
  {
  }

  lemma AboveReturn(from: int, a: int, v: int, mem: map<int, int>, mem': map<int, int>)
    requires a < from && Unchanged(from, mem[a := v], mem')
    ensures Unchanged(from, mem, mem')
  {
  }

  lemma EnterCall(p: Machine, f: string, args: seq<Val>, s: State) returns (u: State)
    requires s.status == Running && At(p, s.pc, [CallTo(f)]) && HasLabel(p.code, FunctionOf(f))
    requires s.esp % 4 == 0 && ArgsAt(s.mem, s.esp, args)
    ensures Steps(p, s, 1) == u
    ensures u == s.(pc := Find(p.code, FunctionOf(f)), esp := s.esp - 4, mem := s.mem[s.esp - 4 := s.pc + 1])
    ensures ArgsAt(u.mem, u.esp + 4, args)
  {
    Fetch(p, s.pc, [CallTo(f)], 0);
    Steps1(p, s);
    u := Step(p, s);
  }

  lemma SimExtern(p: Machine, f: string, args: seq<Val>, ty: Type, fuel: nat, w: World, s: State) returns (t: State)
    requires s.status == Running && s.world == w && At(p, s.pc, [CallTo(f)]) && !HasLabel(p.code, FunctionOf(f))
    requires ArgsAt(s.mem, s.esp, args)
    ensures Steps(p, s, 1) == t
    ensures CalleeDone(s, |args|, CallExtern(p.x, f, args, ty, w), fuel, 1, t)
  {
    Fetch(p, s.pc, [CallTo(f)], 0);
    Steps1(p, s);
    t := Step(p, s);
    if f in p.x.arity && p.x.arity[f] == |args| {
      assert ArgWords(s.mem, s.esp, |args|) == EncAll(args);
      WordOfSigned(ExternResult(p.x, f, EncAll(args), w));
    }
  }

  lemma EntryLabel(p: Machine, m: Module, f: string)
    requires Linked(p, m) && m.Defines(f)
    ensures HasLabel(p.code, FunctionOf(f))
    ensures exists n :: At(p, Find(p.code, FunctionOf(f)), EmitFunction(m.functions[m.Index(f)], n).code)
  {
    var fn := m.functions[m.Index(f)];
    assert Loaded(p, fn);
    var pc, n :| At(p, pc, EmitFunction(fn, n).code);
    Fetch(p, pc, EmitFunction(fn, n).code, 0);
    FindsDefinition(p.code, FunctionOf(f), pc);
  }

  /** Parameters above the return address, all below `8 + 4 * argc`. */
  predicate ParamRange(slots: SlotMap, argc: nat) {
    forall x :: x in slots ==> 8 <= slots[x] < 8 + 4 * argc
  }

  /** Parameter `i` sits at `8 + 4 * i` above the frame pointer. */
  lemma {:induction false} ParamFrame(params: seq<Param>, args: seq<Val>, esp: int, ebp: int, mem: map<int, int>)
    requires ArgsFit(params, args) && ArgsAt(mem, ebp + 8, args)
    requires esp <= ebp && esp % 4 == 0 && ebp % 4 == 0
    ensures var slots, env := ParamSlots(params), Bind(params, args);
      && env.Keys == slots.Keys && Layout(slots, esp, ebp) && Stored(env, slots, ebp, mem)
      && Bounded(slots, 0) && ParamRange(slots, |args|)
    ensures forall x :: x in ParamSlots(params) ==> exists i :: 0 <= i < |params| && params[i].name == x
    decreases |params|
  {
    hide Layout, Stored, Bounded, ParamRange, Enc;
    if params == [] {
      NoParams(esp, ebp, mem);
    } else {
      var last := |params| - 1;
      FitPrefix(params, args, last, mem, ebp + 8);
      ParamFrame(params[..last], args[..last], esp, ebp, mem);
      var slots, env, x := ParamSlots(params[..last]), Bind(params[..last], args[..last]), params[last].name;
      assert x !in slots;
      AddParam(env, slots, last, esp, ebp, mem, x, args[last]);
    }
  }

  lemma NoParams(esp: int, ebp: int, mem: map<int, int>)
    requires esp <= ebp && esp % 4 == 0 && ebp % 4 == 0
    ensures Layout(map[], esp, ebp) && Stored(map[], map[], ebp, mem) && Bounded(map[], 0) && ParamRange(map[], 0)
  {
  }

  lemma FitPrefix(params: seq<Param>, args: seq<Val>, n: nat, mem: map<int, int>, a: int)
    requires ArgsFit(params, args) && ArgsAt(mem, a, args) && n < |params|
    ensures ArgsFit(params[..n], args[..n]) && ArgsAt(mem, a, args[..n])
    ensures Load(mem, a + 4 * n) == Enc(args[n])
    ensures forall i :: 0 <= i < n ==> params[..n][i].name != params[n].name
  {
  }

  lemma AddParam(env: Env, slots: SlotMap, n: nat, esp: int, ebp: int, mem: map<int, int>, x: string, v: Val)
    requires env.Keys == slots.Keys && Layout(slots, esp, ebp) && Stored(env, slots, ebp, mem)
    requires Bounded(slots, 0) && ParamRange(slots, n) && x !in slots && esp <= ebp
    requires Load(mem, ebp + 8 + 4 * n) == Enc(v)
    ensures var slots', env' := slots[x := 8 + 4 * n], env[x := v];
      && env'.Keys == slots'.Keys && Layout(slots', esp, ebp) && Stored(env', slots', ebp, mem)
      && Bounded(slots', 0) && ParamRange(slots', n + 1)
  {
    assert (8 + 4 * n) % 4 == 0;
  }

  /** The prologue saves the frame pointer and makes room for the locals. */
  lemma SimPrologue(p: Machine, f: Function, s: State) returns (k: nat, t: State)
    requires s.status == Running && At(p, s.pc, Prologue(f)) && s.esp % 4 == 0
    ensures k >= 1 && Steps(p, s, k) == t
    ensures t == s.(pc := s.pc + |Prologue(f)|, ebp := s.esp - 4, esp := s.esp - 4 - 4 * CountAll(f.body),
                    flags := t.flags, mem := s.mem[s.esp - 4 := s.ebp])
  {
    hide CountAll, Step, Steps;
    var c := Prologue(f);
    Fetch(p, s.pc, c, 0);
    Fetch(p, s.pc, c, 1);
    Fetch(p, s.pc, c, 2);
    var t1 := StepDef(p, s);
    var t2 := StepPushEbp(p, t1);
    t := StepSetFrame(p, t2);
    Chain(p, s, 1, t1, 1, t2);
    Chain(p, s, 2, t2, 1, t);
    k := 3;
    if CountAll(f.body) > 0 {
      Fetch(p, s.pc, c, 3);
      var u := SimReserve(p, 4 * CountAll(f.body), t);
      Chain(p, s, 3, t, 1, u);
      k, t := 4, u;
    }
  }

  lemma StepPushEbp(p: Machine, s: State) returns (t: State)
    requires s.status == Running && 0 <= s.pc < |p.code| && p.code[s.pc] == PushEbp && s.esp % 4 == 0
    ensures Steps(p, s, 1) == t && t == s.(pc := s.pc + 1, esp := s.esp - 4, mem := s.mem[s.esp - 4 := s.ebp])
  {
    Steps1(p, s);
    t := Step(p, s);
  }

  lemma StepSetFrame(p: Machine, s: State) returns (t: State)
    requires s.status == Running && 0 <= s.pc < |p.code| && p.code[s.pc] == MovEspEbp
    ensures Steps(p, s, 1) == t && t == s.(pc := s.pc + 1, ebp := s.esp)
  {
    Steps1(p, s);
    t := Step(p, s);
  }

  lemma SimReserve(p: Machine, bytes: nat, s: State) returns (t: State)
    requires s.status == Running && 0 <= s.pc < |p.code| && p.code[s.pc] == SubEsp(bytes)
    ensures Steps(p, s, 1) == t && t == s.(pc := s.pc + 1, esp := s.esp - bytes, flags := t.flags)
  {
    Steps1(p, s);
    t := Step(p, s);
  }

  lemma SimFunction(p: Machine, m: Module, f: string, args: seq<Val>, ty: Type, fuel: nat, w: World, s: State)
      returns (k: nat, t: State)
    requires Linked(p, m) && m.Defines(f) && s.status == Running && s.world == w
    requires s.pc == Find(p.code, FunctionOf(f)) && s.esp % 4 == 0 && s.ebp % 4 == 0
    requires ArgsAt(s.mem, s.esp + 4, args)
    ensures Steps(p, s, k) == t
    ensures CallDone(s, |args|, CallFunction(m, p.x, fuel, f, args, ty, w), fuel, k, t)
    decreases fuel, f, 0
  {
    hide Exec, EmitStmts, Step, Prologue, ParamSlots, Bind, Layout, Stored, Same, Unchanged, CallExtern, ArgsFit;
    hide Bounded, Linked, Find, ParamRange, At, ArgsAt, CountAll, EmitFunction, Steps;
    k, t := 0, s;
    if fuel == 0 { Steps0(p, s); return; }
    var fn := m.functions[m.Index(f)];
    if !ArgsFit(fn.params, args) || fn.ret != ty { Steps0(p, s); return; }
    SameCount(fn.params, args);
    var n := FunctionParts(p, m, f);
    var slots, env := ParamSlots(fn.params), Bind(fn.params, args);
    var b := EmitStmts(fn.body, slots, 0, n, NoLoop, ReturnOf(f));
    k, t := SimPrologue(p, fn, s);
    ArgsKept(s.mem, s.esp, s.ebp, args);
    ParamFrame(fn.params, args, t.esp, t.ebp, t.mem);
    var k2, u := SimStmts(p, m, fn.body, fuel - 1, env, w, slots, 0, n, NoLoop, ReturnOf(f), t);
    Chain(p, s, k, t, k2, u);
    k := k + k2;
    var o := Exec(m, p.x, fuel - 1, fn.body, env, w);
    if !o.Returned? { t := u; return; }
    var v := SimEpilogue(p, f, |args|, slots, s.esp, s.ebp, s.mem, u);
    Chain(p, s, k, u, 3, v);
    k, t := k + 3, v;
  }

  lemma Steps0(p: Machine, s: State)
    ensures Steps(p, s, 0) == s
  {
  }

  lemma FunctionCodeIs(fn: Function, n: nat)
    ensures var b := EmitStmts(fn.body, ParamSlots(fn.params), 0, n, NoLoop, ReturnOf(fn.name));
      EmitFunction(fn, n).code == Prologue(fn) + (b.code + [Def(ReturnOf(fn.name)), LeaveFrame, Ret])
  {
  }

  /** Where the parts of a function lie; `n` numbers its first label. */
  lemma FunctionParts(p: Machine, m: Module, f: string) returns (n: nat)
    requires Linked(p, m) && m.Defines(f)
    ensures var fn := m.functions[m.Index(f)];
      var at := Find(p.code, FunctionOf(f));
      var b := EmitStmts(fn.body, ParamSlots(fn.params), 0, n, NoLoop, ReturnOf(f));
      var end := at + |Prologue(fn)| + |b.code|;
      && At(p, at, Prologue(fn)) && At(p, at + |Prologue(fn)|, b.code)
      && At(p, end, [Def(ReturnOf(f)), LeaveFrame, Ret]) && Find(p.code, ReturnOf(f)) == end
  {
    hide EmitStmts, EmitFunction, ParamSlots, Prologue, At, Find, Linked;
    EntryLabel(p, m, f);
    var fn, at := m.functions[m.Index(f)], Find(p.code, FunctionOf(f));
    n :| At(p, Find(p.code, FunctionOf(f)), EmitFunction(fn, n).code);
    FunctionCodeIs(fn, n);
    var b := EmitStmts(fn.body, ParamSlots(fn.params), 0, n, NoLoop, ReturnOf(f));
    var tail := [Def(ReturnOf(f)), LeaveFrame, Ret];
    Split(p, at, Prologue(fn), b.code + tail);
    Split(p, at + |Prologue(fn)|, b.code, tail);
    ReturnLabel(p, m, f, at + |Prologue(fn)| + |b.code|);
  }

  lemma SameCount(params: seq<Param>, args: seq<Val>)
    requires ArgsFit(params, args)
    ensures |params| == |args|
  {
  }

  lemma ArgsKept(mem: map<int, int>, esp: int, v: int, args: seq<Val>)
    requires ArgsAt(mem, esp + 4, args)
    ensures ArgsAt(mem[esp - 4 := v], (esp - 4) + 8, args)
  {
  }

  lemma ReturnLabel(p: Machine, m: Module, f: string, at: int)
    requires Linked(p, m) && At(p, at, [Def(ReturnOf(f)), LeaveFrame, Ret])
    ensures Find(p.code, ReturnOf(f)) == at
  {
    Fetch(p, at, [Def(ReturnOf(f)), LeaveFrame, Ret], 0);
    FindsDefinition(p.code, ReturnOf(f), at);
  }

  /** The epilogue finds the saved frame pointer and the return address where
      the call and the prologue left them. */
  lemma SimEpilogue(p: Machine, f: string, argc: nat, slots: SlotMap, esp: int, ebp: int, mem: map<int, int>, u: State)
      returns (v: State)
    requires u.status == Running && At(p, u.pc, [Def(ReturnOf(f)), LeaveFrame, Ret])
    requires esp % 4 == 0 && u.ebp == esp - 4
    requires Same(slots, esp - 4, esp - 4, mem[esp - 4 := ebp], u.mem)
    requires ParamRange(slots, argc)
    ensures Steps(p, u, 3) == v
    ensures v == u.(pc := Load(mem, esp), esp := esp + 4, ebp := ebp)
    ensures Unchanged(esp + 4 + 4 * argc, mem, v.mem)
  {
    hide Step, Steps, Same;
    var c := [Def(ReturnOf(f)), LeaveFrame, Ret];
    Fetch(p, u.pc, c, 0);
    Fetch(p, u.pc, c, 1);
    Fetch(p, u.pc, c, 2);
    FrameKept(argc, slots, esp, ebp, mem, u.mem);
    var t1 := StepDef(p, u);
    var t2 := StepLeave(p, t1);
    v := StepRet(p, t2);
    Chain(p, u, 1, t1, 1, t2);
    Chain(p, u, 2, t2, 1, v);
  }

  /** The saved frame pointer, the return address and what lies above the
      arguments are as they were at the call. */
  lemma FrameKept(argc: nat, slots: SlotMap, esp: int, ebp: int, mem: map<int, int>, mem': map<int, int>)
    requires Same(slots, esp - 4, esp - 4, mem[esp - 4 := ebp], mem') && ParamRange(slots, argc)
    ensures Load(mem', esp - 4) == ebp && Load(mem', esp) == Load(mem, esp) && Unchanged(esp + 4 + 4 * argc, mem, mem')
  {
    assert !IsSlot(slots, 0) && !IsSlot(slots, 4);
    forall a | a >= esp + 4 + 4 * argc ensures Load(mem', a) == Load(mem, a) {
      assert !IsSlot(slots, a - (esp - 4));
    }
  }

  lemma StepLeave(p: Machine, s: State) returns (t: State)
    requires s.status == Running && 0 <= s.pc < |p.code| && p.code[s.pc] == LeaveFrame && s.ebp % 4 == 0
    ensures Steps(p, s, 1) == t && t == s.(pc := s.pc + 1, esp := s.ebp + 4, ebp := Load(s.mem, s.ebp))
  {
    Steps1(p, s);
    t := Step(p, s);
  }

  lemma StepRet(p: Machine, s: State) returns (t: State)
    requires s.status == Running && 0 <= s.pc < |p.code| && p.code[s.pc] == Ret && s.esp % 4 == 0
    ensures Steps(p, s, 1) == t && t == s.(pc := Load(s.mem, s.esp), esp := s.esp + 4)
  {
    Steps1(p, s);
    t := Step(p, s);
  }

  /** Slots of `d` locals at most, below the frame pointer, and parameters above
      the return address. */
  predicate Bounded(slots: SlotMap, d: nat) {
    forall x :: x in slots ==> slots[x] >= 8 || -4 * d <= slots[x] < 0
  }

  /** A statement only adds slots, below the frame pointer. */
  predicate Grown(slots: SlotMap, slots': SlotMap, d: nat) {
    && (forall x :: x in slots ==> x in slots' && slots'[x] == slots[x])
    && (forall x :: x in slots' && x !in slots ==> slots'[x] < 0)
    && Bounded(slots', d)
  }

  /** From the frame pointer up, a statement changes nothing but slots. */
  ghost predicate Kept(s: State, t: State, slots: SlotMap) {
    Same(slots, s.ebp, s.ebp, s.mem, t.mem)
  }

  /** Same stack and frame; only registers, memory and world may differ. */
  predicate SameFrame(s: State, t: State, pc: int, w: World) {
    t == s.(pc := pc, eax := t.eax, ecx := t.ecx, edx := t.edx, flags := t.flags, mem := t.mem, world := w)
  }

  ghost predicate Exited(p: Machine, s: State, env: Env, w: World, slots: SlotMap, at: Label, t: State) {
    SameFrame(s, t, Find(p.code, at), w) && Stored(env, slots, t.ebp, t.mem) && Kept(s, t, slots)
  }

  /** What running the code of a statement achieves, outcome by outcome:
      falling through ends behind the code, `break`, `continue` and `return`
      end at their label. */
  ghost predicate StmtDone(
      p: Machine, s: State, end: int, o: Out, fuel: nat, slots: SlotMap, slots': SlotMap, d: nat,
      lo: Loop, ret: Label, k: nat, t: State)
  {
    match o
    case Normal(env, w) =>
      SameFrame(s, t, end, w) && Rel(env, slots', t) && Kept(s, t, slots) && Grown(slots, slots', d)
    case Broke(env, w) => lo.InLoop? ==> Exited(p, s, env, w, slots, lo.end, t)
    case Continued(env, w) => lo.InLoop? ==> Exited(p, s, env, w, slots, lo.start, t)
    case Returned(v, w) => SameFrame(s, t, Find(p.code, ret), w) && t.eax == Enc(v) && Kept(s, t, slots)
    case Trapped(w) => t.status == Divide && t.world == w
    case OutOfFuel => t.status == Running && k >= fuel
    case Bad => true
  }

  ghost predicate StmtReady(
      p: Machine, m: Module, code: seq<Instr>, env: Env, w: World, slots: SlotMap, d: nat, need: nat, s: State)
  {
    Ready(p, m, code, env, w, slots, s) && Bounded(slots, d) && s.esp <= s.ebp - 4 * (d + need)
  }

  lemma KeptTrans(slots: SlotMap, slots': SlotMap, d: nat, ebp: int, m0: map<int, int>, m1: map<int, int>, m2: map<int,
                  int>)
    requires Same(slots, ebp, ebp, m0, m1) && Same(slots', ebp, ebp, m1, m2) && Grown(slots, slots', d)
    ensures Same(slots, ebp, ebp, m0, m2)
  {
    forall a | a >= ebp && !IsSlot(slots, a - ebp)
      ensures Load(m2, a) == Load(m0, a)
    {
      assert !IsSlot(slots', a - ebp);
    }
  }

  lemma StoredOuter(env: Env, slots: SlotMap, slots': SlotMap, d: nat, ebp: int, mem: map<int, int>)
    requires Stored(env, slots', ebp, mem) && Grown(slots, slots', d)
    ensures Stored(env, slots, ebp, mem)
  {
  }

  /** Prefixes a run by `i` steps that stay in the same frame. */
  lemma Then(p: Machine, s: State, i: nat, u: State, end: int, o: Out, fuel: nat, fuel': nat,
             slots: SlotMap, mid: SlotMap, slots': SlotMap, d: nat, d': nat, lo: Loop, ret: Label, j: nat, t: State)
    requires Steps(p, s, i) == u && Steps(p, u, j) == t
    requires SameFrame(s, u, u.pc, u.world) && Kept(s, u, slots) && Grown(slots, mid, d)
    requires StmtDone(p, u, end, o, fuel', mid, slots', d', lo, ret, j, t)
    requires fuel <= i + fuel'
    ensures Steps(p, s, i + j) == t
    ensures StmtDone(p, s, end, o, fuel, slots, slots', d', lo, ret, i + j, t)
  {
    hide Same, Layout, Stored, Step, Grown;
    Chain(p, s, i, u, j, t);
    if o.Normal? || o.Returned? || (lo.InLoop? && (o.Broke? || o.Continued?)) {
      KeptTrans(slots, mid, d, s.ebp, s.mem, u.mem, t.mem);
    }
    if lo.InLoop? && (o.Broke? || o.Continued?) { StoredOuter(o.env, slots, mid, d, t.ebp, t.mem); }
    if o.Normal? { GrownTrans(slots, mid, slots', d, d'); }
  }

  /** A wider frame bound is met as well. */
  lemma Widen(p: Machine, s: State, end: int, o: Out, fuel: nat, slots: SlotMap, d: nat, d': nat,
              lo: Loop, ret: Label, k: nat, t: State)
    requires StmtDone(p, s, end, o, fuel, slots, slots, d, lo, ret, k, t) && d <= d'
    ensures StmtDone(p, s, end, o, fuel, slots, slots, d', lo, ret, k, t)
  {
    hide Same, Layout, Stored;
    if o.Normal? { GrownSelf(slots, d, d'); }
  }

  lemma GrownSelf(slots: SlotMap, d: nat, d': nat)
    requires Bounded(slots, d) && d <= d'
    ensures Grown(slots, slots, d')
  {
  }

  lemma GrownTrans(a: SlotMap, b: SlotMap, c: SlotMap, d: nat, d': nat)
    requires Grown(a, b, d) && Grown(b, c, d')
    ensures Grown(a, c, d')
  {
  }

  lemma SimStmts(p: Machine, m: Module, body: seq<Stmt>, fuel: nat, env: Env, w: World, slots: SlotMap, d: nat, n: nat,
                 lo: Loop, ret: Label, s: State) returns (k: nat, t: State)
    requires StmtReady(p, m, EmitStmts(body, slots, d, n, lo, ret).code, env, w, slots, d, CountAll(body), s)
    ensures Steps(p, s, k) == t
    ensures var c := EmitStmts(body, slots, d, n, lo, ret);
      StmtDone(p, s, s.pc + |c.code|, Exec(m, p.x, fuel, body, env, w), fuel, slots, c.slots,
               d + CountAll(body), lo, ret, k, t)
    decreases fuel, body, 0
  {
    hide ExecStmt, EmitStmt, Count, Same, Layout, Stored, Bounded, Step, At, Linked, StmtDone, Steps, Find, Grown;
    if body == [] {
      k, t := 0, s;
      Steps0(p, s);
      StartKept(s, s, slots);
      InScopeDone(p, s, s, env, w, fuel, slots, d, d, lo, ret, 0);
      return;
    }
    var a := EmitStmt(body[0], slots, d, n, lo, ret);
    var d' := d + Count(body[0]);
    var b := EmitStmts(body[1..], a.slots, d', a.next, lo, ret);
    var end := s.pc + |a.code| + |b.code|;
    Split(p, s.pc, a.code, b.code);
    k, t := SimStmt(p, m, body[0], fuel, env, w, slots, d, n, lo, ret, s);
    var o := ExecStmt(m, p.x, fuel, body[0], env, w);
    if !o.Normal? {
      StoppedEarly(p, s, s.pc + |a.code|, end, o, fuel, slots, a.slots, b.slots, d', d + CountAll(body), lo, ret, k, t);
      return;
    }
    NormalAt(p, s, s.pc + |a.code|, o, fuel, slots, a.slots, d', lo, ret, k, t);
    GrownBy(p, s, s.pc + |a.code|, o, fuel, slots, a.slots, d', lo, ret, k, t);
    var k2, u := SimStmts(p, m, body[1..], fuel, o.env, o.w, a.slots, d', a.next, lo, ret, t);
    Then(p, s, k, t, end, Exec(m, p.x, fuel, body[1..], o.env, o.w), fuel, fuel,
         slots, a.slots, b.slots, d', d + CountAll(body), lo, ret, k2, u);
    k, t := k + k2, u;
  }

  /** What is not reached has no part in other outcomes. */
  lemma StoppedEarly(p: Machine, s: State, end: int, end': int, o: Out, fuel: nat, slots: SlotMap, mid: SlotMap,
                     slots': SlotMap, d: nat, d': nat, lo: Loop, ret: Label, k: nat, t: State)
    requires StmtDone(p, s, end, o, fuel, slots, mid, d, lo, ret, k, t) && !o.Normal?
    ensures StmtDone(p, s, end', o, fuel, slots, slots', d', lo, ret, k, t)
  {
  }

  /** A block leaves the slots of the enclosing scope as its names had them. */
  lemma SimBlock(p: Machine, m: Module, body: seq<Stmt>, fuel: nat, env: Env, w: World, outer: Env, slots: SlotMap,
                 d: nat, n: nat, lo: Loop, ret: Label, s: State) returns (k: nat, t: State)
    requires StmtReady(p, m, EmitStmts(body, slots, d, n, lo, ret).code, env, w, slots, d, CountAll(body), s)
    requires outer.Keys == slots.Keys
    ensures Steps(p, s, k) == t
    ensures StmtDone(p, s, s.pc + |EmitStmts(body, slots, d, n, lo, ret).code|,
                     Leave(Exec(m, p.x, fuel, body, env, w), outer), fuel, slots, slots, d, lo, ret, k, t)
    decreases fuel, body, 1
  {
    hide Exec, EmitStmts, CountAll, Same, Layout, Stored, Bounded, Step, At, Linked, StmtDone, Leave;
    k, t := SimStmts(p, m, body, fuel, env, w, slots, d, n, lo, ret, s);
    var o := Exec(m, p.x, fuel, body, env, w);
    var c := EmitStmts(body, slots, d, n, lo, ret);
    LeaveDone(p, s, s.pc + |c.code|, o, fuel, slots, c.slots, d, d + CountAll(body), lo, ret, k, t, outer);
  }

  lemma LeaveDone(p: Machine, s: State, end: int, o: Out, fuel: nat, slots: SlotMap, slots': SlotMap, d: nat, d': nat,
                  lo: Loop, ret: Label, k: nat, t: State, outer: Env)
    requires StmtDone(p, s, end, o, fuel, slots, slots', d', lo, ret, k, t)
    requires Layout(slots, s.esp, s.ebp) && outer.Keys == slots.Keys && Bounded(slots, d)
    ensures StmtDone(p, s, end, Leave(o, outer), fuel, slots, slots, d, lo, ret, k, t)
  {
    hide Same, Layout, Stored, Bounded, Step, Restrict;
    if o.Normal? {
      StoredOuter(o.env, slots, slots', d', t.ebp, t.mem);
      Restricted(o.env, outer, slots, t.ebp, t.mem);
      GrownSelf(slots, d, d);
    } else if (o.Broke? || o.Continued?) && lo.InLoop? {
      Restricted(o.env, outer, slots, t.ebp, t.mem);
    }
  }

  lemma Restricted(inner: Env, outer: Env, slots: SlotMap, ebp: int, mem: map<int, int>)
    requires Stored(inner, slots, ebp, mem) && outer.Keys == slots.Keys
    ensures Restrict(inner, outer.Keys).Keys == slots.Keys
    ensures Stored(Restrict(inner, outer.Keys), slots, ebp, mem)
  {
    assert Restrict(inner, outer.Keys).Keys == slots.Keys;
  }

  lemma SimStmt(p: Machine, m: Module, st: Stmt, fuel: nat, env: Env, w: World, slots: SlotMap, d: nat, n: nat,
                lo: Loop, ret: Label, s: State) returns (k: nat, t: State)
    requires StmtReady(p, m, EmitStmt(st, slots, d, n, lo, ret).code, env, w, slots, d, Count(st), s)
    ensures Steps(p, s, k) == t
    ensures var c := EmitStmt(st, slots, d, n, lo, ret);
      StmtDone(p, s, s.pc + |c.code|, ExecStmt(m, p.x, fuel, st, env, w), fuel, slots, c.slots,
               d + Count(st), lo, ret, k, t)
    decreases fuel, st, 4
  {
    hide ExecLet, ExecAssign, ExecIf, ExecLoop, ExecFor, ExecMatch, Eval, EmitIf, EmitWhile, EmitFor, EmitMatch;
    hide EmitValue;
    hide Same, Layout, Stored, Bounded, Step, At, Linked, CountAll, CountArms;
    match st
    case Let(_, _, _) => k, t := SimLet(p, m, st, fuel, env, w, slots, d, n, lo, ret, s);
    case Assign(_, _) => k, t := SimAssign(p, m, st, fuel, env, w, slots, d, n, lo, ret, s);
    case Expr(e) => k, t := SimExpr(p, m, e, fuel, env, w, slots, d, n, lo, ret, s);
    case Return(e) => k, t := SimReturn(p, m, e, fuel, env, w, slots, d, n, lo, ret, s);
    case If(_, _, _) => k, t := SimIf(p, m, st, fuel, env, w, slots, d, n, lo, ret, s);
    case While(_, _) => k, t := SimWhile(p, m, st, fuel, env, w, slots, d, n, lo, ret, s);
    case For(_, _, _, _) => k, t := SimFor(p, m, st, fuel, env, w, slots, d, n, lo, ret, s);
    case Match(_, _, _) => k, t := SimMatch(p, m, st, fuel, env, w, slots, d, n, lo, ret, s);
    case Break =>
      t := SimJump(p, EndOf(lo), s);
      k := 1;
      SameRefl(slots, s.ebp, s.ebp, s.mem);
    case Continue =>
      t := SimJump(p, StartOf(lo), s);
      k := 1;
      SameRefl(slots, s.ebp, s.ebp, s.mem);
  }

  lemma SimJump(p: Machine, l: Label, s: State) returns (t: State)
    requires s.status == Running && At(p, s.pc, [Jmp(l)])
    ensures Steps(p, s, 1) == t && t == s.(pc := Find(p.code, l))
  {
    Fetch(p, s.pc, [Jmp(l)], 0);
    Steps1(p, s);
    t := Step(p, s);
  }

  /** The frame part of what evaluating a value preserves. */
  lemma KeptByValue(slots: SlotMap, esp: int, ebp: int, mem: map<int, int>, mem': map<int, int>)
    requires Same(slots, esp, ebp, mem, mem') && esp <= ebp
    ensures Same(slots, ebp, ebp, mem, mem')
  {
  }

  lemma SimExpr(p: Machine, m: Module, e: Value, fuel: nat, env: Env, w: World, slots: SlotMap, d: nat, n: nat,
                lo: Loop, ret: Label, s: State) returns (k: nat, t: State)
    requires StmtReady(p, m, EmitValue(e, slots, n).code, env, w, slots, d, 0, s)
    ensures Steps(p, s, k) == t
    ensures var r := Eval(m, p.x, fuel, e, env, w);
      StmtDone(p, s, s.pc + |EmitValue(e, slots, n).code|, if r.Ok? then Normal(r.env, r.w) else Failed(r), fuel,
               slots, slots, d, lo, ret, k, t)
    decreases fuel, e, 4
  {
    hide Eval, EmitValue, Same, Layout, Stored, Step, Bounded, At, Linked;
    k, t := SimValue(p, m, e, fuel, env, w, slots, n, s);
    if Eval(m, p.x, fuel, e, env, w).Ok? {
      KeptByValue(slots, s.esp, s.ebp, s.mem, t.mem);
      GrownSelf(slots, d, d);
    }
  }

  lemma SimReturn(p: Machine, m: Module, e: Value, fuel: nat, env: Env, w: World, slots: SlotMap, d: nat, n: nat,
                  lo: Loop, ret: Label, s: State) returns (k: nat, t: State)
    requires StmtReady(p, m, EmitValue(e, slots, n).code + [Jmp(ret)], env, w, slots, d, 0, s)
    ensures Steps(p, s, k) == t
    ensures var r := Eval(m, p.x, fuel, e, env, w);
      StmtDone(p, s, s.pc + |EmitValue(e, slots, n).code| + 1, if r.Ok? then Returned(r.v, r.w) else Failed(r), fuel,
               slots, slots, d, lo, ret, k, t)
    decreases fuel, e, 4
  {
    hide Eval, EmitValue, Same, Layout, Stored, Step, Bounded, At, Linked;
    Split(p, s.pc, EmitValue(e, slots, n).code, [Jmp(ret)]);
    k, t := SimValue(p, m, e, fuel, env, w, slots, n, s);
    if Eval(m, p.x, fuel, e, env, w).Ok? {
      KeptByValue(slots, s.esp, s.ebp, s.mem, t.mem);
      var u := SimJump(p, ret, t);
      Chain(p, s, k, t, 1, u);
      k, t := k + 1, u;
    }
  }

  lemma SimLet(p: Machine, m: Module, st: Stmt, fuel: nat, env: Env, w: World, slots: SlotMap, d: nat, n: nat,
               lo: Loop, ret: Label, s: State) returns (k: nat, t: State)
    requires st.Let?
    requires StmtReady(p, m, EmitValue(st.value, slots, n).code + [StoreSlot(NextSlot(d))], env, w, slots, d, 1, s)
    ensures Steps(p, s, k) == t
    ensures StmtDone(p, s, s.pc + |EmitValue(st.value, slots, n).code| + 1, ExecLet(m, p.x, fuel, st, env, w), fuel,
                     slots, slots[st.name := NextSlot(d)], d + 1, lo, ret, k, t)
    decreases fuel, st, 3
  {
    hide Eval, EmitValue, Same, Layout, Stored, Step, Bounded, At, Linked, Grown;
    Split(p, s.pc, EmitValue(st.value, slots, n).code, [StoreSlot(NextSlot(d))]);
    k, t := SimValue(p, m, st.value, fuel, env, w, slots, n, s);
    var r := Eval(m, p.x, fuel, st.value, env, w);
    if !r.Ok? || st.name in env { return; }
    KeptByValue(slots, s.esp, s.ebp, s.mem, t.mem);
    Aligned(slots, t.esp, t.ebp);
    var u := SimStore(p, NextSlot(d), t);
    NewSlot(r.env, slots, t.esp, t.ebp, t.mem, d, st.name, r.v);
    SameTrans(slots, s.ebp, s.ebp, s.mem, t.mem, u.mem);
    Chain(p, s, k, t, 1, u);
    k, t := k + 1, u;
  }

  lemma SimStore(p: Machine, o: int, t: State) returns (u: State)
    requires t.status == Running && At(p, t.pc, [StoreSlot(o)]) && t.ebp % 4 == 0 && o % 4 == 0
    ensures Steps(p, t, 1) == u
    ensures u == t.(pc := t.pc + 1, mem := t.mem[t.ebp + o := t.eax])
  {
    Fetch(p, t.pc, [StoreSlot(o)], 0);
    Steps1(p, t);
    u := Step(p, t);
  }

  /** The next slot below the frame is nobody else's. */
  lemma FreshSlot(env: Env, slots: SlotMap, ebp: int, mem: map<int, int>, d: nat, v: int)
    requires Stored(env, slots, ebp, mem) && Bounded(slots, d)
    ensures Stored(env, slots, ebp, mem[ebp + NextSlot(d) := v])
    ensures Same(slots, ebp, ebp, mem, mem[ebp + NextSlot(d) := v])
  {
  }

  lemma NewSlot(env: Env, slots: SlotMap, esp: int, ebp: int, mem: map<int, int>, d: nat, x: string, v: Val)
    requires env.Keys == slots.Keys && Layout(slots, esp, ebp) && Stored(env, slots, ebp, mem)
    requires Bounded(slots, d) && x !in slots && esp <= ebp - 4 * (d + 1)
    ensures var mem' := mem[ebp + NextSlot(d) := Enc(v)];
      var slots' := slots[x := NextSlot(d)];
      && env[x := v].Keys == slots'.Keys && Layout(slots', esp, ebp) && Stored(env[x := v], slots', ebp, mem')
      && Same(slots, ebp, ebp, mem, mem') && Grown(slots, slots', d + 1)
  {
    hide Layout, Stored, Same, Bounded, Grown, NextSlot;
    FreshSlot(env, slots, ebp, mem, d, Enc(v));
    assert env[x := v].Keys == slots[x := NextSlot(d)].Keys;
    NewLayout(slots, esp, ebp, d, x);
    NewStored(env, slots, ebp, mem, d, x, v);
  }

  lemma NewLayout(slots: SlotMap, esp: int, ebp: int, d: nat, x: string)
    requires Layout(slots, esp, ebp) && Bounded(slots, d) && x !in slots && esp <= ebp - 4 * (d + 1)
    ensures Layout(slots[x := NextSlot(d)], esp, ebp) && Grown(slots, slots[x := NextSlot(d)], d + 1)
  {
    var grown := slots[x := NextSlot(d)];
    assert forall y :: y in slots ==> slots[y] != NextSlot(d);
    NextSlotAligned(d);
    hide NextSlot;
    forall y | y in grown ensures grown[y] % 4 == 0 && esp <= ebp + grown[y] {
      if y != x { assert y in slots; }
    }
    forall y, z | y in grown && z in grown && y != z ensures grown[y] != grown[z] {
      assert y == x || y in slots;
      assert z == x || z in slots;
    }
    assert Bounded(grown, d + 1);
  }

  lemma NextSlotAligned(d: nat)
    ensures NextSlot(d) == -4 * (d + 1) && NextSlot(d) % 4 == 0
  {
  }

  lemma NewStored(env: Env, slots: SlotMap, ebp: int, mem: map<int, int>, d: nat, x: string, v: Val)
    requires Stored(env, slots, ebp, mem) && Bounded(slots, d) && x !in slots
    ensures Stored(env[x := v], slots[x := NextSlot(d)], ebp, mem[ebp + NextSlot(d) := Enc(v)])
  {
    assert forall y :: y in slots ==> slots[y] != NextSlot(d);
  }

  lemma SimAssign(p: Machine, m: Module, st: Stmt, fuel: nat, env: Env, w: World, slots: SlotMap, d: nat, n: nat,
                  lo: Loop, ret: Label, s: State) returns (k: nat, t: State)
    requires st.Assign?
    requires StmtReady(p, m, EmitValue(st.value, slots, n).code +
      [if st.name in slots then StoreSlot(slots[st.name]) else StoreStatic(st.name)], env, w, slots, d, 0, s)
    ensures Steps(p, s, k) == t
    ensures StmtDone(p, s, s.pc + |EmitValue(st.value, slots, n).code| + 1, ExecAssign(m, p.x, fuel, st, env, w), fuel,
                     slots, slots, d, lo, ret, k, t)
    decreases fuel, st, 3
  {
    hide Eval, EmitValue, Same, Layout, Stored, Step, Bounded, At, Linked;
    var store := if st.name in slots then StoreSlot(slots[st.name]) else StoreStatic(st.name);
    Split(p, s.pc, EmitValue(st.value, slots, n).code, [store]);
    k, t := SimValue(p, m, st.value, fuel, env, w, slots, n, s);
    var r := Eval(m, p.x, fuel, st.value, env, w);
    if !r.Ok? { return; }
    GrownSelf(slots, d, d);
    var u;
    if st.name in slots {
      SlotAligned(slots, t.esp, t.ebp, st.name);
      u := SimStore(p, slots[st.name], t);
      StoreSlotOf(r.env, slots, t.esp, t.ebp, t.mem, st.name, r.v);
      SameTrans(slots, s.esp, s.ebp, s.mem, t.mem, u.mem);
    } else {
      u := SimStoreStatic(p, st.name, t);
    }
    KeptByValue(slots, s.esp, s.ebp, s.mem, u.mem);
    Chain(p, s, k, t, 1, u);
    k, t := k + 1, u;
  }

  lemma SlotAligned(slots: SlotMap, esp: int, ebp: int, x: string)
    requires Layout(slots, esp, ebp) && x in slots
    ensures slots[x] % 4 == 0 && ebp % 4 == 0
  {
  }

  lemma SimStoreStatic(p: Machine, name: string, t: State) returns (u: State)
    requires t.status == Running && At(p, t.pc, [StoreStatic(name)])
    ensures Steps(p, t, 1) == u
    ensures u == t.(pc := t.pc + 1, world := SetStatic(t.world, name, t.eax))
  {
    Fetch(p, t.pc, [StoreStatic(name)], 0);
    Steps1(p, t);
    u := Step(p, t);
  }

  /** After a condition and its branch: behind the branch if it holds, else at
      the label. */
  ghost predicate ConditionDone(p: Machine, s: State, len: nat, r: Res<Val>, other: Label, fuel: nat, slots: SlotMap,
                                k: nat, t: State)
  {
    match r
    case Ok(v, env, w) =>
      v.Boolean? ==>
        && SameFrame(s, t, if v.b then s.pc + len else Find(p.code, other), w)
        && Rel(env, slots, t) && Kept(s, t, slots)
    case Trap(w) => t.status == Divide && t.world == w
    case Timeout => t.status == Running && k >= fuel
    case Wrong => true
  }

  lemma SimCondition(p: Machine, m: Module, e: Value, fuel: nat, env: Env, w: World, slots: SlotMap, n: nat,
                     other: Label, s: State) returns (k: nat, t: State)
    requires Ready(p, m, EmitValue(e, slots, n).code + [CmpAl, Jcc(E, other)], env, w, slots, s) && s.esp <= s.ebp
    ensures Steps(p, s, k) == t
    ensures ConditionDone(p, s, |EmitValue(e, slots, n).code| + 2, Eval(m, p.x, fuel, e, env, w),
                          other, fuel, slots, k, t)
    decreases fuel, e, 4
  {
    hide Eval, EmitValue, Same, Layout, Stored, Step, At, Linked, Find;
    Split(p, s.pc, EmitValue(e, slots, n).code, [CmpAl, Jcc(E, other)]);
    k, t := SimValue(p, m, e, fuel, env, w, slots, n, s);
    var r := Eval(m, p.x, fuel, e, env, w);
    if !r.Ok? || !r.v.Boolean? { return; }
    KeptByValue(slots, s.esp, s.ebp, s.mem, t.mem);
    var u := Branch(p, t, E, other, r.v.b);
    Chain(p, s, k, t, 2, u);
    k, t := k + 2, u;
  }

  /** A condition that is not a bool decides the outcome of its statement. */
  lemma ConditionFailed(p: Machine, s: State, len: nat, r: Res<Val>, other: Label, fuel: nat, slots: SlotMap, k: nat,
                        t: State, end: int, d: nat, lo: Loop, ret: Label)
    requires ConditionDone(p, s, len, r, other, fuel, slots, k, t)
    requires !r.Ok? || !r.v.Boolean?
    ensures StmtDone(p, s, end, if r.Ok? then Bad else Failed(r), fuel, slots, slots, d, lo, ret, k, t)
  {
  }

  lemma NormalAt(p: Machine, s: State, end: int, o: Out, fuel: nat, slots: SlotMap, slots': SlotMap, d: nat,
                 lo: Loop, ret: Label, k: nat, t: State)
    requires StmtDone(p, s, end, o, fuel, slots, slots', d, lo, ret, k, t) && o.Normal?
    ensures SameFrame(s, t, end, o.w) && Rel(o.env, slots', t) && Kept(s, t, slots)
  {
  }

  lemma LabelAt(p: Machine, m: Module, l: Label, at: int)
    requires Linked(p, m) && At(p, at, [Def(l)])
    ensures Find(p.code, l) == at
  {
    Fetch(p, at, [Def(l)], 0);
    FindsDefinition(p.code, l, at);
  }

  /** Steps over label definitions or jumps that a normal outcome ends with. */
  lemma Onward(p: Machine, s: State, end: int, o: Out, fuel: nat, slots: SlotMap, d: nat, lo: Loop, ret: Label,
               k: nat, t: State, j: nat, u: State)
    requires Steps(p, s, k) == t && StmtDone(p, s, end, o, fuel, slots, slots, d, lo, ret, k, t)
    requires o.Normal? ==> Steps(p, t, j) == u && u == t.(pc := u.pc)
    ensures var k', t' := if o.Normal? then k + j else k, if o.Normal? then u else t;
      Steps(p, s, k') == t' && StmtDone(p, s, u.pc, o, fuel, slots, slots, d, lo, ret, k', t')
  {
    hide Same, Layout, Stored, Bounded, Step;
    if o.Normal? { Chain(p, s, k, t, j, u); }
  }

  /** Where the parts of an `if` lie. */
  lemma IfParts(p: Machine, m: Module, st: Stmt, slots: SlotMap, d: nat, n: nat, lo: Loop, ret: Label, at: int)
    requires st.If? && Linked(p, m) && At(p, at, EmitIf(st, slots, d, n, lo, ret).code)
    ensures var other, end := Numbered(Else, n), Numbered(EndIf, n + 1);
      var r := EmitValue(st.cond, slots, n + 2);
      var a := EmitStmts(st.thenBody, slots, d, r.next, lo, ret);
      var b := EmitStmts(st.elseBody, slots, d + CountAll(st.thenBody), a.next, lo, ret);
      var p2 := at + |r.code| + 2;
      var p3 := p2 + |a.code|;
      var p4 := p3 + 2 + |b.code|;
      && At(p, at, r.code + [CmpAl, Jcc(E, other)]) && At(p, p2, a.code) && At(p, p3, [Jmp(end)])
      && At(p, p3 + 1, [Def(other)]) && At(p, p3 + 2, b.code) && At(p, p4, [Def(end)])
      && Find(p.code, other) == p3 + 1 && Find(p.code, end) == p4
      && at + |EmitIf(st, slots, d, n, lo, ret).code| == p4 + 1
  {
    hide At, Linked, EmitValue, EmitStmts, CountAll, Find;
    var other, end := Numbered(Else, n), Numbered(EndIf, n + 1);
    var r := EmitValue(st.cond, slots, n + 2);
    var a := EmitStmts(st.thenBody, slots, d, r.next, lo, ret);
    var b := EmitStmts(st.elseBody, slots, d + CountAll(st.thenBody), a.next, lo, ret);
    var test, skip := [CmpAl, Jcc(E, other)], [Jmp(end), Def(other)];
    var p3 := at + |r.code| + 2 + |a.code|;
    Pieces6(p, at, r.code, test, a.code, skip, b.code, [Def(end)]);
    Join(p, at, r.code, test);
    assert skip == [Jmp(end)] + [Def(other)];
    Split(p, p3, [Jmp(end)], [Def(other)]);
    LabelAt(p, m, other, p3 + 1);
    LabelAt(p, m, end, p3 + 2 + |b.code|);
  }

  lemma SimIf(p: Machine, m: Module, st: Stmt, fuel: nat, env: Env, w: World, slots: SlotMap, d: nat, n: nat,
              lo: Loop, ret: Label, s: State) returns (k: nat, t: State)
    requires st.If?
    requires StmtReady(p, m, EmitIf(st, slots, d, n, lo, ret).code, env, w, slots, d,
                       CountAll(st.thenBody) + CountAll(st.elseBody), s)
    ensures Steps(p, s, k) == t
    ensures StmtDone(p, s, s.pc + |EmitIf(st, slots, d, n, lo, ret).code|, ExecIf(m, p.x, fuel, st, env, w), fuel,
                     slots, slots, d + CountAll(st.thenBody) + CountAll(st.elseBody), lo, ret, k, t)
    decreases fuel, st, 3
  {
    hide Eval, EmitValue, Same, Layout, Stored, Step, At, Linked, Exec, EmitStmts, CountAll, Leave, Bounded;
    hide StmtDone, Find, Grown, Steps, EmitIf;
    IfParts(p, m, st, slots, d, n, lo, ret, s.pc);
    var other, end := Numbered(Else, n), Numbered(EndIf, n + 1);
    var r := EmitValue(st.cond, slots, n + 2);
    var a := EmitStmts(st.thenBody, slots, d, r.next, lo, ret);
    var d' := d + CountAll(st.thenBody);
    var d2 := d' + CountAll(st.elseBody);
    var b := EmitStmts(st.elseBody, slots, d', a.next, lo, ret);
    var p3 := s.pc + |r.code| + 2 + |a.code|;
    var stop := p3 + 2 + |b.code| + 1;
    k, t := SimCondition(p, m, st.cond, fuel, env, w, slots, n + 2, other, s);
    var c := Eval(m, p.x, fuel, st.cond, env, w);
    if !c.Ok? || !c.v.Boolean? {
      ConditionFailed(p, s, |r.code| + 2, c, other, fuel, slots, k, t, stop, d2, lo, ret);
      return;
    }
    GrownSelf(slots, d, d);
    BoundedMore(slots, d, d');
    var o := ExecIf(m, p.x, fuel, st, env, w);
    var k2, v;
    if c.v.b {
      k2, v := SimThen(p, m, st.thenBody, end, stop, fuel, c.env, c.w, env, slots, d, d2, r.next, lo, ret, t);
    } else {
      Pass(p, t, other);
      var x := t.(pc := p3 + 2);
      Chain(p, s, k, t, 1, x);
      k2, v := SimElse(p, m, st.elseBody, end, stop, fuel, c.env, c.w, env, slots, d', d2, a.next, lo, ret, x);
      k, t := k + 1, x;
    }
    Then(p, s, k, t, stop, o, fuel, fuel, slots, slots, slots, d, d2, lo, ret, k2, v);
    k, t := k + k2, v;
  }

  /** A block followed by a jump to a label. */
  lemma SimThen(p: Machine, m: Module, body: seq<Stmt>, end: Label, stop: int, fuel: nat, env: Env, w: World,
                outer: Env,
                slots: SlotMap, d: nat, d2: nat, n: nat, lo: Loop, ret: Label, s: State) returns (k: nat, t: State)
    requires StmtReady(p, m, EmitStmts(body, slots, d, n, lo, ret).code, env, w, slots, d, CountAll(body), s)
    requires outer.Keys == slots.Keys && d <= d2
    requires At(p, s.pc + |EmitStmts(body, slots, d, n, lo, ret).code|, [Jmp(end)])
    requires At(p, stop - 1, [Def(end)]) && Find(p.code, end) == stop - 1
    ensures Steps(p, s, k) == t
    ensures StmtDone(p, s, stop, Leave(Exec(m, p.x, fuel, body, env, w), outer), fuel, slots, slots, d2, lo, ret, k, t)
    decreases fuel, body, 2
  {
    hide EmitStmts, Same, Layout, Stored, Step, At, Linked, Exec, CountAll, Leave, Bounded, StmtDone, Find, Grown;
    hide Steps;
    k, t := SimBlock(p, m, body, fuel, env, w, outer, slots, d, n, lo, ret, s);
    var o := Leave(Exec(m, p.x, fuel, body, env, w), outer);
    var at := s.pc + |EmitStmts(body, slots, d, n, lo, ret).code|;
    var u := t.(pc := stop);
    if o.Normal? {
      NormalAt(p, s, at, o, fuel, slots, slots, d, lo, ret, k, t);
      JumpPast(p, t, end, stop - 1);
    }
    Onward(p, s, at, o, fuel, slots, d, lo, ret, k, t, 2, u);
    k, t := if o.Normal? then k + 2 else k, if o.Normal? then u else t;
    Widen(p, s, stop, o, fuel, slots, d, d2, lo, ret, k, t);
  }

  /** A block followed by the definition of a label. */
  lemma SimElse(p: Machine, m: Module, body: seq<Stmt>, end: Label, stop: int, fuel: nat, env: Env, w: World,
                outer: Env,
                slots: SlotMap, d: nat, d2: nat, n: nat, lo: Loop, ret: Label, s: State) returns (k: nat, t: State)
    requires StmtReady(p, m, EmitStmts(body, slots, d, n, lo, ret).code, env, w, slots, d, CountAll(body), s)
    requires outer.Keys == slots.Keys && d <= d2
    requires stop - 1 == s.pc + |EmitStmts(body, slots, d, n, lo, ret).code| && At(p, stop - 1, [Def(end)])
    ensures Steps(p, s, k) == t
    ensures StmtDone(p, s, stop, Leave(Exec(m, p.x, fuel, body, env, w), outer), fuel, slots, slots, d2, lo, ret, k, t)
    decreases fuel, body, 2
  {
    hide EmitStmts, Same, Layout, Stored, Step, At, Linked, Exec, CountAll, Leave, Bounded, StmtDone, Find, Grown;
    hide Steps;
    k, t := SimBlock(p, m, body, fuel, env, w, outer, slots, d, n, lo, ret, s);
    var o := Leave(Exec(m, p.x, fuel, body, env, w), outer);
    var u := t.(pc := stop);
    if o.Normal? {
      NormalAt(p, s, stop - 1, o, fuel, slots, slots, d, lo, ret, k, t);
      Pass(p, t, end);
    }
    Onward(p, s, stop - 1, o, fuel, slots, d, lo, ret, k, t, 1, u);
    k, t := if o.Normal? then k + 1 else k, if o.Normal? then u else t;
    Widen(p, s, stop, o, fuel, slots, d, d2, lo, ret, k, t);
  }

  lemma BoundedMore(slots: SlotMap, d: nat, d': nat)
    requires Bounded(slots, d) && d <= d'
    ensures Bounded(slots, d')
  {
  }

  lemma JumpPast(p: Machine, s: State, l: Label, at: int)
    requires s.status == Running && Find(p.code, l) == at
    requires At(p, s.pc, [Jmp(l)]) && At(p, at, [Def(l)])
    ensures Steps(p, s, 2) == s.(pc := at + 1)
  {
    Fetch(p, s.pc, [Jmp(l)], 0);
    Fetch(p, at, [Def(l)], 0);
    Steps2(p, s);
  }

  /** Same frame, at `pc`, in environment `env`. */
  ghost predicate InScope(s: State, t: State, pc: int, env: Env, w: World, slots: SlotMap) {
    SameFrame(s, t, pc, w) && Rel(env, slots, t) && Kept(s, t, slots)
  }

  lemma InScopeTrans(s: State, t: State, u: State, slots: SlotMap, d: nat, pc: int, env: Env, w: World)
    requires SameFrame(s, t, t.pc, t.world) && Kept(s, t, slots) && InScope(t, u, pc, env, w, slots)
    ensures InScope(s, u, pc, env, w, slots)
  {
    hide Layout, Stored, Same, Step;
    SameTrans(slots, s.ebp, s.ebp, s.mem, t.mem, u.mem);
  }

  lemma InScopeDone(p: Machine, s: State, t: State, env: Env, w: World, fuel: nat, slots: SlotMap, d: nat, d': nat,
                    lo: Loop, ret: Label, k: nat)
    requires InScope(s, t, t.pc, env, w, slots) && Bounded(slots, d) && d <= d'
    ensures StmtDone(p, s, t.pc, Normal(env, w), fuel, slots, slots, d', lo, ret, k, t)
  {
    hide Layout, Stored, Same, Step;
    GrownSelf(slots, d, d');
  }

  /** Outcomes that no loop catches. */
  predicate Abrupt(o: Out) {
    !o.Normal? && !o.Broke? && !o.Continued?
  }

  /** What a loop body achieves, by outcome. */
  ghost predicate BodyDone(p: Machine, s: State, end: int, o: Out, fuel: nat, slots: SlotMap, inner: Loop, ret: Label,
                           k: nat, t: State)
    requires inner.InLoop?
  {
    && (o.Normal? ==> InScope(s, t, end, o.env, o.w, slots))
    && (o.Broke? ==> InScope(s, t, Find(p.code, inner.end), o.env, o.w, slots))
    && (o.Continued? ==> InScope(s, t, Find(p.code, inner.start), o.env, o.w, slots))
    && (Abrupt(o) ==> forall e, d, lo :: StmtDone(p, s, e, o, fuel, slots, slots, d, lo, ret, k, t))
  }

  lemma SimBody(p: Machine, m: Module, body: seq<Stmt>, fuel: nat, env: Env, w: World, outer: Env, slots: SlotMap,
                d: nat, n: nat, inner: Loop, ret: Label, s: State) returns (k: nat, t: State)
    requires inner.InLoop? && outer.Keys == slots.Keys
    requires StmtReady(p, m, EmitStmts(body, slots, d, n, inner, ret).code, env, w, slots, d, CountAll(body), s)
    ensures Steps(p, s, k) == t
    ensures BodyDone(p, s, s.pc + |EmitStmts(body, slots, d, n, inner, ret).code|,
                     Leave(Exec(m, p.x, fuel, body, env, w), outer), fuel, slots, inner, ret, k, t)
    decreases fuel, body, 2
  {
    hide EmitStmts, Same, Layout, Stored, Step, At, Linked, Exec, CountAll, Bounded, Find, Grown, Steps;
    k, t := SimBlock(p, m, body, fuel, env, w, outer, slots, d, n, inner, ret, s);
    var o := Exec(m, p.x, fuel, body, env, w);
    LeaveKeys(o, outer);
    if o.Broke? || o.Continued? { StoredKeys(Leave(o, outer).env, slots, t.ebp, t.mem); }
  }

  lemma LeaveKeys(o: Out, outer: Env)
    ensures o.Normal? || o.Broke? || o.Continued? ==> Leave(o, outer).env.Keys <= outer.Keys
  {
  }

  lemma StoredKeys(env: Env, slots: SlotMap, ebp: int, mem: map<int, int>)
    requires Stored(env, slots, ebp, mem)
    ensures slots.Keys <= env.Keys
  {
  }

  lemma WhileParts(p: Machine, m: Module, st: Stmt, slots: SlotMap, d: nat, n: nat, lo: Loop, ret: Label, at: int)
    requires st.While? && Linked(p, m) && At(p, at, EmitWhile(st, slots, d, n, lo, ret).code)
    ensures var start, end := Numbered(WhileStart, n), Numbered(WhileEnd, n + 1);
      var r := EmitValue(st.cond, slots, n + 2);
      var b := EmitStmts(st.body, slots, d, r.next, InLoop(start, end), ret);
      var p3 := at + 1 + |r.code| + 2;
      var p4 := p3 + |b.code|;
      && At(p, at, [Def(start)]) && At(p, at + 1, r.code + [CmpAl, Jcc(E, end)]) && At(p, p3, b.code)
      && At(p, p4, [Jmp(start)]) && At(p, p4 + 1, [Def(end)])
      && Find(p.code, start) == at && Find(p.code, end) == p4 + 1
      && at + |EmitWhile(st, slots, d, n, lo, ret).code| == p4 + 2
  {
    hide At, Linked, EmitValue, EmitStmts, CountAll, Find;
    var start, end := Numbered(WhileStart, n), Numbered(WhileEnd, n + 1);
    var r := EmitValue(st.cond, slots, n + 2);
    var b := EmitStmts(st.body, slots, d, r.next, InLoop(start, end), ret);
    var back := [Jmp(start), Def(end)];
    var p4 := at + 1 + |r.code| + 2 + |b.code|;
    LoopHead(p, m, start, end, r.code, b.code, back, at);
    assert back == [Jmp(start)] + [Def(end)];
    Split(p, p4, [Jmp(start)], [Def(end)]);
    LabelAt(p, m, end, p4 + 1);
  }

  lemma SimWhile(p: Machine, m: Module, st: Stmt, fuel: nat, env: Env, w: World, slots: SlotMap, d: nat, n: nat,
                 lo: Loop, ret: Label, s: State) returns (k: nat, t: State)
    requires st.While?
    requires StmtReady(p, m, EmitWhile(st, slots, d, n, lo, ret).code, env, w, slots, d, CountAll(st.body), s)
    ensures Steps(p, s, k) == t
    ensures StmtDone(p, s, s.pc + |EmitWhile(st, slots, d, n, lo, ret).code|, ExecLoop(m, p.x, fuel, st, env, w), fuel,
                     slots, slots, d + CountAll(st.body), lo, ret, k, t)
    decreases fuel, st, 3
  {
    hide Eval, EmitValue, Same, Layout, Stored, Step, At, Linked, Exec, ExecStmt, EmitStmts, CountAll, Leave, Bounded;
    hide StmtDone, Find, Grown, Steps, EmitWhile;
    k, t := 0, s;
    Steps0(p, s);
    var d2 := d + CountAll(st.body);
    WhileParts(p, m, st, slots, d, n, lo, ret, s.pc);
    var start, end := Numbered(WhileStart, n), Numbered(WhileEnd, n + 1);
    var inner := InLoop(start, end);
    var r := EmitValue(st.cond, slots, n + 2);
    var b := EmitStmts(st.body, slots, d, r.next, inner, ret);
    var stop := s.pc + 1 + |r.code| + 2 + |b.code| + 2;
    if fuel == 0 { NoFuel(p, s, stop, slots, d2, lo, ret); return; }
    Pass(p, s, start);
    k, t := SimCondition(p, m, st.cond, fuel, env, w, slots, n + 2, end, s.(pc := s.pc + 1));
    Chain(p, s, 1, s.(pc := s.pc + 1), k, t);
    k := k + 1;
    var c := Eval(m, p.x, fuel, st.cond, env, w);
    if !c.Ok? || !c.v.Boolean? {
      LateFailure(p, s, |r.code| + 2, c, end, fuel, slots, k, t, stop, d2, lo, ret);
      return;
    }
    if !c.v.b {
      t := LoopExit(p, s, k, t, end, stop, c.env, c.w, fuel, slots, d, d2, lo, ret);
      k := k + 1;
      return;
    }
    var k2, v := SimBody(p, m, st.body, fuel, c.env, c.w, env, slots, d, r.next, inner, ret, t);
    var o := Leave(Exec(m, p.x, fuel, st.body, c.env, c.w), env);
    GrownSelf(slots, d, d);
    if Abrupt(o) {
      Then(p, s, k, t, stop, o, fuel, fuel, slots, slots, slots, d, d2, lo, ret, k2, v);
      k, t := k + k2, v;
      return;
    }
    Chain(p, s, k, t, k2, v);
    InScopeTrans(s, t, v, slots, d, v.pc, o.env, o.w);
    k, t := k + k2, v;
    if o.Broke? {
      t := LoopExit(p, s, k, t, end, stop, o.env, o.w, fuel, slots, d, d2, lo, ret);
      k := k + 1;
      return;
    }
    if o.Normal? {
      t := SimJump(p, start, v);
      Chain(p, s, k, v, 1, t);
      k := k + 1;
    }
    var k3, x := SimWhile(p, m, st, fuel - 1, o.env, o.w, slots, d, n, lo, ret, t);
    Then(p, s, k, t, stop, ExecLoop(m, p.x, fuel - 1, st, o.env, o.w), fuel, fuel - 1, slots, slots, slots, d, d2, lo,
         ret, k3, x);
    k, t := k + k3, x;
  }

  lemma NoFuel(p: Machine, s: State, end: int, slots: SlotMap, d: nat, lo: Loop, ret: Label)
    requires s.status == Running
    ensures StmtDone(p, s, end, OutOfFuel, 0, slots, slots, d, lo, ret, 0, s)
  {
  }

  /** A condition that fails one step after the start of the loop. */
  lemma LateFailure(p: Machine, s: State, len: nat, r: Res<Val>, other: Label, fuel: nat, slots: SlotMap, k: nat,
                    t: State, end: int, d: nat, lo: Loop, ret: Label)
    requires k >= 1 && ConditionDone(p, s.(pc := s.pc + 1), len, r, other, fuel, slots, k - 1, t)
    requires !r.Ok? || !r.v.Boolean?
    ensures StmtDone(p, s, end, if r.Ok? then Bad else Failed(r), fuel, slots, slots, d, lo, ret, k, t)
  {
  }

  /** Passing the end label leaves the loop normally. */
  lemma LoopExit(p: Machine, s: State, k: nat, t: State, end: Label, stop: int, env: Env, w: World, fuel: nat,
                 slots: SlotMap, d: nat, d2: nat, lo: Loop, ret: Label) returns (u: State)
    requires Steps(p, s, k) == t && t.status == Running && InScope(s, t, stop - 1, env, w, slots)
    requires At(p, stop - 1, [Def(end)]) && Bounded(slots, d) && d <= d2
    ensures Steps(p, s, k + 1) == u
    ensures StmtDone(p, s, stop, Normal(env, w), fuel, slots, slots, d2, lo, ret, k + 1, u)
  {
    hide Layout, Stored, Same, Step, At, StmtDone;
    Pass(p, t, end);
    u := t.(pc := stop);
    Chain(p, s, k, t, 1, u);
    InScopeDone(p, s, u, env, w, fuel, slots, d, d2, lo, ret, k + 1);
  }

  lemma SimFor(p: Machine, m: Module, st: Stmt, fuel: nat, env: Env, w: World, slots: SlotMap, d: nat, n: nat,
               lo: Loop, ret: Label, s: State) returns (k: nat, t: State)
    requires st.For?
    requires StmtReady(p, m, EmitFor(st, slots, d, n, lo, ret).code, env, w, slots, d, Count(st), s)
    ensures Steps(p, s, k) == t
    ensures StmtDone(p, s, s.pc + |EmitFor(st, slots, d, n, lo, ret).code|, ExecFor(m, p.x, fuel, st, env, w), fuel,
                     slots, slots, d + Count(st), lo, ret, k, t)
    decreases fuel, st, 3
  {
    hide Same, Layout, Stored, Step, At, Linked, ExecStmt, ExecLoop, EmitStmt, EmitForLoop, CountAll, Leave, Bounded;
    hide StmtDone, Find, Grown, Steps, Count;
    ForCount(st);
    k, t := 0, s;
    Steps0(p, s);
    var d2 := d + Count(st);
    if !IsStep(st.step) {
      AnythingGoes(p, s, s.pc + |EmitFor(st, slots, d, n, lo, ret).code|, fuel, slots, d2, lo, ret);
      return;
    }
    var i := EmitStmt(st.init, slots, d, n + 3, lo, ret);
    var d' := d + Count(st.init);
    var l := EmitForLoop(st, i.slots, d', n, i.next, lo, ret);
    var stop := s.pc + |i.code| + |l.code|;
    Split(p, s.pc, i.code, l.code);
    k, t := SimStmt(p, m, st.init, fuel, env, w, slots, d, n + 3, lo, ret, s);
    var o := ExecStmt(m, p.x, fuel, st.init, env, w);
    if !o.Normal? {
      OtherEnd(p, s, s.pc + |i.code|, stop, o, fuel, slots, i.slots, d', lo, ret, k, t);
      LeaveDone(p, s, stop, o, fuel, slots, i.slots, d, d', lo, ret, k, t, env);
      Widen(p, s, stop, Leave(o, env), fuel, slots, d, d2, lo, ret, k, t);
      return;
    }
    NormalAt(p, s, s.pc + |i.code|, o, fuel, slots, i.slots, d', lo, ret, k, t);
    GrownBy(p, s, s.pc + |i.code|, o, fuel, slots, i.slots, d', lo, ret, k, t);
    var k2, u := SimForLoop(p, m, st, fuel, o.env, o.w, i.slots, d', n, i.next, lo, ret, t);
    var o2 := ExecLoop(m, p.x, fuel, st, o.env, o.w);
    Then(p, s, k, t, stop, o2, fuel, fuel, slots, i.slots, i.slots, d', d2, lo, ret, k2, u);
    LeaveDone(p, s, stop, o2, fuel, slots, i.slots, d, d2, lo, ret, k + k2, u, env);
    Widen(p, s, stop, Leave(o2, env), fuel, slots, d, d2, lo, ret, k + k2, u);
    k, t := k + k2, u;
  }

  lemma ForCount(st: Stmt)
    requires st.For?
    ensures Count(st) == Count(st.init) + CountAll(st.body) + Count(st.step)
    ensures IsStep(st.step) ==> Count(st.step) == 0
  {
  }

  lemma AnythingGoes(p: Machine, s: State, end: int, fuel: nat, slots: SlotMap, d: nat, lo: Loop, ret: Label)
    ensures StmtDone(p, s, end, Bad, fuel, slots, slots, d, lo, ret, 0, s)
  {
  }

  /** Only a normal outcome depends on where the code ends. */
  lemma OtherEnd(p: Machine, s: State, end: int, end': int, o: Out, fuel: nat, slots: SlotMap, slots': SlotMap, d: nat,
                 lo: Loop, ret: Label, k: nat, t: State)
    requires StmtDone(p, s, end, o, fuel, slots, slots', d, lo, ret, k, t) && !o.Normal?
    ensures StmtDone(p, s, end', o, fuel, slots, slots', d, lo, ret, k, t)
  {
  }

  lemma GrownBy(p: Machine, s: State, end: int, o: Out, fuel: nat, slots: SlotMap, slots': SlotMap, d: nat,
                lo: Loop, ret: Label, k: nat, t: State)
    requires StmtDone(p, s, end, o, fuel, slots, slots', d, lo, ret, k, t) && o.Normal?
    ensures Grown(slots, slots', d) && Bounded(slots', d)
  {
  }

  lemma ForParts(p: Machine, m: Module, st: Stmt, slots: SlotMap, d: nat, n: nat, next: nat, lo: Loop, ret: Label,
                 at: int)
    requires st.For? && Linked(p, m) && At(p, at, EmitForLoop(st, slots, d, n, next, lo, ret).code)
    ensures var cond, step, end := Numbered(ForCondition, n), Numbered(ForIncrement, n + 1), Numbered(ForEnd, n + 2);
      var r := EmitValue(st.cond, slots, next);
      var b := EmitStmts(st.body, slots, d, r.next, InLoop(step, end), ret);
      var g := EmitStmt(st.step, slots, d + CountAll(st.body), b.next, lo, ret);
      var p3 := at + 1 + |r.code| + 2;
      var p4 := p3 + |b.code|;
      var p5 := p4 + 1 + |g.code|;
      && At(p, at, [Def(cond)]) && At(p, at + 1, r.code + [CmpAl, Jcc(E, end)]) && At(p, p3, b.code)
      && At(p, p4, [Def(step)]) && At(p, p4 + 1, g.code) && At(p, p5, [Jmp(cond)]) && At(p, p5 + 1, [Def(end)])
      && Find(p.code, cond) == at && Find(p.code, step) == p4 && Find(p.code, end) == p5 + 1
      && at + |EmitForLoop(st, slots, d, n, next, lo, ret).code| == p5 + 2
  {
    hide At, Linked, EmitValue, EmitStmts, EmitStmt, CountAll, Find;
    var cond, step, end := Numbered(ForCondition, n), Numbered(ForIncrement, n + 1), Numbered(ForEnd, n + 2);
    var r := EmitValue(st.cond, slots, next);
    var b := EmitStmts(st.body, slots, d, r.next, InLoop(step, end), ret);
    var g := EmitStmt(st.step, slots, d + CountAll(st.body), b.next, lo, ret);
    var back := [Jmp(cond), Def(end)];
    var c3 := [Def(step)] + (g.code + back);
    var p3 := at + 1 + |r.code| + 2;
    var p4 := p3 + |b.code|;
    var p5 := p4 + 1 + |g.code|;
    LoopHead(p, m, cond, end, r.code, b.code, c3, at);
    ForTail(p, m, cond, step, end, g.code, p4);
  }

  lemma ForTail(p: Machine, m: Module, cond: Label, step: Label, end: Label, g: seq<Instr>, at: int)
    requires Linked(p, m) && At(p, at, [Def(step)] + (g + [Jmp(cond), Def(end)]))
    ensures At(p, at, [Def(step)]) && At(p, at + 1, g) && At(p, at + 1 + |g|, [Jmp(cond)])
    ensures At(p, at + 2 + |g|, [Def(end)]) && Find(p.code, step) == at && Find(p.code, end) == at + 2 + |g|
  {
    hide At, Linked, Find;
    var back := [Jmp(cond), Def(end)];
    Split(p, at, [Def(step)], g + back);
    Split(p, at + 1, g, back);
    assert back == [Jmp(cond)] + [Def(end)];
    Split(p, at + 1 + |g|, [Jmp(cond)], [Def(end)]);
    LabelAt(p, m, step, at);
    LabelAt(p, m, end, at + 2 + |g|);
  }

  /** Label, condition, branch and body of a loop. */
  lemma LoopHead(p: Machine, m: Module, start: Label, end: Label, test: seq<Instr>, body: seq<Instr>, rest: seq<Instr>,
                 at: int)
    requires Linked(p, m) && At(p, at, [Def(start)] + (test + ([CmpAl, Jcc(E, end)] + (body + rest))))
    ensures At(p, at, [Def(start)]) && At(p, at + 1, test + [CmpAl, Jcc(E, end)])
    ensures At(p, at + 3 + |test|, body) && At(p, at + 3 + |test| + |body|, rest)
    ensures Find(p.code, start) == at
  {
    hide At, Linked, Find;
    var branch := [CmpAl, Jcc(E, end)];
    Split(p, at, [Def(start)], test + (branch + (body + rest)));
    Split(p, at + 1, test, branch + (body + rest));
    Split(p, at + 1 + |test|, branch, body + rest);
    Join(p, at + 1, test, branch);
    Split(p, at + 3 + |test|, body, rest);
    LabelAt(p, m, start, at);
  }

  lemma SimForLoop(p: Machine, m: Module, st: Stmt, fuel: nat, env: Env, w: World, slots: SlotMap, d: nat, n: nat,
                   next: nat, lo: Loop, ret: Label, s: State) returns (k: nat, t: State)
    requires st.For? && IsStep(st.step)
    requires StmtReady(p, m, EmitForLoop(st, slots, d, n, next, lo, ret).code, env, w, slots, d, CountAll(st.body), s)
    ensures Steps(p, s, k) == t
    ensures StmtDone(p, s, s.pc + |EmitForLoop(st, slots, d, n, next, lo, ret).code|,
                     ExecLoop(m, p.x, fuel, st, env, w),
                     fuel, slots, slots, d + CountAll(st.body), lo, ret, k, t)
    decreases fuel, st, 2
  {
    hide Eval, EmitValue, Same, Layout, Stored, Step, At, Linked, Exec, ExecStmt, EmitStmts, EmitStmt, CountAll, Leave;
    hide StmtDone, Find, Grown, Steps, EmitForLoop, Bounded, Count, IsStep, NextSlot, TypeOf;
    k, t := 0, s;
    Steps0(p, s);
    var d2 := d + CountAll(st.body);
    ForParts(p, m, st, slots, d, n, next, lo, ret, s.pc);
    var cond, step, end := Numbered(ForCondition, n), Numbered(ForIncrement, n + 1), Numbered(ForEnd, n + 2);
    var inner := InLoop(step, end);
    var r := EmitValue(st.cond, slots, next);
    var b := EmitStmts(st.body, slots, d, r.next, inner, ret);
    var g := EmitStmt(st.step, slots, d2, b.next, lo, ret);
    var stop := s.pc + 1 + |r.code| + 2 + |b.code| + 1 + |g.code| + 2;
    if fuel == 0 { NoFuel(p, s, stop, slots, d2, lo, ret); return; }
    Pass(p, s, cond);
    k, t := SimCondition(p, m, st.cond, fuel, env, w, slots, next, end, s.(pc := s.pc + 1));
    Chain(p, s, 1, s.(pc := s.pc + 1), k, t);
    k := k + 1;
    var c := Eval(m, p.x, fuel, st.cond, env, w);
    if !c.Ok? || !c.v.Boolean? {
      LateFailure(p, s, |r.code| + 2, c, end, fuel, slots, k, t, stop, d2, lo, ret);
      return;
    }
    if !c.v.b {
      t := LoopExit(p, s, k, t, end, stop, c.env, c.w, fuel, slots, d, d2, lo, ret);
      k := k + 1;
      return;
    }
    var k2, v := SimBody(p, m, st.body, fuel, c.env, c.w, env, slots, d, r.next, inner, ret, t);
    var o := Leave(Exec(m, p.x, fuel, st.body, c.env, c.w), env);
    k, t := SimForBodyDone(p, m, st, fuel, o, slots, d, n, next, lo, ret, s, k, t, k2, v);
  }

  /** What follows the body of a `for` loop, by the outcome of the body. */
  function AfterBody(m: Module, x: Externs, fuel: nat, st: Stmt, o: Out): Out
    requires st.For? && IsStep(st.step) && fuel > 0
  {
    if o.Broke? then Normal(o.env, o.w) else if Abrupt(o) then o else ForNext(m, x, fuel, st, o.env, o.w)
  }

  lemma SimForBodyDone(p: Machine, m: Module, st: Stmt, fuel: nat, o: Out, slots: SlotMap, d: nat, n: nat, next: nat,
                       lo: Loop, ret: Label, s: State, i: nat, u: State, j: nat, v: State)
    returns (k: nat, t: State)
    requires st.For? && IsStep(st.step) && fuel > 0 && i > 0
    requires Linked(p, m) && Bounded(slots, d) && s.status == Running
    requires At(p, s.pc, EmitForLoop(st, slots, d, n, next, lo, ret).code)
    requires s.esp <= s.ebp - 4 * (d + CountAll(st.body))
    requires Steps(p, s, i) == u && Steps(p, u, j) == v
    requires SameFrame(s, u, u.pc, u.world) && Kept(s, u, slots)
    requires BodyDone(p, u, Find(p.code, Numbered(ForIncrement, n + 1)), o, fuel, slots,
                      InLoop(Numbered(ForIncrement, n + 1), Numbered(ForEnd, n + 2)), ret, j, v)
    ensures Steps(p, s, k) == t
    ensures StmtDone(p, s, s.pc + |EmitForLoop(st, slots, d, n, next, lo, ret).code|,
                     AfterBody(m, p.x, fuel, st, o),
                     fuel, slots, slots, d + CountAll(st.body), lo, ret, k, t)
    decreases fuel, st, 1
  {
    hide EmitValue, Same, Layout, Stored, Step, At, Linked, ExecLoop, ExecStmt, EmitStmts, EmitStmt, CountAll, Leave;
    hide StmtDone, Find, Grown, Steps, EmitForLoop, Bounded, Count, IsStep, NextSlot, TypeOf, ForNext;
    var d2 := d + CountAll(st.body);
    ForParts(p, m, st, slots, d, n, next, lo, ret, s.pc);
    var stop := s.pc + |EmitForLoop(st, slots, d, n, next, lo, ret).code|;
    GrownSelf(slots, d, d);
    if Abrupt(o) {
      Then(p, s, i, u, stop, o, fuel, fuel, slots, slots, slots, d, d2, lo, ret, j, v);
      k, t := i + j, v;
      return;
    }
    Chain(p, s, i, u, j, v);
    InScopeTrans(s, u, v, slots, d, v.pc, o.env, o.w);
    k := i + j;
    if o.Broke? {
      t := LoopExit(p, s, k, v, Numbered(ForEnd, n + 2), stop, o.env, o.w, fuel, slots, d, d2, lo, ret);
      k := k + 1;
      return;
    }
    Pass(p, v, Numbered(ForIncrement, n + 1));
    t := v.(pc := v.pc + 1);
    Chain(p, s, k, v, 1, t);
    k := k + 1;
    var k3, y := SimForNext(p, m, st, fuel, o.env, o.w, slots, d, n, next, lo, ret, s.pc, t);
    Then(p, s, k, t, stop, ForNext(m, p.x, fuel, st, o.env, o.w), fuel, fuel - 1, slots, slots, slots, d, d2, lo, ret,
         k3, y);
    k, t := k + k3, y;
  }

  /** The rest of a `for` loop from its increment on. */
  function ForNext(m: Module, x: Externs, fuel: nat, st: Stmt, env: Env, w: World): Out
    requires st.For? && IsStep(st.step) && fuel > 0
  {
    var o := ExecStmt(m, x, fuel, st.step, env, w);
    if o.Normal? then ExecLoop(m, x, fuel - 1, st, o.env, o.w) else o
  }

  lemma SimForNext(p: Machine, m: Module, st: Stmt, fuel: nat, env: Env, w: World, slots: SlotMap, d: nat, n: nat,
                   next: nat, lo: Loop, ret: Label, at: int, s: State) returns (k: nat, t: State)
    requires st.For? && IsStep(st.step) && fuel > 0
    requires Linked(p, m) && s.status == Running && s.world == w && Rel(env, slots, s) && Bounded(slots, d)
    requires s.esp <= s.ebp - 4 * (d + CountAll(st.body))
    requires At(p, at, EmitForLoop(st, slots, d, n, next, lo, ret).code)
    requires s.pc == Find(p.code, Numbered(ForIncrement, n + 1)) + 1
    ensures Steps(p, s, k) == t
    ensures StmtDone(p, s, at + |EmitForLoop(st, slots, d, n, next, lo, ret).code|, ForNext(m, p.x, fuel, st, env, w),
                     fuel - 1, slots, slots, d + CountAll(st.body), lo, ret, k, t)
    decreases fuel, st, 0
  {
    hide EmitValue, Same, Layout, Stored, Step, At, Linked, ExecLoop, ExecStmt, EmitStmts, EmitStmt, CountAll;
    hide Find, Grown, Steps, EmitForLoop, Bounded, StmtDone, Count;
    ForCount(st);
    ForParts(p, m, st, slots, d, n, next, lo, ret, at);
    var d2 := d + CountAll(st.body);
    var cond, step, end := Numbered(ForCondition, n), Numbered(ForIncrement, n + 1), Numbered(ForEnd, n + 2);
    var r := EmitValue(st.cond, slots, next);
    var b := EmitStmts(st.body, slots, d, r.next, InLoop(step, end), ret);
    var g := EmitStmt(st.step, slots, d2, b.next, lo, ret);
    var stop := at + |EmitForLoop(st, slots, d, n, next, lo, ret).code|;
    BoundedMore(slots, d, d2);
    GrownSelf(slots, d2, d2);
    StepSlots(st.step, slots, d2, b.next, lo, ret);
    k, t := SimStmt(p, m, st.step, fuel, env, w, slots, d2, b.next, lo, ret, s);
    var o := ExecStmt(m, p.x, fuel, st.step, env, w);
    if !o.Normal? {
      OtherEnd(p, s, s.pc + |g.code|, stop, o, fuel, slots, slots, d2, lo, ret, k, t);
      LessFuel(p, s, stop, o, fuel, fuel - 1, slots, slots, d2, lo, ret, k, t);
      return;
    }
    NormalAt(p, s, s.pc + |g.code|, o, fuel, slots, slots, d2, lo, ret, k, t);
    var u := SimJump(p, cond, t);
    Chain(p, s, k, t, 1, u);
    var k3, x := SimForLoop(p, m, st, fuel - 1, o.env, o.w, slots, d, n, next, lo, ret, u);
    Then(p, s, k + 1, u, stop, ExecLoop(m, p.x, fuel - 1, st, o.env, o.w), fuel - 1, fuel - 1,
         slots, slots, slots, d2, d2, lo, ret, k3, x);
    k, t := k + 1 + k3, x;
  }

  lemma StepSlots(st: Stmt, slots: SlotMap, d: nat, n: nat, lo: Loop, ret: Label)
    requires IsStep(st)
    ensures EmitStmt(st, slots, d, n, lo, ret).slots == slots
  {
  }

  lemma LessFuel(p: Machine, s: State, end: int, o: Out, fuel: nat, fuel': nat, slots: SlotMap, slots': SlotMap, d: nat,
                 lo: Loop, ret: Label, k: nat, t: State)
    requires StmtDone(p, s, end, o, fuel, slots, slots', d, lo, ret, k, t) && fuel' <= fuel
    ensures StmtDone(p, s, end, o, fuel', slots, slots', d, lo, ret, k, t)
  {
  }

  /** The first arm that matches, or the number of arms. */
  function Selected(arms: seq<Arm>, v: Val): (i: nat)
    ensures i <= |arms|
  {
    if arms == [] then 0
    else if Hits(arms[0], v) then 0
    else 1 + Selected(arms[1..], v)
  }

  /** Where dispatch leads: the label of the selected arm, or the end label. */
  function ArmTarget(arms: seq<Arm>, v: Val, label0: nat, end: Label): Label {
    if Selected(arms, v) < |arms| then Numbered(MatchArm, label0 + Selected(arms, v)) else end
  }

  /** Some constant of the list is the scrutinee. */
  predicate ConstantHit(patterns: seq<Pattern>, v: Val) {
    exists q :: q in patterns && !q.Default? && Matches(q, v)
  }

  lemma ConstantHitCons(patterns: seq<Pattern>, v: Val)
    requires patterns != []
    ensures ConstantHit(patterns, v) <==>
      (!patterns[0].Default? && Matches(patterns[0], v)) || ConstantHit(patterns[1..], v)
  {
    assert forall q :: q in patterns <==> q == patterns[0] || q in patterns[1..];
  }

  lemma PatternWord(q: Pattern, v: Val, ty: Type)
    requires !q.Default? && PatternFits(q, ty) && HasType(v, ty)
    ensures Enc(v) == Word(PatternImmediate(q)) <==> Matches(q, v)
  {
    if q.IntPattern? { SameWord(ty, v.n, q.n); }
  }

  lemma PatternCompared(q: Pattern, v: Val, ty: Type)
    requires !q.Default? && PatternFits(q, ty) && HasType(v, ty)
    ensures Holds(E, Compare(Enc(v), Word(PatternImmediate(q)))) <==> Matches(q, v)
  {
    PatternWord(q, v, ty);
    CompareMeaning(Enc(v), Word(PatternImmediate(q)));
  }

  /** One compare-and-branch pair. */
  lemma SimCompare(p: Machine, q: Pattern, ty: Type, slot: int, arm: Label, v: Val, s: State) returns (t: State)
    requires s.status == Running && At(p, s.pc, [CmpSlot(PatternImmediate(q), slot), Jcc(E, arm)])
    requires (s.ebp + slot) % 4 == 0 && Load(s.mem, s.ebp + slot) == Enc(v) && HasType(v, ty)
    requires !q.Default? && PatternFits(q, ty)
    ensures Steps(p, s, 2) == t
    ensures t == s.(pc := if Matches(q, v) then Find(p.code, arm) else s.pc + 2, flags := t.flags)
  {
    PatternCompared(q, v, ty);
    hide Compare, Word, Enc, Holds, Find, HasType, PatternFits, Matches, PatternImmediate;
    var c := [CmpSlot(PatternImmediate(q), slot), Jcc(E, arm)];
    Fetch(p, s.pc, c, 0);
    Fetch(p, s.pc, c, 1);
    Steps2(p, s);
    var u := s.(pc := s.pc + 1, flags := Compare(Enc(v), Word(PatternImmediate(q))));
    assert Step(p, s) == u;
    t := Step(p, u);
  }

  /** The compares of one arm branch to it exactly if one of its constants is the
      scrutinee. */
  lemma SimDispatchArm(p: Machine, patterns: seq<Pattern>, ty: Type, slot: int, arm: Label, v: Val, s: State)
      returns (k: nat, t: State)
    requires s.status == Running && At(p, s.pc, DispatchArm(patterns, slot, arm))
    requires (s.ebp + slot) % 4 == 0 && Load(s.mem, s.ebp + slot) == Enc(v) && HasType(v, ty)
    requires forall q :: q in patterns ==> PatternFits(q, ty)
    ensures Steps(p, s, k) == t
    ensures t == s.(pc := if ConstantHit(patterns, v) then Find(p.code, arm)
                          else s.pc + |DispatchArm(patterns, slot, arm)|,
                    flags := t.flags)
    decreases |patterns|
  {
    hide Step, At, Find, Matches, PatternFits, ConstantHit, PatternImmediate;
    k, t := 0, s;
    if patterns == [] { NoConstants(v); return; }
    ConstantHitCons(patterns, v);
    var q := patterns[0];
    var head := if q.Default? then [] else [CmpSlot(PatternImmediate(q), slot), Jcc(E, arm)];
    Split(p, s.pc, head, DispatchArm(patterns[1..], slot, arm));
    if !q.Default? {
      t := SimCompare(p, q, ty, slot, arm, v, s);
      k := 2;
      if Matches(q, v) { return; }
    }
    var k2, u := SimDispatchArm(p, patterns[1..], ty, slot, arm, v, t);
    Chain(p, s, k, t, k2, u);
    k, t := k + k2, u;
  }

  lemma NoConstants(v: Val)
    ensures !ConstantHit([], v)
  {
  }

  lemma FitsTail(arms: seq<Arm>, ty: Type)
    requires PatternsFit(arms, ty) && arms != []
    ensures PatternsFit(arms[1..], ty)
    ensures forall q :: q in arms[0].patterns ==> PatternFits(q, ty)
    ensures Default in arms[0].patterns ==> |arms| == 1
  {
    forall i | 0 <= i < |arms[1..]| ensures arms[1..][i] == arms[i + 1] {}
  }

  lemma HitsArm(arm: Arm, v: Val)
    ensures Hits(arm, v) <==> ConstantHit(arm.patterns, v) || Default in arm.patterns
  {
    assert Matches(Default, v);
  }

  /** The whole compare chain with its final jump reaches the label of the first
      arm in source order that matches. */
  lemma SimDispatch(p: Machine, arms: seq<Arm>, ty: Type, slot: int, label0: nat, end: Label, v: Val, s: State)
      returns (k: nat, t: State)
    requires s.status == Running && HasType(v, ty) && PatternsFit(arms, ty)
    requires At(p, s.pc, Dispatch(arms, slot, label0) + [Jmp(Fallback(arms, label0, end))])
    requires (s.ebp + slot) % 4 == 0 && Load(s.mem, s.ebp + slot) == Enc(v)
    ensures Steps(p, s, k) == t
    ensures t == s.(pc := Find(p.code, ArmTarget(arms, v, label0, end)), flags := t.flags)
    decreases |arms|
  {
    hide Step, At, Find, HasType, PatternsFit, PatternFits, DispatchArm, Hits, ConstantHit;
    if arms == [] {
      assert Dispatch(arms, slot, label0) + [Jmp(end)] == [Jmp(end)];
      t := SimJump(p, end, s);
      k := 1;
      return;
    }
    var arm := Numbered(MatchArm, label0);
    var a := DispatchArm(arms[0].patterns, slot, arm);
    var rest := Dispatch(arms[1..], slot, label0 + 1);
    var end' := if Default in arms[0].patterns then arm else end;
    var last := [Jmp(Fallback(arms[1..], label0 + 1, end'))];
    assert Dispatch(arms, slot, label0) + last == a + (rest + last);
    Split(p, s.pc, a, rest + last);
    FitsTail(arms, ty);
    HitsArm(arms[0], v);
    k, t := SimDispatchArm(p, arms[0].patterns, ty, slot, arm, v, s);
    if ConstantHit(arms[0].patterns, v) { return; }
    var k2, u := SimDispatch(p, arms[1..], ty, slot, label0 + 1, end', v, t);
    Chain(p, s, k, t, k2, u);
    k, t := k + k2, u;
  }

  lemma {:induction false} NoArm(m: Module, x: Externs, fuel: nat, arms: seq<Arm>, v: Val, env: Env, w: World)
    requires Selected(arms, v) == |arms|
    ensures ExecArms(m, x, fuel, arms, v, env, w) == Normal(env, w)
    decreases |arms|
  {
    hide Exec, Hits, Leave;
    if arms != [] { NoArm(m, x, fuel, arms[1..], v, env, w); }
  }

  /** The body of an arm, and the jump behind it. */
  lemma SimArmBody(p: Machine, m: Module, body: seq<Stmt>, fuel: nat, env: Env, w: World, slots: SlotMap, d: nat,
                   d2: nat,
                   n: nat, end: Label, lo: Loop, ret: Label, u: State) returns (k: nat, t: State)
    requires Linked(p, m) && u.status == Running && u.world == w && Rel(env, slots, u)
    requires var a := EmitStmts(body, slots, d, n, lo, ret);
      At(p, u.pc, a.code) && At(p, u.pc + |a.code|, [Jmp(end)])
    requires Bounded(slots, d) && Bounded(slots, d + CountAll(body)) && d + CountAll(body) <= d2
    requires u.esp <= u.ebp - 4 * d2
    ensures Steps(p, u, k) == t
    ensures StmtDone(p, u, Find(p.code, end), Leave(Exec(m, p.x, fuel, body, env, w), env), fuel, slots, slots, d2,
                     lo, ret, k, t)
    decreases fuel, body, 4
  {
    hide EmitStmts, Same, Layout, Stored, Step, At, Linked, Exec, CountAll, Leave, Bounded, StmtDone, Find, Grown;
    hide Steps;
    var stop := u.pc + |EmitStmts(body, slots, d, n, lo, ret).code|;
    GrownSelf(slots, d, d);
    var k2, x := SimBlock(p, m, body, fuel, env, w, env, slots, d, n, lo, ret, u);
    var o := Leave(Exec(m, p.x, fuel, body, env, w), env);
    var y := x.(pc := Find(p.code, end));
    if o.Normal? {
      NormalAt(p, u, stop, o, fuel, slots, slots, d, lo, ret, k2, x);
      y := SimJump(p, end, x);
    }
    Onward(p, u, stop, o, fuel, slots, d, lo, ret, k2, x, 1, y);
    k, t := if o.Normal? then k2 + 1 else k2, if o.Normal? then y else x;
    Widen(p, u, Find(p.code, end), o, fuel, slots, d, d2, lo, ret, k, t);
  }

  /** Only the selected arm runs, and control then passes to the end label. */
  lemma SimArms(p: Machine, m: Module, arms: seq<Arm>, v: Val, fuel: nat, env: Env, w: World, slots: SlotMap, d: nat,
                label0: nat, n: nat, end: Label, lo: Loop, ret: Label, base: int, s: State) returns (k: nat, t: State)
    requires Selected(arms, v) < |arms|
    requires s.pc == Find(p.code, Numbered(MatchArm, label0 + Selected(arms, v)))
    requires Linked(p, m) && s.status == Running && s.world == w && Rel(env, slots, s)
    requires At(p, base, EmitArms(arms, slots, d, label0, n, end, lo, ret).code)
    requires Bounded(slots, d) && s.esp <= s.ebp - 4 * (d + CountArms(arms))
    ensures Steps(p, s, k) == t
    ensures StmtDone(p, s, Find(p.code, end), ExecArms(m, p.x, fuel, arms, v, env, w), fuel, slots, slots,
                     d + CountArms(arms), lo, ret, k, t)
    decreases fuel, arms, 0
  {
    hide EmitStmts, Same, Layout, Stored, Step, At, Linked, Exec, CountAll, Leave, Bounded, StmtDone, Find, Grown;
    hide Steps, Hits;
    var arm := Numbered(MatchArm, label0);
    var a := EmitStmts(arms[0].body, slots, d, n, lo, ret);
    var d' := d + CountAll(arms[0].body);
    var d2 := d + CountArms(arms);
    var b := EmitArms(arms[1..], slots, d', label0 + 1, a.next, end, lo, ret);
    Split(p, base, [Def(arm)], a.code + ([Jmp(end)] + b.code));
    Split(p, base + 1, a.code, [Jmp(end)] + b.code);
    Split(p, base + 1 + |a.code|, [Jmp(end)], b.code);
    BoundedMore(slots, d, d');
    if Hits(arms[0], v) {
      LabelAt(p, m, arm, base);
      Pass(p, s, arm);
      var u := s.(pc := base + 1);
      GrownSelf(slots, d, d);
      StartKept(s, u, slots);
      var k2, x := SimArmBody(p, m, arms[0].body, fuel, env, w, slots, d, d2, n, end, lo, ret, u);
      var o := Leave(Exec(m, p.x, fuel, arms[0].body, env, w), env);
      Then(p, s, 1, u, Find(p.code, end), o, fuel, fuel, slots, slots, slots, d, d2, lo, ret, k2, x);
      k, t := 1 + k2, x;
    } else {
      k, t := SimArms(p, m, arms[1..], v, fuel, env, w, slots, d', label0 + 1, a.next, end, lo, ret,
                      base + 2 + |a.code|, s);
    }
  }

  lemma StartKept(s: State, t: State, slots: SlotMap)
    requires t.mem == s.mem
    ensures Kept(s, t, slots)
  {
  }

  lemma MatchParts(p: Machine, m: Module, st: Stmt, slots: SlotMap, d: nat, n: nat, lo: Loop, ret: Label, at: int)
    requires st.Match? && Linked(p, m) && At(p, at, EmitMatch(st, slots, d, n, lo, ret).code)
    ensures var end, slot := Numbered(MatchEnd, n), NextSlot(d);
      var r := EmitValue(st.value, slots, n + 1 + |st.arms|);
      var chain := Dispatch(st.arms, slot, n + 1) + [Jmp(Fallback(st.arms, n + 1, end))];
      var b := EmitArms(st.arms, slots, d + 1, n + 1, r.next, end, lo, ret);
      var p1 := at + |r.code|;
      var p2 := p1 + 1 + |chain|;
      && At(p, at, r.code) && At(p, p1, [StoreSlot(slot)]) && At(p, p1 + 1, chain) && At(p, p2, b.code)
      && At(p, p2 + |b.code|, [Def(end)]) && Find(p.code, end) == p2 + |b.code|
      && at + |EmitMatch(st, slots, d, n, lo, ret).code| == p2 + |b.code| + 1
  {
    hide At, Linked, EmitValue, EmitArms, Find, Dispatch, Fallback, NextSlot;
    var end, slot := Numbered(MatchEnd, n), NextSlot(d);
    var r := EmitValue(st.value, slots, n + 1 + |st.arms|);
    var chain := Dispatch(st.arms, slot, n + 1) + [Jmp(Fallback(st.arms, n + 1, end))];
    var b := EmitArms(st.arms, slots, d + 1, n + 1, r.next, end, lo, ret);
    Pieces5(p, at, r.code, [StoreSlot(slot)], chain, b.code, [Def(end)]);
    LabelAt(p, m, end, at + |r.code| + 1 + |chain| + |b.code|);
  }

  lemma SimMatch(p: Machine, m: Module, st: Stmt, fuel: nat, env: Env, w: World, slots: SlotMap, d: nat, n: nat,
                 lo: Loop, ret: Label, s: State) returns (k: nat, t: State)
    requires st.Match?
    requires StmtReady(p, m, EmitMatch(st, slots, d, n, lo, ret).code, env, w, slots, d, 1 + CountArms(st.arms), s)
    ensures Steps(p, s, k) == t
    ensures StmtDone(p, s, s.pc + |EmitMatch(st, slots, d, n, lo, ret).code|, ExecMatch(m, p.x, fuel, st, env, w), fuel,
                     slots, slots, d + 1 + CountArms(st.arms), lo, ret, k, t)
    decreases fuel, st, 3
  {
    hide EmitMatch, Eval, EmitValue, Same, Layout, Stored, Step, At, Linked, ExecArms, EmitArms, CountArms, Bounded;
    hide StmtDone, Find, Grown, Steps, Dispatch, Fallback, PatternsFit, HasType, TypeOf, Selected;
    hide ArmTarget, Hits, Matches;
    var arms, ty, end, slot := st.arms, TypeOf(st.value), Numbered(MatchEnd, n), NextSlot(d);
    var r := EmitValue(st.value, slots, n + 1 + |arms|);
    var chain := Dispatch(arms, slot, n + 1) + [Jmp(Fallback(arms, n + 1, end))];
    var b := EmitArms(arms, slots, d + 1, n + 1, r.next, end, lo, ret);
    var d2 := d + 1 + CountArms(arms);
    MatchParts(p, m, st, slots, d, n, lo, ret, s.pc);
    var p2 := s.pc + |r.code| + 1 + |chain|;
    var stop := p2 + |b.code| + 1;
    k, t := SimValue(p, m, st.value, fuel, env, w, slots, n + 1 + |arms|, s);
    var c := Eval(m, p.x, fuel, st.value, env, w);
    if !c.Ok? || !HasType(c.v, ty) || !PatternsFit(arms, ty) {
      ScrutineeFailed(p, s, |r.code|, c, fuel, slots, k, t, stop, d2, lo, ret);
      return;
    }
    KeptByValue(slots, s.esp, s.ebp, s.mem, t.mem);
    Aligned(slots, t.esp, t.ebp);
    var u := SimStore(p, slot, t);
    FreshSlot(c.env, slots, t.ebp, t.mem, d, Enc(c.v));
    SameTrans(slots, s.ebp, s.ebp, s.mem, t.mem, u.mem);
    Chain(p, s, k, t, 1, u);
    var k2, x := SimDispatch(p, arms, ty, slot, n + 1, end, c.v, u);
    Chain(p, s, k + 1, u, k2, x);
    k := k + 1 + k2;
    GrownSelf(slots, d, d);
    BoundedMore(slots, d, d + 1);
    var k3, y := SimSelected(p, m, arms, c.v, fuel, c.env, c.w, slots, d + 1, n + 1, r.next, end, lo, ret, p2, stop, x);
    Then(p, s, k, x, stop, ExecArms(m, p.x, fuel, arms, c.v, c.env, c.w), fuel, fuel, slots, slots, slots, d, d2, lo,
         ret, k3, y);
    k, t := k + k3, y;
  }

  lemma ScrutineeFailed(p: Machine, s: State, len: nat, r: Res<Val>, fuel: nat, slots: SlotMap, k: nat, t: State,
                        end: int, d: nat, lo: Loop, ret: Label)
    requires ValueDone(s, len, r, fuel, slots, k, t)
    ensures StmtDone(p, s, end, if r.Ok? then Bad else Failed(r), fuel, slots, slots, d, lo, ret, k, t)
  {
  }

  /** From the target of the dispatch to behind the end label. */
  lemma SimSelected(p: Machine, m: Module, arms: seq<Arm>, v: Val, fuel: nat, env: Env, w: World, slots: SlotMap,
                    d: nat,
                    label0: nat, n: nat, end: Label, lo: Loop, ret: Label, base: int, stop: int, s: State)
      returns (k: nat, t: State)
    requires s.pc == Find(p.code, ArmTarget(arms, v, label0, end))
    requires Linked(p, m) && s.status == Running && s.world == w && Rel(env, slots, s)
    requires At(p, base, EmitArms(arms, slots, d, label0, n, end, lo, ret).code)
    requires At(p, stop - 1, [Def(end)]) && Find(p.code, end) == stop - 1
    requires Bounded(slots, d) && s.esp <= s.ebp - 4 * (d + CountArms(arms))
    ensures Steps(p, s, k) == t
    ensures StmtDone(p, s, stop, ExecArms(m, p.x, fuel, arms, v, env, w), fuel, slots, slots, d + CountArms(arms),
                     lo, ret, k, t)
    decreases fuel, arms, 1
  {
    hide Same, Layout, Stored, Step, At, Linked, ExecArms, EmitArms, CountArms, Bounded, StmtDone, Find, Grown, Steps;
    hide Selected;
    var o := ExecArms(m, p.x, fuel, arms, v, env, w);
    var d2 := d + CountArms(arms);
    if Selected(arms, v) < |arms| {
      k, t := SimArms(p, m, arms, v, fuel, env, w, slots, d, label0, n, end, lo, ret, base, s);
    } else {
      NoArm(m, p.x, fuel, arms, v, env, w);
      k, t := 0, s;
      Steps0(p, s);
      StartKept(s, s, slots);
      InScopeDone(p, s, s, env, w, fuel, slots, d, d2, lo, ret, 0);
    }
    var u := t.(pc := stop);
    if o.Normal? {
      NormalAt(p, s, stop - 1, o, fuel, slots, slots, d2, lo, ret, k, t);
      Pass(p, t, end);
    }
    Onward(p, s, stop - 1, o, fuel, slots, d2, lo, ret, k, t, 1, u);
    k, t := if o.Normal? then k + 1 else k, if o.Normal? then u else t;
    if !o.Normal? { OtherEnd(p, s, u.pc, stop, o, fuel, slots, slots, d2, lo, ret, k, t); }
  }
}
