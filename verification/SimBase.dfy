/** The relation between an interpreter environment and a machine state, and the
    simulation of single operations. */
module SimBase {
  import opened Words
  import opened Ir
  import opened IrSemantics
  import opened I386
  import opened EmitI386

  predicate At(p: Machine, pc: int, c: seq<Instr>) {
    0 <= pc && pc + |c| <= |p.code| && p.code[pc..pc + |c|] == c
  }

  lemma Split(p: Machine, pc: int, a: seq<Instr>, b: seq<Instr>)
    requires At(p, pc, a + b)
    ensures At(p, pc, a) && At(p, pc + |a|, b)
  {
    var whole := p.code[pc..pc + |a + b|];
    assert whole[..|a|] == a && whole[|a|..] == b;
    assert p.code[pc..pc + |a|] == whole[..|a|];
    assert p.code[pc + |a|..pc + |a| + |b|] == whole[|a|..];
  }

  lemma Pieces4(p: Machine, pc: int, a: seq<Instr>, b: seq<Instr>, c: seq<Instr>, d: seq<Instr>)
    requires At(p, pc, a + (b + (c + d)))
    ensures At(p, pc, a) && At(p, pc + |a|, b) && At(p, pc + |a| + |b|, c) && At(p, pc + |a| + |b| + |c|, d)
    ensures |a + (b + (c + d))| == |a| + |b| + |c| + |d|
  {
    hide At;
    Split(p, pc, a, b + (c + d));
    Split(p, pc + |a|, b, c + d);
    Split(p, pc + |a| + |b|, c, d);
  }

  lemma Pieces5(p: Machine, pc: int, a: seq<Instr>, b: seq<Instr>, c: seq<Instr>, d: seq<Instr>, e: seq<Instr>)
    requires At(p, pc, a + (b + (c + (d + e))))
    ensures At(p, pc, a) && At(p, pc + |a|, b) && At(p, pc + |a| + |b|, c) && At(p, pc + |a| + |b| + |c|, d)
    ensures At(p, pc + |a| + |b| + |c| + |d|, e)
    ensures |a + (b + (c + (d + e)))| == |a| + |b| + |c| + |d| + |e|
  {
    hide At;
    Pieces4(p, pc, a, b, c, d + e);
    Split(p, pc + |a| + |b| + |c|, d, e);
  }

  lemma Pieces6(p: Machine, pc: int, a: seq<Instr>, b: seq<Instr>, c: seq<Instr>, d: seq<Instr>, e: seq<Instr>,
                f: seq<Instr>)
    requires At(p, pc, a + (b + (c + (d + (e + f)))))
    ensures At(p, pc, a) && At(p, pc + |a|, b) && At(p, pc + |a| + |b|, c) && At(p, pc + |a| + |b| + |c|, d)
    ensures At(p, pc + |a| + |b| + |c| + |d|, e) && At(p, pc + |a| + |b| + |c| + |d| + |e|, f)
    ensures |a + (b + (c + (d + (e + f))))| == |a| + |b| + |c| + |d| + |e| + |f|
  {
    hide At;
    Pieces5(p, pc, a, b, c, d, e + f);
    Split(p, pc + |a| + |b| + |c| + |d|, e, f);
  }

  lemma Join(p: Machine, pc: int, a: seq<Instr>, b: seq<Instr>)
    requires At(p, pc, a) && At(p, pc + |a|, b)
    ensures At(p, pc, a + b)
  {
    assert p.code[pc..pc + |a + b|] == p.code[pc..pc + |a|] + p.code[pc + |a|..pc + |a| + |b|];
  }

  lemma Fetch(p: Machine, pc: int, c: seq<Instr>, j: nat)
    requires At(p, pc, c) && j < |c|
    ensures p.code[pc + j] == c[j]
  {
    assert p.code[pc..pc + |c|][j] == p.code[pc + j];
  }

  lemma Chain(p: Machine, s: State, i: nat, t: State, j: nat, u: State)
    requires Steps(p, s, i) == t && Steps(p, t, j) == u
    ensures Steps(p, s, i + j) == u
  {
    StepsSum(p, s, i, j);
  }

  lemma Steps1(p: Machine, s: State)
    ensures Steps(p, s, 1) == Step(p, s)
  {
  }

  lemma Steps2(p: Machine, s: State)
    ensures Steps(p, s, 2) == Step(p, Step(p, s))
  {
    Steps1(p, Step(p, s));
  }

  predicate IsSlot(slots: SlotMap, o: int) {
    exists x :: x in slots && slots[x] == o
  }

  /** Every name has its own aligned slot, at or above the stack pointer. */
  predicate Layout(slots: SlotMap, esp: int, ebp: int) {
    && ebp % 4 == 0 && esp % 4 == 0
    && (forall x :: x in slots ==> slots[x] % 4 == 0 && esp <= ebp + slots[x])
    && (forall x, y :: x in slots && y in slots && x != y ==> slots[x] != slots[y])
  }

  /** The slot of every name holds the word that encodes its value. */
  predicate Stored(env: Env, slots: SlotMap, ebp: int, mem: map<int, int>) {
    slots.Keys <= env.Keys && forall x :: x in slots ==> Load(mem, ebp + slots[x]) == Enc(env[x])
  }

  /** Environment and machine state are related. */
  predicate Rel(env: Env, slots: SlotMap, s: State) {
    env.Keys == slots.Keys && Layout(slots, s.esp, s.ebp) && Stored(env, slots, s.ebp, s.mem)
  }

  /** From address `from` up, the memories differ in slots only. */
  ghost predicate Same(slots: SlotMap, from: int, ebp: int, mem: map<int, int>, mem': map<int, int>) {
    forall a :: a >= from && !IsSlot(slots, a - ebp) ==> Load(mem', a) == Load(mem, a)
  }

  /** From `s` to `t` nothing at or above the stack pointer of `s` changed
      except slots. */
  ghost predicate Preserved(s: State, t: State, slots: SlotMap) {
    Same(slots, s.esp, s.ebp, s.mem, t.mem)
  }

  /** What running the code of a value achieves: the value is in `%eax`, the
      stack is level, and memory above the stack pointer holds the new
      environment and is otherwise unchanged. */
  ghost predicate ValueDone(s: State, len: nat, r: Res<Val>, fuel: nat, slots: SlotMap, k: nat, t: State) {
    match r
    case Ok(v, env, w) =>
      && t == s.(pc := s.pc + len, eax := Enc(v), ecx := t.ecx, edx := t.edx, flags := t.flags,
                 mem := t.mem, world := w)
      && Rel(env, slots, t) && Preserved(s, t, slots)
    case Trap(w) => t.status == Divide && t.world == w
    case Timeout => t.status == Running && k >= fuel
    case Wrong => true
  }

  lemma Aligned(slots: SlotMap, esp: int, ebp: int)
    requires Layout(slots, esp, ebp)
    ensures esp % 4 == 0 && ebp % 4 == 0
  {
  }

  lemma SameRefl(slots: SlotMap, from: int, ebp: int, mem: map<int, int>)
    ensures Same(slots, from, ebp, mem, mem)
  {
  }

  lemma SameTrans(slots: SlotMap, from: int, ebp: int, m1: map<int, int>, m2: map<int, int>, m3: map<int, int>)
    requires Same(slots, from, ebp, m1, m2) && Same(slots, from, ebp, m2, m3)
    ensures Same(slots, from, ebp, m1, m3)
  {
  }

  /** Slots also lie above any higher stack pointer that they lie above. */
  lemma LayoutDown(slots: SlotMap, esp: int, esp': int, ebp: int)
    requires Layout(slots, esp, ebp) && esp' <= esp && esp' % 4 == 0
    ensures Layout(slots, esp', ebp)
  {
  }

  /** A write below every slot disturbs none. */
  lemma StoredBelow(env: Env, slots: SlotMap, esp: int, ebp: int, mem: map<int, int>, a: int, v: int)
    requires Layout(slots, esp, ebp) && Stored(env, slots, ebp, mem) && a < esp
    ensures Stored(env, slots, ebp, mem[a := v])
    ensures Same(slots, esp, ebp, mem, mem[a := v])
  {
  }

  lemma PushRel(env: Env, slots: SlotMap, s: State, v: int)
    requires Rel(env, slots, s)
    ensures Push(s, v) == s.(esp := s.esp - 4, mem := s.mem[s.esp - 4 := v])
    ensures Rel(env, slots, Push(s, v))
    ensures Preserved(s, Push(s, v), slots)
  {
    LayoutDown(slots, s.esp, s.esp - 4, s.ebp);
    StoredBelow(env, slots, s.esp, s.ebp, s.mem, s.esp - 4, v);
  }

  /** After a push, code that leaves the stack level preserves the pushed cell
      and whatever lies above. */
  lemma PushedCell(slots: SlotMap, esp: int, ebp: int, mem: map<int, int>, v: int, mem': map<int, int>)
    requires Layout(slots, esp, ebp) && Same(slots, esp - 4, ebp, mem[esp - 4 := v], mem')
    ensures Load(mem', esp - 4) == v
    ensures Same(slots, esp, ebp, mem, mem')
  {
    assert !IsSlot(slots, esp - 4 - ebp);
  }

  /** Storing the encoding of a new value in the slot of a name updates the
      name and nothing else. */
  lemma StoreSlotOf(env: Env, slots: SlotMap, esp: int, ebp: int, mem: map<int, int>, x: string, v: Val)
    requires Layout(slots, esp, ebp) && Stored(env, slots, ebp, mem) && x in slots
    ensures (ebp + slots[x]) % 4 == 0
    ensures Stored(env[x := v], slots, ebp, mem[ebp + slots[x] := Enc(v)])
    ensures Same(slots, esp, ebp, mem, mem[ebp + slots[x] := Enc(v)])
  {
    assert IsSlot(slots, slots[x]);
  }

  /** The word-level result of one operation encodes the integer-level result,
      for either reading of the operands. */
  lemma OpArithmetic(ty: Type, a: int, b: int)
    requires InRange(ty, a) && InRange(ty, b)
    ensures Word(Wrap(ty, a + b)) == Word(Word(a) + Word(b))
    ensures Word(Wrap(ty, a - b)) == Word(Word(a) - Word(b))
    ensures Word(Wrap(ty, a * b)) == Word(Signed(Word(a)) * Signed(Word(b)))
  {
    WordMul(a, b);
    WordAdd(a, b);
    WordSub(a, b);
    WrapWord(ty, a + b);
    WrapWord(ty, a - b);
    WrapWord(ty, a * b);
  }

  lemma WrapWord(ty: Type, n: int)
    ensures Word(Wrap(ty, n)) == Word(n)
  {
    SignedOfWord(n);
    SignedOfWord(Word(n));
  }

  /** The signed or unsigned reading of an encoded operand is the operand. */
  lemma OperandReading(ty: Type, a: int)
    requires InRange(ty, a)
    ensures ty == I32 ==> Signed(Word(a)) == a
    ensures ty == U32 ==> Word(a) == a
  {
    SignedOfWord(a);
  }

  predicate RegsOnly(s: State, t: State, len: int) {
    t == s.(pc := s.pc + len, eax := t.eax, ecx := t.ecx, edx := t.edx, flags := t.flags)
  }

  lemma SimUnsignedDivision(p: Machine, s: State, a: int, b: int) returns (t: State)
    requires s.status == Running && s.eax == a && s.ecx == b
    requires 0 <= a < TWO32 && 0 <= b < TWO32
    requires At(p, s.pc, [XorEdx, DivEcx])
    ensures Steps(p, s, 2) == t
    ensures b == 0 ==> t == s.(pc := t.pc, edx := t.edx, flags := t.flags, status := Divide)
    ensures b != 0 ==> RegsOnly(s, t, 2) && t.eax == TruncDiv(a, b) && t.edx == TruncRem(a, b)
    ensures b != 0 ==> InRange(U32, TruncDiv(a, b))
  {
    Fetch(p, s.pc, [XorEdx, DivEcx], 0);
    Fetch(p, s.pc, [XorEdx, DivEcx], 1);
    Steps2(p, s);
    var u := Step(p, s);
    assert u == s.(pc := s.pc + 1, edx := 0, flags := Unknown);
    t := Step(p, u);
    assert u.edx * TWO32 + u.eax == a;
    if b != 0 {
      UnsignedDivision(a, b);
      assert t == u.(pc := s.pc + 2, eax := TruncDiv(a, b), edx := TruncRem(a, b), flags := Unknown);
    }
  }

  lemma SimSignedDivision(p: Machine, s: State, a: int, b: int) returns (t: State)
    requires s.status == Running && s.eax == Word(a) && s.ecx == Word(b)
    requires InRange(I32, a) && InRange(I32, b)
    requires At(p, s.pc, [Cltd, IdivEcx])
    ensures Steps(p, s, 2) == t
    ensures var bad := b == 0 || !InRange(I32, TruncDiv(a, b));
      if bad then t == s.(pc := t.pc, edx := t.edx, flags := t.flags, status := Divide)
      else RegsOnly(s, t, 2) && t.eax == Word(TruncDiv(a, b)) && t.edx == Word(TruncRem(a, b))
  {
    Fetch(p, s.pc, [Cltd, IdivEcx], 0);
    Fetch(p, s.pc, [Cltd, IdivEcx], 1);
    Steps2(p, s);
    SignedOfWord(a);
    SignedOfWord(b);
    var u := Step(p, s);
    assert u == s.(pc := s.pc + 1, edx := if s.eax < TWO31 then 0 else TWO32 - 1);
    assert Dividend(u) == a;
    t := Step(p, u);
  }

  lemma SimDivision(p: Machine, s: State, op: BinOp, ty: Type, a: int, b: int) returns (t: State)
    requires op.Div? || op.Rem?
    requires InRange(ty, a) && InRange(ty, b)
    requires s.status == Running && s.eax == Word(a) && s.ecx == Word(b)
    requires At(p, s.pc, if ty == U32 then [XorEdx, DivEcx] else [Cltd, IdivEcx])
    ensures Steps(p, s, 2) == t
    ensures Apply(op, ty, a, b).DivideError? ==> t.status == Divide && t.world == s.world
    ensures Apply(op, ty, a, b).Value? ==>
      RegsOnly(s, t, 2) && t.eax == Word(TruncDiv(a, b)) && t.edx == Word(TruncRem(a, b))
  {
    if ty == U32 {
      OperandReading(U32, a);
      OperandReading(U32, b);
      t := SimUnsignedDivision(p, s, a, b);
      if b != 0 { SignedOfWord(TruncDiv(a, b)); SignedOfWord(TruncRem(a, b)); }
    } else {
      t := SimSignedDivision(p, s, a, b);
    }
  }

  lemma SimComparison(p: Machine, s: State, op: BinOp, ty: Type, a: int, b: int) returns (t: State)
    requires IsComparison(op) && InRange(ty, a) && InRange(ty, b)
    requires s.status == Running && s.eax == Word(a) && s.ecx == Word(b)
    requires At(p, s.pc, [CmpEcx, SetAl(SetCond(op, ty == U32)), ZeroExtendAl])
    ensures Steps(p, s, 3) == t && RegsOnly(s, t, 3)
    ensures t.eax == Enc(Apply(op, ty, a, b).v)
  {
    hide Step, Steps, Compare, Apply;
    var cond := SetCond(op, ty == U32);
    var c := [CmpEcx, SetAl(cond), ZeroExtendAl];
    Fetch(p, s.pc, c, 0);
    Fetch(p, s.pc, c, 1);
    Fetch(p, s.pc, c, 2);
    ComparisonBit(op, ty, a, b);
    var t1 := StepCompare(p, s);
    var t2 := StepSet(p, t1, cond);
    LowByte(t1.eax, if Holds(cond, t1.flags) then 1 else 0);
    t := StepExtend(p, t2);
    Chain(p, s, 1, t1, 1, t2);
    Chain(p, s, 2, t2, 1, t);
  }

  /** The condition code says what the comparison says. */
  lemma ComparisonBit(op: BinOp, ty: Type, a: int, b: int)
    requires IsComparison(op) && InRange(ty, a) && InRange(ty, b)
    ensures var f := Compare(Word(a), Word(b));
      f.Flags? && Apply(op, ty, a, b) == Value(Boolean(Holds(SetCond(op, ty == U32), f)))
  {
    OperandReading(ty, a);
    OperandReading(ty, b);
    CompareMeaning(Word(a), Word(b));
    SameWord(ty, a, b);
  }

  lemma StepCompare(p: Machine, s: State) returns (t: State)
    requires s.status == Running && 0 <= s.pc < |p.code| && p.code[s.pc] == CmpEcx
    ensures Steps(p, s, 1) == t && t == s.(pc := s.pc + 1, flags := Compare(s.eax, s.ecx))
  {
    Steps1(p, s);
    t := Step(p, s);
  }

  lemma StepSet(p: Machine, s: State, c: Cond) returns (t: State)
    requires s.status == Running && 0 <= s.pc < |p.code| && p.code[s.pc] == SetAl(c) && s.flags.Flags?
    ensures Steps(p, s, 1) == t
    ensures t == s.(pc := s.pc + 1, eax := s.eax / 256 * 256 + if Holds(c, s.flags) then 1 else 0)
  {
    Steps1(p, s);
    t := Step(p, s);
  }

  lemma StepExtend(p: Machine, s: State) returns (t: State)
    requires s.status == Running && 0 <= s.pc < |p.code| && p.code[s.pc] == ZeroExtendAl
    ensures Steps(p, s, 1) == t && t == s.(pc := s.pc + 1, eax := s.eax % 256)
  {
    Steps1(p, s);
    t := Step(p, s);
  }

  lemma SameWord(ty: Type, a: int, b: int)
    requires InRange(ty, a) && InRange(ty, b)
    ensures Word(a) == Word(b) <==> a == b
  {
    OperandReading(ty, a);
    OperandReading(ty, b);
  }

  /** The instructions of one operation compute it, or trap when it fails. */
  lemma SimOp(p: Machine, s: State, op: BinOp, ot: Type, ty: Type, a: int, b: int) returns (k: nat, t: State)
    requires InRange(ot, a) && InRange(ot, b) && ty == (if IsComparison(op) then Bool else ot)
    requires s.status == Running && s.eax == Word(a) && s.ecx == Word(b)
    requires At(p, s.pc, OpCode(op, ot, ty))
    ensures Steps(p, s, k) == t
    ensures Apply(op, ot, a, b).DivideError? ==> t.status == Divide && t.world == s.world
    ensures Apply(op, ot, a, b).Value? ==>
      RegsOnly(s, t, |OpCode(op, ot, ty)|) && t.eax == Enc(Apply(op, ot, a, b).v)
  {
    hide Step;
    if IsComparison(op) {
      t := SimComparison(p, s, op, ot, a, b);
      k := 3;
    } else if op.Div? {
      t := SimDivision(p, s, op, ot, a, b);
      k := 2;
    } else if op.Rem? {
      var c := if ty == U32 then [XorEdx, DivEcx] else [Cltd, IdivEcx];
      Split(p, s.pc, c, [MovEdxEax]);
      var u := SimDivision(p, s, op, ot, a, b);
      if Apply(op, ot, a, b).DivideError? { k, t := 2, u; return; }
      t := SimRemainder(p, u);
      k := 3;
      Chain(p, s, 2, u, 1, t);
    } else {
      t := SimArithmetic(p, s, op, ot, a, b);
      k := 1;
    }
  }

  lemma SimRemainder(p: Machine, s: State) returns (t: State)
    requires s.status == Running && At(p, s.pc, [MovEdxEax])
    ensures Steps(p, s, 1) == t && t == s.(pc := s.pc + 1, eax := s.edx)
  {
    Fetch(p, s.pc, [MovEdxEax], 0);
    Steps1(p, s);
    t := Step(p, s);
  }

  lemma SimArithmetic(p: Machine, s: State, op: BinOp, ty: Type, a: int, b: int) returns (t: State)
    requires op.Add? || op.Sub? || op.Mul?
    requires InRange(ty, a) && InRange(ty, b)
    requires s.status == Running && s.eax == Word(a) && s.ecx == Word(b)
    requires At(p, s.pc, OpCode(op, ty, ty))
    ensures Steps(p, s, 1) == t
    ensures RegsOnly(s, t, 1) && Apply(op, ty, a, b).Value? && t.eax == Enc(Apply(op, ty, a, b).v)
  {
    hide Wrap;
    OpArithmetic(ty, a, b);
    Fetch(p, s.pc, OpCode(op, ty, ty), 0);
    Steps1(p, s);
    t := Step(p, s);
  }
}
