/** The part of an i386 processor that the emitted assembly uses. Registers and
    memory cells hold integers: data are words in [0, 2^32), while `%esp`,
    `%ebp`, saved frame pointers and return addresses are unbounded, so the
    stack never overflows. */
module I386 {
  import opened Words
  import opened IrSemantics

  datatype Prefix =
    | Else | EndIf | MatchEnd | MatchArm | WhileStart | WhileEnd
    | ForCondition | ForIncrement | ForEnd | LogicFalse | LogicTrue | LogicEnd

  datatype Label = Numbered(prefix: Prefix, id: nat) | ReturnOf(f: string) | FunctionOf(f: string)

  datatype Cond = E | NE | L | LE | G | GE | B | BE | A | AE

  datatype Instr =
    | Def(at: Label)          // label:
    | MovImm(n: int)             // movl $n, %eax
    | LoadSlot(offset: int)      // movl offset(%ebp), %eax
    | StoreSlot(offset: int)     // movl %eax, offset(%ebp)
    | LoadStatic(name: string)   // movl .Lstatic_name, %eax
    | StoreStatic(name: string)  // movl %eax, .Lstatic_name
    | MovEaxEcx                  // movl %eax, %ecx
    | MovEdxEax                  // movl %edx, %eax
    | PushEax
    | PopEax
    | AddImm(n: int)             // addl $n, %eax
    | SubImm(n: int)             // subl $n, %eax
    | AddEcx                     // addl %ecx, %eax
    | SubEcx                     // subl %ecx, %eax
    | MulEcx                     // imull %ecx, %eax
    | NegEax
    | XorEdx                     // xorl %edx, %edx
    | Cltd
    | DivEcx                     // divl %ecx
    | IdivEcx                    // idivl %ecx
    | CmpEcx                     // cmpl %ecx, %eax
    | CmpAl                      // cmpb $0, %al
    | CmpSlot(n: int, offset: int) // cmpl $n, offset(%ebp)
    | SetAl(c: Cond)
    | ZeroExtendAl               // movzbl %al, %eax
    | Jmp(at: Label)
    | Jcc(c: Cond, at: Label)
    | CallTo(f: string)
    | AddEsp(n: int)
    | SubEsp(n: int)
    | PushEbp
    | MovEspEbp
    | LeaveFrame                 // leave
    | Ret

  /** The condition flags; `Unknown` after an instruction whose flags the
      emitted code never looks at. */
  datatype Flags = Unknown | Flags(zf: bool, sf: bool, cf: bool, of: bool)

  datatype Status = Running | Halted | Divide | Fault

  datatype State = State(
    pc: int, eax: int, ecx: int, edx: int, esp: int, ebp: int,
    flags: Flags, mem: map<int, int>, world: World, status: Status)

  /** The loaded code together with the extern functions it may call. */
  datatype Machine = Machine(code: seq<Instr>, x: Externs)

  function Load(mem: map<int, int>, a: int): int {
    if a in mem then mem[a] else 0
  }

  /** Flags of `cmp`: the comparison of `a` with `b` through `a - b`. */
  function Compare(a: int, b: int): Flags {
    var d := Word(a - b);
    var s := Signed(a) - Signed(b);
    Flags(d == 0, d >= TWO31, a < b, !(-TWO31 <= s < TWO31))
  }

  predicate Holds(c: Cond, f: Flags)
    requires f.Flags?
  {
    match c
    case E => f.zf
    case NE => !f.zf
    case L => f.sf != f.of
    case LE => f.zf || f.sf != f.of
    case G => !f.zf && f.sf == f.of
    case GE => f.sf == f.of
    case B => f.cf
    case BE => f.cf || f.zf
    case A => !f.cf && !f.zf
    case AE => !f.cf
  }

  predicate HasLabel(code: seq<Instr>, l: Label) {
    exists i :: 0 <= i < |code| && code[i] == Def(l)
  }

  /** The address an assembler gives a label: its first definition. */
  function Find(code: seq<Instr>, l: Label): (i: int)
    ensures 0 <= i <= |code|
    ensures i < |code| ==> code[i] == Def(l)
  {
    FindFrom(code, l, 0)
  }

  function FindFrom(code: seq<Instr>, l: Label, i: nat): (k: int)
    requires i <= |code|
    ensures i <= k <= |code|
    ensures k < |code| ==> code[k] == Def(l)
    ensures forall j :: i <= j < k ==> code[j] != Def(l)
    decreases |code| - i
  {
    if i == |code| || code[i] == Def(l) then i else FindFrom(code, l, i + 1)
  }

  /** An assembler rejects a module that defines a label twice. */
  predicate UniqueLabels(code: seq<Instr>) {
    forall i, j :: 0 <= i < j < |code| && code[i].Def? ==> code[i] != code[j]
  }

  lemma FindsDefinition(code: seq<Instr>, l: Label, i: int)
    requires UniqueLabels(code)
    requires 0 <= i < |code| && code[i] == Def(l)
    ensures Find(code, l) == i
  {
    var k := FindFrom(code, l, 0);
    if k < i { assert false; }
  }

  /** Signed 64-bit `%edx:%eax`. */
  function Dividend(s: State): int {
    Signed(s.edx) * TWO32 + s.eax
  }

  function ArgWords(mem: map<int, int>, a: int, n: nat): (ws: seq<int>)
    ensures |ws| == n
    ensures forall i :: 0 <= i < n ==> ws[i] == Load(mem, a + 4 * i)
  {
    seq(n, i requires 0 <= i < n => Load(mem, a + 4 * i))
  }

  /** An extern callee returns to the caller: it may destroy `%ecx`, `%edx`, the
      flags, its arguments and everything below them on the stack. */
  function StepExtern(x: Externs, f: string, s: State): State {
    if f !in x.arity then s.(status := Fault) else
    var n := x.arity[f];
    var ws := ArgWords(s.mem, s.esp, n);
    var junk := x.junk(f, ws, s.world);
    s.(pc := s.pc + 1, eax := ExternResult(x, f, ws, s.world), ecx := Word(junk.0), edx := Word(junk.1),
       flags := Unknown, mem := map a | a in s.mem && a >= s.esp + 4 * n :: s.mem[a],
       world := ExternWorld(x, f, ws, s.world))
  }

  /** One instruction. Stack accesses must be 4-byte aligned, and a condition
      may only be read from flags that a compare has set. */
  function Step(p: Machine, s: State): State {
    if s.status != Running then s
    else if s.pc == |p.code| then s.(status := Halted)
    else if !(0 <= s.pc < |p.code|) then s.(status := Fault)
    else
      var t := s.(pc := s.pc + 1);
      match p.code[s.pc]
      case Def(_) => t
      case MovImm(n) => t.(eax := Word(n))
      case LoadSlot(o) => if (s.ebp + o) % 4 != 0 then s.(status := Fault) else t.(eax := Load(s.mem, s.ebp + o))
      case StoreSlot(o) =>
        if (s.ebp + o) % 4 != 0 then s.(status := Fault) else t.(mem := s.mem[s.ebp + o := s.eax])
      case LoadStatic(name) => t.(eax := StaticWord(s.world, name))
      case StoreStatic(name) => t.(world := SetStatic(s.world, name, s.eax))
      case MovEaxEcx => t.(ecx := s.eax)
      case MovEdxEax => t.(eax := s.edx)
      case PushEax => Push(t, s.eax)
      case PopEax => if s.esp % 4 != 0 then s.(status := Fault) else t.(eax := Load(s.mem, s.esp), esp := s.esp + 4)
      case AddImm(n) => t.(eax := Word(s.eax + n), flags := Unknown)
      case SubImm(n) => t.(eax := Word(s.eax - n), flags := Unknown)
      case AddEcx => t.(eax := Word(s.eax + s.ecx), flags := Unknown)
      case SubEcx => t.(eax := Word(s.eax - s.ecx), flags := Unknown)
      case MulEcx => t.(eax := Word(Signed(s.eax) * Signed(s.ecx)), flags := Unknown)
      case NegEax => t.(eax := Word(-s.eax), flags := Unknown)
      case XorEdx => t.(edx := 0, flags := Unknown)
      case Cltd => t.(edx := if s.eax < TWO31 then 0 else TWO32 - 1)
      case DivEcx =>
        var d := s.edx * TWO32 + s.eax;
        if s.ecx == 0 || d / s.ecx >= TWO32 then s.(status := Divide)
        else t.(eax := Word(d / s.ecx), edx := Word(d % s.ecx), flags := Unknown)
      case IdivEcx =>
        var d := Dividend(s);
        var v := Signed(s.ecx);
        if v == 0 || !(-TWO31 <= TruncDiv(d, v) < TWO31) then s.(status := Divide)
        else t.(eax := Word(TruncDiv(d, v)), edx := Word(TruncRem(d, v)), flags := Unknown)
      case CmpEcx => t.(flags := Compare(s.eax, s.ecx))
      case CmpAl => t.(flags := Flags(s.eax % 256 == 0, s.eax % 256 >= 128, false, false))
      case CmpSlot(n, o) =>
        if (s.ebp + o) % 4 != 0 then s.(status := Fault)
        else t.(flags := Compare(Load(s.mem, s.ebp + o), Word(n)))
      case SetAl(c) =>
        if s.flags.Unknown? then s.(status := Fault)
        else t.(eax := s.eax / 256 * 256 + if Holds(c, s.flags) then 1 else 0)
      case ZeroExtendAl => t.(eax := s.eax % 256)
      case Jmp(l) => s.(pc := Find(p.code, l))
      case Jcc(c, l) =>
        if s.flags.Unknown? then s.(status := Fault)
        else if Holds(c, s.flags) then s.(pc := Find(p.code, l)) else t
      case CallTo(f) =>
        if HasLabel(p.code, FunctionOf(f)) then Push(s.(pc := Find(p.code, FunctionOf(f))), s.pc + 1)
        else StepExtern(p.x, f, s)
      case AddEsp(n) => t.(esp := s.esp + n, flags := Unknown)
      case SubEsp(n) => t.(esp := s.esp - n, flags := Unknown)
      case PushEbp => Push(t, s.ebp)
      case MovEspEbp => t.(ebp := s.esp)
      case LeaveFrame =>
        if s.ebp % 4 != 0 then s.(status := Fault)
        else t.(esp := s.ebp + 4, ebp := Load(s.mem, s.ebp))
      case Ret =>
        if s.esp % 4 != 0 then s.(status := Fault)
        else s.(pc := Load(s.mem, s.esp), esp := s.esp + 4)
  }

  function Push(t: State, v: int): State {
    if t.esp % 4 != 0 then t.(status := Fault) else t.(esp := t.esp - 4, mem := t.mem[t.esp - 4 := v])
  }

  function Steps(p: Machine, s: State, n: nat): State
    decreases n
  {
    if n == 0 then s else Steps(p, Step(p, s), n - 1)
  }

  lemma {:induction false} StepsSum(p: Machine, s: State, m: nat, n: nat)
    ensures Steps(p, s, m + n) == Steps(p, Steps(p, s, m), n)
    decreases m
  {
    hide Step;
    if m > 0 { StepsSum(p, Step(p, s), m - 1, n); }
  }

  /** A state that is not running never changes again. */
  lemma {:induction false} Stopped(p: Machine, s: State, n: nat)
    requires s.status != Running
    ensures Steps(p, s, n) == s
    decreases n
  {
    if n > 0 { Stopped(p, s, n - 1); }
  }

  /** The signed conditions read the signed order off the flags, and the
      unsigned ones the order of the words. */
  lemma CompareMeaning(a: int, b: int)
    requires IsWord(a) && IsWord(b)
    ensures Holds(E, Compare(a, b)) <==> a == b
    ensures Holds(NE, Compare(a, b)) <==> a != b
    ensures Holds(L, Compare(a, b)) <==> Signed(a) < Signed(b)
    ensures Holds(LE, Compare(a, b)) <==> Signed(a) <= Signed(b)
    ensures Holds(G, Compare(a, b)) <==> Signed(a) > Signed(b)
    ensures Holds(GE, Compare(a, b)) <==> Signed(a) >= Signed(b)
    ensures Holds(B, Compare(a, b)) <==> a < b
    ensures Holds(BE, Compare(a, b)) <==> a <= b
    ensures Holds(A, Compare(a, b)) <==> a > b
    ensures Holds(AE, Compare(a, b)) <==> a >= b
  {
    var d := a - b;
    assert Word(d) == if d >= 0 then d else d + TWO32;
  }
}
