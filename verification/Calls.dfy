/** Argument passing on the three targets: greedy registers, stack spill, padding
    and cleanup, for arguments of one or more chunks. */
module Calls {
  import opened Frames

  function Registers(t: Target): nat {
    match t
    case I386 => 0
    case X64 => 6
    case Arm64 => 8
  }

  /** Bytes that one push takes. */
  function PushBytes(t: Target): nat {
    match t
    case I386 => 4
    case X64 => 8
    case Arm64 => 16
  }

  /** Bytes between the frame pointer and the first argument on the stack: return
      address and saved frame pointer. */
  function FirstArgument(t: Target): nat {
    2 * Word(t)
  }

  // ---- placement ----

  /** Small enough for registers, with enough of them left. */
  predicate Fits(t: Target, chunks: nat, used: nat) {
    chunks <= 2 && used + chunks <= Registers(t)
  }

  /** Registers that the first `i` arguments take. */
  function RegistersBefore(t: Target, ns: seq<nat>, i: nat): nat
    requires i <= |ns|
  {
    if i == 0 then 0 else
    var used := RegistersBefore(t, ns, i - 1);
    if Fits(t, ns[i - 1], used) then used + ns[i - 1] else used
  }

  /** Stack chunks that the first `i` arguments take. */
  function StackBefore(t: Target, ns: seq<nat>, i: nat): nat
    requires i <= |ns|
  {
    if i == 0 then 0 else
    var n := StackBefore(t, ns, i - 1);
    if Fits(t, ns[i - 1], RegistersBefore(t, ns, i - 1)) then n else n + ns[i - 1]
  }

  predicate InRegisters(t: Target, ns: seq<nat>, i: nat)
    requires i < |ns|
  {
    Fits(t, ns[i], RegistersBefore(t, ns, i))
  }

  /** The slot that the callee looks for a parameter in. */
  function ParameterSlot(t: Target, ns: seq<nat>, i: nat): int
    requires i < |ns|
  {
    if InRegisters(t, ns, i) then Base(t, RegistersBefore(t, ns, i), ns[i])
    else FirstArgument(t) + PushBytes(t) * StackBefore(t, ns, i)
  }

  // ---- code and machine ----

  datatype Chunk = Chunk(arg: nat, index: nat)

  /** The values of the arguments, chunk by chunk. */
  type Arguments = seq<seq<int>>

  datatype Instr =
    | Eval(chunk: Chunk)
    | Push
    | Pop(reg: nat)
    | Lower(bytes: nat)
    | Raise(bytes: nat)
    | Spill(reg: nat, slot: int)

  /** The locals of the caller begin at `top`; what it pushes lies below. */
  datatype State = State(acc: int, sp: int, fp: int, top: int, regs: int -> int, mem: int -> int)

  datatype Noise = Noise(regs: int -> int, mem: int -> int)

  /** Evaluating an argument leaves its value in the accumulator and may change all
      registers and all memory but what has been pushed: it may assign to locals and
      statics and run calls. */
  function Step(t: Target, i: Instr, args: Arguments, noise: Chunk -> Noise, s: State): State {
    match i
    case Eval(c) =>
      s.(acc := ValueOf(args, c),
         regs := noise(c).regs, mem := a => if s.sp <= a < s.top then s.mem(a) else noise(c).mem(a))
    case Push => s.(sp := s.sp - PushBytes(t), mem := a => if a == s.sp - PushBytes(t) then s.acc else s.mem(a))
    case Pop(r) => s.(sp := s.sp + PushBytes(t), regs := k => if k == r then s.mem(s.sp) else s.regs(k))
    case Lower(n) => s.(sp := s.sp - n)
    case Raise(n) => s.(sp := s.sp + n)
    case Spill(r, slot) => s.(mem := a => if a == s.fp + slot then s.regs(r) else s.mem(a))
  }

  function Run(t: Target, code: seq<Instr>, args: Arguments, noise: Chunk -> Noise, s: State): State {
    if code == [] then s else Run(t, code[1..], args, noise, Step(t, code[0], args, noise, s))
  }

  function ChunksOf(arg: nat, n: nat): (r: seq<Chunk>)
    ensures |r| == n && forall c :: 0 <= c < n ==> r[c] == Chunk(arg, c)
  {
    seq(n, c requires 0 <= c < n => Chunk(arg, c))
  }

  /** The chunks that travel in registers, or else on the stack, in order. */
  function Items(t: Target, ns: seq<nat>, i: nat, inRegisters: bool): seq<Chunk>
    requires i <= |ns|
  {
    if i == 0 then []
    else
      var last := if InRegisters(t, ns, i - 1) == inRegisters then ChunksOf(i - 1, ns[i - 1]) else [];
      Items(t, ns, i - 1, inRegisters) + last
  }

  /** Evaluates and pushes the chunks from the last to the first. */
  function Pushes(items: seq<Chunk>): seq<Instr> {
    if items == [] then [] else Pushes(items[1..]) + [Eval(items[0]), Push]
  }

  function Pops(reg: nat, n: nat): seq<Instr>
    decreases n - reg
  {
    if reg >= n then [] else [Pop(reg)] + Pops(reg + 1, n)
  }

  function Padding(t: Target, ns: seq<nat>): nat {
    if t.X64? && StackBefore(t, ns, |ns|) % 2 != 0 then 8 else 0
  }

  /** What runs before the call instruction. */
  function CallCode(t: Target, ns: seq<nat>): seq<Instr> {
    var pad := if Padding(t, ns) > 0 then [Lower(Padding(t, ns))] else [];
    pad + (Pushes(Items(t, ns, |ns|, false))
      + (Pushes(Items(t, ns, |ns|, true)) + Pops(0, RegistersBefore(t, ns, |ns|))))
  }

  /** The bytes that the caller removes again. */
  function CleanupBytes(t: Target, ns: seq<nat>): nat {
    PushBytes(t) * StackBefore(t, ns, |ns|) + Padding(t, ns)
  }

  /** The callee stores the register chunks of one parameter. */
  function SpillsOf(t: Target, slot: int, reg: nat, n: nat, c: nat): seq<Instr>
    decreases n - c
  {
    if c >= n then [] else [Spill(reg + c, ChunkSlot(t, slot, c))] + SpillsOf(t, slot, reg, n, c + 1)
  }

  function SpillCode(t: Target, ns: seq<nat>, i: nat): seq<Instr>
    requires i <= |ns|
  {
    if i == 0 then []
    else
      var last :=
        if InRegisters(t, ns, i - 1)
        then SpillsOf(t, ParameterSlot(t, ns, i - 1), RegistersBefore(t, ns, i - 1), ns[i - 1], 0)
        else [];
      SpillCode(t, ns, i - 1) + last
  }

  /** Call instruction and prologue: return address and frame pointer go below the
      arguments, and room is made for the locals. */
  function Enter(t: Target, s: State, link: int, localBytes: nat): State {
    var fp := s.sp - FirstArgument(t);
    s.(fp := fp, sp := fp - localBytes, top := fp - localBytes,
       mem := a => if a == fp then s.fp else if a == fp + Word(t) then link else s.mem(a))
  }

  // ---- the caller ----

  function Counts(args: Arguments): (ns: seq<nat>)
    ensures |ns| == |args| && forall i :: 0 <= i < |args| ==> ns[i] == |args[i]|
  {
    seq(|args|, i requires 0 <= i < |args| => |args[i]|)
  }

  function ValueOf(args: Arguments, c: Chunk): int {
    if c.arg < |args| && c.index < |args[c.arg]| then args[c.arg][c.index] else 0
  }

  lemma {:induction false} RunCat(t: Target, a: seq<Instr>, b: seq<Instr>, args: Arguments, noise: Chunk -> Noise,
                                  s: State)
    ensures Run(t, a + b, args, noise, s) == Run(t, b, args, noise, Run(t, a, args, noise, s))
    decreases |a|
  {
    hide Step;
    if a == [] {
      assert a + b == b;
    } else {
      assert (a + b)[1..] == a[1..] + b && (a + b)[0] == a[0];
      RunCat(t, a[1..], b, args, noise, Step(t, a[0], args, noise, s));
    }
  }

  /** The pushed chunks lie upwards from the stack pointer, first chunk first, and
      what was pushed before has not changed. */
  ghost predicate Pushed(t: Target, items: seq<Chunk>, args: Arguments, s: State, s': State) {
    && s'.sp == s.sp - PushBytes(t) * |items| && s'.fp == s.fp && s'.top == s.top
    && (forall k {:trigger items[k]} :: 0 <= k < |items| ==>
          s'.mem(s'.sp + PushBytes(t) * k) == ValueOf(args, items[k]))
    && (forall a :: s.sp <= a < s.top ==> s'.mem(a) == s.mem(a))
  }

  lemma {:induction false} PushesRun(t: Target, items: seq<Chunk>, args: Arguments, noise: Chunk -> Noise, s: State)
    requires s.sp <= s.top
    ensures Pushed(t, items, args, s, Run(t, Pushes(items), args, noise, s))
    decreases |items|
  {
    if items != [] {
      var rest := items[1..];
      var u := Run(t, Pushes(rest), args, noise, s);
      PushesRun(t, rest, args, noise, s);
      RunCat(t, Pushes(rest), [Eval(items[0]), Push], args, noise, s);
      var v := Step(t, Eval(items[0]), args, noise, u);
      var w := Step(t, Push, args, noise, v);
      RunTwo(t, Eval(items[0]), Push, args, noise, u);
      PushedMore(t, items, args, s, u, v, w);
    }
  }

  lemma RunTwo(t: Target, i: Instr, j: Instr, args: Arguments, noise: Chunk -> Noise, s: State)
    ensures Run(t, [i, j], args, noise, s) == Step(t, j, args, noise, Step(t, i, args, noise, s))
  {
    hide Step;
    var u := Step(t, i, args, noise, s);
    assert [i, j][1..] == [j];
    assert [j][1..] == [];
    assert Run(t, [j], args, noise, u) == Run(t, [], args, noise, Step(t, j, args, noise, u));
  }

  lemma PushedMore(t: Target, items: seq<Chunk>, args: Arguments, s: State, u: State, v: State, w: State)
    requires items != [] && Pushed(t, items[1..], args, s, u) && s.sp <= s.top
    requires v.sp == u.sp && v.fp == u.fp && v.top == u.top && v.acc == ValueOf(args, items[0])
    requires forall a :: u.sp <= a < u.top ==> v.mem(a) == u.mem(a)
    requires w.sp == v.sp - PushBytes(t) && w.fp == v.fp && w.top == v.top
    requires forall a :: w.mem(a) == if a == v.sp - PushBytes(t) then v.acc else v.mem(a)
    ensures Pushed(t, items, args, s, w)
  {
    forall k | 0 <= k < |items| ensures w.mem(w.sp + PushBytes(t) * k) == ValueOf(args, items[k]) {
      if k > 0 {
        assert items[k] == items[1..][k - 1];
        StepBack(PushBytes(t), k);
      }
    }
  }

  lemma StepBack(p: nat, k: nat)
    requires k > 0
    ensures p * (k - 1) == p * k - p && p * (k - 1) >= 0
  {
  }

  function Reg(s: State, k: int): int {
    s.regs(k)
  }

  /** Popping fills the registers from `reg` up. */
  ghost predicate Popped(t: Target, reg: nat, n: nat, s: State, s': State)
    requires reg <= n
  {
    && s'.sp == s.sp + PushBytes(t) * (n - reg) && s'.fp == s.fp && s'.top == s.top && s'.mem == s.mem
    && (forall k :: reg <= k < n ==> Reg(s', k) == s.mem(s.sp + PushBytes(t) * (k - reg)))
    && (forall k :: k < reg ==> Reg(s', k) == Reg(s, k))
  }

  lemma {:induction false} PopsRun(t: Target, reg: nat, n: nat, args: Arguments, noise: Chunk -> Noise, s: State)
    requires reg <= n
    ensures Popped(t, reg, n, s, Run(t, Pops(reg, n), args, noise, s))
    decreases n - reg
  {
    if reg < n {
      var u := Step(t, Pop(reg), args, noise, s);
      assert Pops(reg, n)[1..] == Pops(reg + 1, n);
      PopsRun(t, reg + 1, n, args, noise, u);
      var s' := Run(t, Pops(reg, n), args, noise, s);
      forall k | reg < k < n ensures Reg(s', k) == s.mem(s.sp + PushBytes(t) * (k - reg)) {
        StepBack(PushBytes(t), k - reg);
      }
      StepBack(PushBytes(t), n - reg);
    }
  }

  lemma {:induction false} ItemCounts(t: Target, ns: seq<nat>, i: nat)
    requires i <= |ns|
    ensures |Items(t, ns, i, true)| == RegistersBefore(t, ns, i) && |Items(t, ns, i, false)| == StackBefore(t, ns, i)
  {
    if i > 0 { ItemCounts(t, ns, i - 1); }
  }

  /** The position of a chunk in its list. */
  function Position(t: Target, ns: seq<nat>, j: nat, c: nat): nat
    requires j < |ns|
  {
    (if InRegisters(t, ns, j) then RegistersBefore(t, ns, j) else StackBefore(t, ns, j)) + c
  }

  lemma {:induction false} ItemAt(t: Target, ns: seq<nat>, i: nat, j: nat, c: nat)
    requires j < i <= |ns| && c < ns[j]
    ensures var items := Items(t, ns, i, InRegisters(t, ns, j));
      Position(t, ns, j, c) < |items| && items[Position(t, ns, j, c)] == Chunk(j, c)
  {
    hide RegistersBefore, StackBefore, InRegisters;
    ItemCounts(t, ns, j);
    if i > j + 1 { ItemAt(t, ns, i - 1, j, c); }
  }

  /** Before the call instruction every chunk is at its place, and nothing that was
      pushed before has changed. */
  ghost predicate Ready(t: Target, args: Arguments, s: State, s': State) {
    var ns := Counts(args);
    && s'.sp == s.sp - CleanupBytes(t, ns) && s'.fp == s.fp && s'.top == s.top
    && (forall a :: s.sp <= a < s.top ==> s'.mem(a) == s.mem(a))
    && (forall j, c {:trigger Chunk(j, c)} :: 0 <= j < |args| && 0 <= c < |args[j]| ==>
          Arrived(t, args, s', Chunk(j, c)))
  }

  ghost predicate Arrived(t: Target, args: Arguments, s: State, x: Chunk)
    requires x.arg < |args|
  {
    var ns := Counts(args);
    var k := Position(t, ns, x.arg, x.index);
    (if InRegisters(t, ns, x.arg) then Reg(s, k) else s.mem(s.sp + PushBytes(t) * k)) == ValueOf(args, x)
  }

  lemma CallerPlacesArguments(t: Target, args: Arguments, noise: Chunk -> Noise, s: State)
    requires s.sp <= s.top
    ensures Ready(t, args, s, Run(t, CallCode(t, Counts(args)), args, noise, s))
  {
    hide Items, RegistersBefore, StackBefore, Run, Pushes, Pops, Step, Pushed, Popped, Ready, Padding;
    var ns := Counts(args);
    var onStack, inRegs, regs := Items(t, ns, |ns|, false), Items(t, ns, |ns|, true), RegistersBefore(t, ns, |ns|);
    var pad := if Padding(t, ns) > 0 then [Lower(Padding(t, ns))] else [];
    var s0 := PadRun(t, Padding(t, ns), args, noise, s);
    RunCat(t, pad, Pushes(onStack) + (Pushes(inRegs) + Pops(0, regs)), args, noise, s);
    var s1 := Run(t, Pushes(onStack), args, noise, s0);
    PushesRun(t, onStack, args, noise, s0);
    RunCat(t, Pushes(onStack), Pushes(inRegs) + Pops(0, regs), args, noise, s0);
    var s2 := Run(t, Pushes(inRegs), args, noise, s1);
    PushedSpace(t, onStack, args, s0, s1);
    PushesRun(t, inRegs, args, noise, s1);
    RunCat(t, Pushes(inRegs), Pops(0, regs), args, noise, s1);
    PopsRun(t, 0, regs, args, noise, s2);
    AllPlaced(t, args, s, s1, s2, Run(t, Pops(0, regs), args, noise, s2));
  }

  lemma PushedSpace(t: Target, items: seq<Chunk>, args: Arguments, s: State, s': State)
    requires Pushed(t, items, args, s, s') && s.sp <= s.top
    ensures s'.sp <= s'.top
  {
  }

  lemma AllPlaced(t: Target, args: Arguments, s: State, s1: State, s2: State, s3: State)
    requires s.sp <= s.top
    requires var ns := Counts(args);
      && Pushed(t, Items(t, ns, |ns|, false), args, s.(sp := s.sp - Padding(t, ns)), s1)
      && Pushed(t, Items(t, ns, |ns|, true), args, s1, s2)
      && Popped(t, 0, RegistersBefore(t, ns, |ns|), s2, s3)
    ensures Ready(t, args, s, s3)
  {
    hide Items, RegistersBefore, StackBefore, Padding, Arrived;
    var ns := Counts(args);
    ItemCounts(t, ns, |ns|);
    forall j, c {:trigger Chunk(j, c)} | 0 <= j < |args| && 0 <= c < |args[j]|
      ensures Arrived(t, args, s3, Chunk(j, c))
    {
      ItemPlaced(t, args, s.(sp := s.sp - Padding(t, ns)), s1, s2, s3, j, c);
    }
  }

  lemma ItemPlaced(t: Target, args: Arguments, s0: State, s1: State, s2: State, s3: State, j: nat, c: nat)
    requires j < |args| && c < |args[j]| && s0.sp <= s0.top
    requires var ns := Counts(args);
      && Pushed(t, Items(t, ns, |ns|, false), args, s0, s1) && Pushed(t, Items(t, ns, |ns|, true), args, s1, s2)
      && Popped(t, 0, RegistersBefore(t, ns, |ns|), s2, s3)
    ensures Arrived(t, args, s3, Chunk(j, c))
  {
    hide Items, RegistersBefore, StackBefore, InRegisters, Position;
    var ns := Counts(args);
    ItemCounts(t, ns, |ns|);
    ItemAt(t, ns, |ns|, j, c);
    var k := Position(t, ns, j, c);
    var items := Items(t, ns, |ns|, InRegisters(t, ns, j));
    assert items[k] == Chunk(j, c);
  }

  lemma PadRun(t: Target, bytes: nat, args: Arguments, noise: Chunk -> Noise, s: State) returns (u: State)
    ensures u == Run(t, if bytes > 0 then [Lower(bytes)] else [], args, noise, s)
    ensures u == s.(sp := s.sp - bytes)
  {
    u := s.(sp := s.sp - bytes);
    if bytes > 0 {
      assert Run(t, [Lower(bytes)], args, noise, s) == u by { assert [Lower(bytes)][1..] == []; }
    } else {
      assert u == s;
    }
  }

  // ---- the callee ----

  lemma {:induction false} SpillsOfRun(t: Target, start: nat, n: nat, reg: nat, c: nat, args: Arguments,
                                       noise: Chunk -> Noise, s: State)
    requires c <= n
    ensures var slot := Base(t, start, n);
      var s' := Run(t, SpillsOf(t, slot, reg, n, c), args, noise, s);
      && s'.sp == s.sp && s'.fp == s.fp && s'.regs == s.regs
      && (forall d :: c <= d < n ==> s'.mem(s.fp + ChunkSlot(t, slot, d)) == s.regs(reg + d))
      && (forall a :: (a >= s.fp - Word(t) * start || a < s.fp - Word(t) * (start + n)) ==> s'.mem(a) == s.mem(a))
      && (forall d :: 0 <= d < c ==> s'.mem(s.fp + ChunkSlot(t, slot, d)) == s.mem(s.fp + ChunkSlot(t, slot, d)))
    decreases n - c
  {
    hide Base, ChunkSlot, Word;
    if c < n {
      var slot := Base(t, start, n);
      var u := Step(t, Spill(reg + c, ChunkSlot(t, slot, c)), args, noise, s);
      assert SpillsOf(t, slot, reg, n, c)[1..] == SpillsOf(t, slot, reg, n, c + 1);
      SpillsOfRun(t, start, n, reg, c + 1, args, noise, u);
      ChunkPlace(t, start, n, c);
    }
  }

  /** The chunk lies in the words of its value, apart from the other chunks. */
  lemma ChunkPlace(t: Target, start: nat, n: nat, c: nat)
    requires c < n
    ensures var slot := Base(t, start, n);
      && 0 - Word(t) * (start + n) <= ChunkSlot(t, slot, c) < 0 - Word(t) * start
      && forall d :: 0 <= d < n && d != c ==> ChunkSlot(t, slot, d) != ChunkSlot(t, slot, c)
  {
    forall d | 0 <= d < n && d != c ensures ChunkSlot(t, Base(t, start, n), d) != ChunkSlot(t, Base(t, start, n), c) {
      ChunksApart(t, start, n, c, start, n, d, start + n);
    }
    ChunkCell(t, start, n, c);
    CellBounds(t, Cell(t, start, n, c), start, start + n);
  }

  lemma CellBounds(t: Target, cell: nat, low: nat, high: nat)
    requires low < cell <= high
    ensures -(Word(t) * high) <= -(Word(t) * cell) < -(Word(t) * low)
  {
  }

  /** The register chunks of the first `i` parameters are in their slots. */
  ghost predicate Spilled(t: Target, ns: seq<nat>, i: nat, s: State, s': State)
    requires i <= |ns|
  {
    && s'.sp == s.sp && s'.fp == s.fp && s'.regs == s.regs
    && (forall a :: (a >= s.fp || a < s.fp - Word(t) * RegistersBefore(t, ns, i)) ==> s'.mem(a) == s.mem(a))
    && (forall j, c {:trigger Chunk(j, c)} :: 0 <= j < i && 0 <= c < ns[j] && InRegisters(t, ns, j) ==>
          InSlot(t, ns, s, s', Chunk(j, c)))
  }

  ghost predicate InSlot(t: Target, ns: seq<nat>, s: State, s': State, x: Chunk)
    requires x.arg < |ns|
  {
    s'.mem(s.fp + ChunkSlot(t, ParameterSlot(t, ns, x.arg), x.index)) == s.regs(RegistersBefore(t, ns, x.arg) + x.index)
  }

  lemma {:induction false} SpillsRun(t: Target, ns: seq<nat>, i: nat, args: Arguments, noise: Chunk -> Noise, s: State)
    requires i <= |ns|
    ensures Spilled(t, ns, i, s, Run(t, SpillCode(t, ns, i), args, noise, s))
  {
    hide Step, Base, ChunkSlot, ParameterSlot, Spilled, SpillsOf, RegistersBefore, InRegisters, Run;
    if i == 0 {
      NothingSpilled(t, ns, s);
      RunNothing(t, args, noise, s);
    } else {
      SpillsRun(t, ns, i - 1, args, noise, s);
      var u := Run(t, SpillCode(t, ns, i - 1), args, noise, s);
      if InRegisters(t, ns, i - 1) {
        var last := SpillsOf(t, ParameterSlot(t, ns, i - 1), RegistersBefore(t, ns, i - 1), ns[i - 1], 0);
        RunCat(t, SpillCode(t, ns, i - 1), last, args, noise, s);
        SpillOne(t, ns, i, args, noise, s, u);
      } else {
        RunCat(t, SpillCode(t, ns, i - 1), [], args, noise, s);
        RunNothing(t, args, noise, u);
        SpilledSame(t, ns, i, s, u);
      }
    }
  }

  lemma SpillOne(t: Target, ns: seq<nat>, i: nat, args: Arguments, noise: Chunk -> Noise, s: State, u: State)
    requires 0 < i <= |ns| && Spilled(t, ns, i - 1, s, u) && InRegisters(t, ns, i - 1)
    ensures var start := RegistersBefore(t, ns, i - 1);
      Spilled(t, ns, i, s, Run(t, SpillsOf(t, ParameterSlot(t, ns, i - 1), start, ns[i - 1], 0), args, noise, u))
  {
    hide Step, Base, ChunkSlot, Spilled, SpillsOf, RegistersBefore, Run, Fits;
    var start := RegistersBefore(t, ns, i - 1);
    SpillsOfRun(t, start, ns[i - 1], start, 0, args, noise, u);
    SpilledMore(t, ns, i, s, u, Run(t, SpillsOf(t, ParameterSlot(t, ns, i - 1), start, ns[i - 1], 0), args, noise, u));
  }

  lemma RunNothing(t: Target, args: Arguments, noise: Chunk -> Noise, s: State)
    ensures Run(t, [], args, noise, s) == s
  {
  }

  lemma NothingSpilled(t: Target, ns: seq<nat>, s: State)
    ensures Spilled(t, ns, 0, s, s)
  {
  }

  lemma SpilledSame(t: Target, ns: seq<nat>, i: nat, s: State, u: State)
    requires 0 < i <= |ns| && Spilled(t, ns, i - 1, s, u) && !InRegisters(t, ns, i - 1)
    ensures Spilled(t, ns, i, s, u)
  {
  }

  lemma SpilledMore(t: Target, ns: seq<nat>, i: nat, s: State, u: State, v: State)
    requires 0 < i <= |ns| && Spilled(t, ns, i - 1, s, u) && InRegisters(t, ns, i - 1)
    requires v.sp == u.sp && v.fp == u.fp && v.regs == u.regs
    requires var start, n := RegistersBefore(t, ns, i - 1), ns[i - 1];
      && (forall d :: 0 <= d < n ==> v.mem(u.fp + ChunkSlot(t, Base(t, start, n), d)) == u.regs(start + d))
      && (forall a :: (a >= u.fp - Word(t) * start || a < u.fp - Word(t) * (start + n)) ==> v.mem(a) == u.mem(a))
    ensures Spilled(t, ns, i, s, v)
  {
    var start := RegistersBefore(t, ns, i - 1);
    forall j, c {:trigger Chunk(j, c)} | 0 <= j < i && 0 <= c < ns[j] && InRegisters(t, ns, j)
      ensures InSlot(t, ns, s, v, Chunk(j, c))
    {
      if j < i - 1 {
        RegistersGrow(t, ns, j, i - 1);
        assert InSlot(t, ns, s, u, Chunk(j, c));
        ChunkCell(t, RegistersBefore(t, ns, j), ns[j], c);
        CellBounds(t, Cell(t, RegistersBefore(t, ns, j), ns[j], c), 0, start);
      }
    }
  }

  lemma {:induction false} RegistersGrow(t: Target, ns: seq<nat>, j: nat, i: nat)
    requires j < i <= |ns| && InRegisters(t, ns, j)
    ensures RegistersBefore(t, ns, j) + ns[j] <= RegistersBefore(t, ns, i)
  {
    if i > j + 1 { RegistersGrowOne(t, ns, i - 1); RegistersGrow(t, ns, j, i - 1); }
  }

  lemma RegistersGrowOne(t: Target, ns: seq<nat>, i: nat)
    requires i < |ns|
    ensures RegistersBefore(t, ns, i) <= RegistersBefore(t, ns, i + 1)
  {
  }

  /** What the caller evaluated for a chunk is what the callee finds in the slot of
      that chunk, whatever the evaluation of other arguments did to registers, locals,
      statics and memory below the stack pointer. */
  lemma ArgumentsArrive(t: Target, args: Arguments, noise: Chunk -> Noise, s: State, link: int, localBytes: nat,
                        j: nat, c: nat)
    requires (forall i :: 0 <= i < |args| ==> |args[i]| >= 1) && s.sp <= s.top
    requires j < |args| && c < |args[j]|
    ensures var ns := Counts(args);
      var called := Run(t, CallCode(t, ns), args, noise, s);
      var inside := Run(t, SpillCode(t, ns, |ns|), args, noise, Enter(t, called, link, localBytes));
      inside.mem(inside.fp + ChunkSlot(t, ParameterSlot(t, ns, j), c)) == args[j][c]
  {
    hide *;
    var ns := Counts(args);
    var called := Run(t, CallCode(t, ns), args, noise, s);
    var entered := Enter(t, called, link, localBytes);
    CallerPlacesArguments(t, args, noise, s);
    SpillsRun(t, ns, |ns|, args, noise, entered);
    var inside := Run(t, SpillCode(t, ns, |ns|), args, noise, entered);
    assert Arrived(t, args, called, Chunk(j, c)) by { ReadyAt(t, args, s, called, j, c); }
    if InRegisters(t, ns, j) { ByRegister(t, args, called, link, localBytes, inside, j, c); }
    else { ByStack(t, args, called, link, localBytes, inside, j, c); }
  }

  lemma ReadyAt(t: Target, args: Arguments, s: State, s': State, j: nat, c: nat)
    requires Ready(t, args, s, s') && j < |args| && c < |args[j]|
    ensures Arrived(t, args, s', Chunk(j, c))
  {
  }

  lemma ByRegister(t: Target, args: Arguments, called: State, link: int, localBytes: nat, inside: State, j: nat, c: nat)
    requires j < |args| && c < |args[j]| && Arrived(t, args, called, Chunk(j, c)) && InRegisters(t, Counts(args), j)
    requires Spilled(t, Counts(args), |args|, Enter(t, called, link, localBytes), inside)
    ensures inside.mem(inside.fp + ChunkSlot(t, ParameterSlot(t, Counts(args), j), c)) == args[j][c]
  {
    hide ParameterSlot, ChunkSlot, RegistersBefore, InRegisters;
    assert InSlot(t, Counts(args), Enter(t, called, link, localBytes), inside, Chunk(j, c));
  }

  lemma ByStack(t: Target, args: Arguments, called: State, link: int, localBytes: nat, inside: State, j: nat, c: nat)
    requires j < |args| && c < |args[j]| && Arrived(t, args, called, Chunk(j, c)) && !InRegisters(t, Counts(args), j)
    requires Spilled(t, Counts(args), |args|, Enter(t, called, link, localBytes), inside)
    ensures inside.mem(inside.fp + ChunkSlot(t, ParameterSlot(t, Counts(args), j), c)) == args[j][c]
  {
    StackSlot(t, Counts(args), j, c);
    hide ParameterSlot, ChunkSlot, RegistersBefore, StackBefore, InRegisters, PushBytes;
  }

  /** A chunk on the stack, seen from the frame pointer of the callee. */
  lemma StackSlot(t: Target, ns: seq<nat>, j: nat, c: nat)
    requires j < |ns| && !InRegisters(t, ns, j)
    ensures ChunkSlot(t, ParameterSlot(t, ns, j), c) == FirstArgument(t) + PushBytes(t) * Position(t, ns, j, c)
    ensures PushBytes(t) * Position(t, ns, j, c) >= 0
  {
  }

  /** The cleanup takes the stack pointer back, and at the call it has moved by a
      multiple of 16 on the targets that ask for it. */
  lemma StackIsBalanced(t: Target, args: Arguments, noise: Chunk -> Noise, s: State)
    requires s.sp <= s.top
    ensures var called := Run(t, CallCode(t, Counts(args)), args, noise, s);
      && called.sp + CleanupBytes(t, Counts(args)) == s.sp
      && (t != I386 ==> (s.sp - called.sp) % 16 == 0)
  {
    hide Run, CallCode, Ready, CleanupBytes, Counts;
    CallerPlacesArguments(t, args, noise, s);
    ReadySp(t, args, s, Run(t, CallCode(t, Counts(args)), args, noise, s));
    CleanupAligned(t, Counts(args));
  }

  lemma ReadySp(t: Target, args: Arguments, s: State, s': State)
    requires Ready(t, args, s, s')
    ensures s'.sp == s.sp - CleanupBytes(t, Counts(args))
  {
  }

  lemma CleanupAligned(t: Target, ns: seq<nat>)
    ensures t != I386 ==> CleanupBytes(t, ns) % 16 == 0
  {
    hide StackBefore;
    Multiple16(StackBefore(t, ns, |ns|));
  }

  lemma Multiple16(n: nat)
    ensures (8 * n + if n % 2 != 0 then 8 else 0) % 16 == 0 && 16 * n % 16 == 0
  {
  }

  // ---- the whole frame ----

  /** A chunk of a parameter that came in registers, or of a local. */
  datatype Place = Param(i: nat, c: nat) | Local(j: nat, d: nat)

  predicate InFrame(t: Target, ns: seq<nat>, owners: seq<Owner>, p: Place) {
    match p
    case Param(i, c) => i < |ns| && c < ns[i] && InRegisters(t, ns, i)
    case Local(j, d) => j < |owners| && d < owners[j].chunks
  }

  /** The slot of the place: locals come behind the register parameters. */
  function PlaceSlot(t: Target, ns: seq<nat>, owners: seq<Owner>, p: Place): int
    requires InFrame(t, ns, owners, p)
  {
    match p
    case Param(i, c) => ChunkSlot(t, ParameterSlot(t, ns, i), c)
    case Local(j, d) => ChunkSlot(t, SlotsFor(t, owners, RegistersBefore(t, ns, |ns|))[j], d)
  }

  function FrameBytes(t: Target, ns: seq<nat>, owners: seq<Owner>): nat {
    AlignedBytes(t, RegistersBefore(t, ns, |ns|) + Total(owners))
  }

  lemma PlaceWords(t: Target, ns: seq<nat>, owners: seq<Owner>, p: Place) returns (start: nat, chunks: nat, c: nat)
    requires InFrame(t, ns, owners, p)
    ensures c < chunks && start + chunks <= RegistersBefore(t, ns, |ns|) + Total(owners)
    ensures PlaceSlot(t, ns, owners, p) == ChunkSlot(t, Base(t, start, chunks), c)
    ensures p.Param? ==> c == p.c && start == RegistersBefore(t, ns, p.i) && chunks == ns[p.i]
    ensures p.Param? ==> start + chunks <= RegistersBefore(t, ns, |ns|)
    ensures p.Local? ==> c == p.d && start == RegistersBefore(t, ns, |ns|) + StartOf(owners, p.j)
    ensures p.Local? ==> chunks == owners[p.j].chunks
  {
    hide RegistersBefore, Base, ChunkSlot;
    match p
    case Param(i, c') =>
      start, chunks, c := RegistersBefore(t, ns, i), ns[i], c';
      RegistersGrow(t, ns, i, |ns|);
    case Local(j, d) =>
      start, chunks, c := RegistersBefore(t, ns, |ns|) + StartOf(owners, j), owners[j].chunks, d;
      SlotAt(t, owners, RegistersBefore(t, ns, |ns|), j);
      StartMonotone(owners, j, |owners|);
      assert owners[..|owners|] == owners;
  }

  /** Register parameters, `let`s, match scrutinees and pattern bindings never
      overlap, and all of them lie between the frame pointer and the stack pointer
      behind the prologue, so that no push touches them. */
  lemma FrameIsDisjoint(t: Target, ns: seq<nat>, owners: seq<Owner>, p: Place, q: Place)
    requires InFrame(t, ns, owners, p) && InFrame(t, ns, owners, q)
    ensures p != q ==> Apart(t, PlaceSlot(t, ns, owners, p), PlaceSlot(t, ns, owners, q))
    ensures 0 <= FrameBytes(t, ns, owners) + PlaceSlot(t, ns, owners, p) && PlaceSlot(t, ns, owners, p) <= 0 - Word(t)
    ensures t != I386 ==> FrameBytes(t, ns, owners) % 16 == 0
  {
    var x, m, c := PlaceWords(t, ns, owners, p);
    var y, n, d := PlaceWords(t, ns, owners, q);
    PlacesOrdered(t, ns, owners, p, q);
    hide *;
    ChunksApart(t, x, m, c, y, n, d, RegistersBefore(t, ns, |ns|) + Total(owners));
    assert PlaceSlot(t, ns, owners, p) == ChunkSlot(t, Base(t, x, m), c);
    FrameBytesAre(t, ns, owners);
  }

  lemma FrameBytesAre(t: Target, ns: seq<nat>, owners: seq<Owner>)
    ensures FrameBytes(t, ns, owners) == AlignedBytes(t, RegistersBefore(t, ns, |ns|) + Total(owners))
  {
  }

  lemma PlacesOrdered(t: Target, ns: seq<nat>, owners: seq<Owner>, p: Place, q: Place)
    requires InFrame(t, ns, owners, p) && InFrame(t, ns, owners, q)
    ensures p.Param? && q.Param? && p.i < q.i ==> RegistersBefore(t, ns, p.i) + ns[p.i] <= RegistersBefore(t, ns, q.i)
    ensures p.Param? && q.Param? && q.i < p.i ==> RegistersBefore(t, ns, q.i) + ns[q.i] <= RegistersBefore(t, ns, p.i)
    ensures p.Local? && q.Local? && p.j < q.j ==> StartOf(owners, p.j) + owners[p.j].chunks <= StartOf(owners, q.j)
    ensures p.Local? && q.Local? && q.j < p.j ==> StartOf(owners, q.j) + owners[q.j].chunks <= StartOf(owners, p.j)
  {
    if p.Param? && q.Param? {
      if p.i < q.i { RegistersGrow(t, ns, p.i, q.i); }
      if q.i < p.i { RegistersGrow(t, ns, q.i, p.i); }
    }
    if p.Local? && q.Local? {
      if p.j < q.j { StartMonotone(owners, p.j, q.j); }
      if q.j < p.j { StartMonotone(owners, q.j, p.j); }
    }
  }

  /** The frame of a function: slots of the parameters, slots of the locals in the
      order of the allocator, and the bytes that the prologue reserves. */
  method BuildFrame(t: Target, ns: seq<nat>, body: seq<Stmt>) returns (params: seq<int>, locals: seq<int>, bytes: nat)
    requires (forall i :: 0 <= i < |ns| ==> ns[i] >= 1) && Chunked(OwnersAll(body))
    ensures |params| == |ns| && forall i :: 0 <= i < |ns| ==> params[i] == ParameterSlot(t, ns, i)
    ensures locals == SlotsFor(t, OwnersAll(body), RegistersBefore(t, ns, |ns|))
    ensures bytes == FrameBytes(t, ns, OwnersAll(body))
  {
    hide ParameterSlot, SlotsFor, OwnersAll, Chunked, RegistersBefore;
    var slotIndex;
    params, slotIndex := BuildParameterSlots(t, ns);
    var builder := new FrameBuilder(t);
    builder.slotIndex := slotIndex;
    builder.AssignLocalSlots(body);
    locals := builder.slots;
    assert [] + SlotsFor(t, OwnersAll(body), slotIndex) == SlotsFor(t, OwnersAll(body), slotIndex);
    bytes := AlignedBytes(t, builder.slotIndex);
  }

  // ---- emitting it ----

  /** The caller: plans every argument, pushes the stack chunks and then the
      register chunks from the last to the first, and pops the registers. */
  method EmitCall(t: Target, ns: seq<nat>) returns (code: seq<Instr>, cleanup: nat)
    ensures code == CallCode(t, ns) && cleanup == CleanupBytes(t, ns)
  {
    hide Pushes, Pops, Items;
    var inRegisters: seq<bool> := [];
    var registerChunks: nat, stackChunks: nat := 0, 0;
    for i := 0 to |ns|
      invariant registerChunks == RegistersBefore(t, ns, i) && stackChunks == StackBefore(t, ns, i)
      invariant |inRegisters| == i && forall j :: 0 <= j < i ==> inRegisters[j] == InRegisters(t, ns, j)
    {
      var fits := ns[i] <= 2 && registerChunks + ns[i] <= Registers(t);
      if fits { registerChunks := registerChunks + ns[i]; } else { stackChunks := stackChunks + ns[i]; }
      inRegisters := inRegisters + [fits];
    }
    var padding: nat := if t.X64? && stackChunks % 2 != 0 then 8 else 0;
    var pad := if padding > 0 then [Lower(padding)] else [];
    var onStack := EmitPushes(t, ns, inRegisters, false);
    var inRegs := EmitPushes(t, ns, inRegisters, true);
    var pops := EmitPops(registerChunks);
    code := pad + (onStack + (inRegs + pops));
    cleanup := PushBytes(t) * stackChunks + padding;
  }

  method EmitPops(n: nat) returns (code: seq<Instr>)
    ensures code == Pops(0, n)
  {
    code := [];
    for i := 0 to n
      invariant code + Pops(i, n) == Pops(0, n)
    {
      assert (code + [Pop(i)]) + Pops(i + 1, n) == code + ([Pop(i)] + Pops(i + 1, n));
      code := code + [Pop(i)];
    }
  }

  /** The arguments of one kind, from the last to the first, each from its last
      chunk to its first. */
  method EmitPushes(t: Target, ns: seq<nat>, inRegisters: seq<bool>, wanted: bool) returns (code: seq<Instr>)
    requires |inRegisters| == |ns| && forall j :: 0 <= j < |ns| ==> inRegisters[j] == InRegisters(t, ns, j)
    ensures code == Pushes(Items(t, ns, |ns|, wanted))
  {
    hide Pushes, InRegisters;
    code := [];
    var i := |ns|;
    assert [] + Pushes(Items(t, ns, |ns|, wanted)) == Pushes(Items(t, ns, |ns|, wanted));
    while i > 0
      invariant 0 <= i <= |ns|
      invariant code + Pushes(Items(t, ns, i, wanted)) == Pushes(Items(t, ns, |ns|, wanted))
    {
      i := i - 1;
      ghost var items := Items(t, ns, i, wanted);
      if inRegisters[i] == wanted {
        ghost var before := code;
        PushesCat(items, ChunksOf(i, ns[i]));
        var chunks := EmitChunks(i, ns[i]);
        code := code + chunks;
        assert (before + chunks) + Pushes(items) == before + (chunks + Pushes(items));
      } else {
        assert items + [] == items;
      }
    }
    assert code + Pushes([]) == code by { NoPushes(); }
  }

  lemma NoPushes()
    ensures Pushes([]) == []
  {
  }

  /** One argument, from its last chunk to its first. */
  method EmitChunks(arg: nat, n: nat) returns (code: seq<Instr>)
    ensures code == Pushes(ChunksOf(arg, n))
  {
    code := [];
    var c := n;
    ghost var all := ChunksOf(arg, n);
    assert all[n..] == [];
    while c > 0
      invariant 0 <= c <= n && code == Pushes(all[c..])
    {
      c := c - 1;
      assert all[c..][1..] == all[c + 1..] && all[c..][0] == Chunk(arg, c);
      code := code + [Eval(Chunk(arg, c)), Push];
    }
    assert all[0..] == all;
  }

  lemma {:induction false} PushesCat(a: seq<Chunk>, b: seq<Chunk>)
    ensures Pushes(a + b) == Pushes(b) + Pushes(a)
    decreases |a|
  {
    if a == [] { assert a + b == b; } else {
      assert (a + b)[1..] == a[1..] + b;
      PushesCat(a[1..], b);
    }
  }

  /** The callee: the slots of the parameters, and how many words the register
      parameters take. */
  method BuildParameterSlots(t: Target, ns: seq<nat>) returns (slots: seq<int>, slotIndex: nat)
    requires forall i :: 0 <= i < |ns| ==> ns[i] >= 1
    ensures |slots| == |ns| && forall i :: 0 <= i < |ns| ==> slots[i] == ParameterSlot(t, ns, i)
    ensures slotIndex == RegistersBefore(t, ns, |ns|)
  {
    slots, slotIndex := [], 0;
    var registerIndex: nat, stackIndex: nat := 0, 0;
    for i := 0 to |ns|
      invariant |slots| == i && forall j :: 0 <= j < i ==> slots[j] == ParameterSlot(t, ns, j)
      invariant slotIndex == registerIndex == RegistersBefore(t, ns, i) && stackIndex == StackBefore(t, ns, i)
    {
      if ns[i] <= 2 && registerIndex + ns[i] <= Registers(t) {
        if t.X64? {
          slotIndex := slotIndex + 1;
          slots := slots + [-8 * slotIndex];
          slotIndex := slotIndex + ns[i] - 1;
        } else {
          slotIndex := slotIndex + ns[i];
          slots := slots + [-(Word(t) * slotIndex)];
        }
        registerIndex := registerIndex + ns[i];
      } else {
        slots := slots + [FirstArgument(t) + PushBytes(t) * stackIndex];
        stackIndex := stackIndex + ns[i];
      }
    }
  }

  /** The callee stores its register parameters. */
  method EmitParameterSpills(t: Target, ns: seq<nat>, slots: seq<int>) returns (code: seq<Instr>)
    requires |slots| == |ns| && forall i :: 0 <= i < |ns| ==> slots[i] == ParameterSlot(t, ns, i)
    ensures code == SpillCode(t, ns, |ns|)
  {
    code := [];
    var registerIndex: nat := 0;
    for i := 0 to |ns|
      invariant registerIndex == RegistersBefore(t, ns, i) && code == SpillCode(t, ns, i)
    {
      if ns[i] > 2 || registerIndex + ns[i] > Registers(t) { continue; }
      ghost var first, before := registerIndex, code;
      ghost var all := SpillsOf(t, slots[i], first, ns[i], 0);
      for c := 0 to ns[i]
        invariant registerIndex == first + c
        invariant code + SpillsOf(t, slots[i], first, ns[i], c) == before + all
      {
        ghost var rest := SpillsOf(t, slots[i], first, ns[i], c + 1);
        var spill := Spill(registerIndex, ChunkSlot(t, slots[i], c));
        assert (code + [spill]) + rest == code + ([spill] + rest);
        code := code + [spill];
        registerIndex := registerIndex + 1;
      }
    }
  }
}
