/** Where arguments travel, in the numbers of the calling conventions: which register,
    which word above the stack pointer, and which slot of the callee's frame. */
module Placement {
  import opened Frames
  import opened Calls

  /** Chunks of the first `i` arguments that travel in registers, or else on the stack. */
  function Ahead(t: Target, ns: seq<nat>, i: nat, inRegisters: bool): nat
    requires i <= |ns|
  {
    if i == 0 then 0
    else Ahead(t, ns, i - 1, inRegisters) + if InRegisters(t, ns, i - 1) == inRegisters then ns[i - 1] else 0
  }

  lemma {:induction false} AheadIs(t: Target, ns: seq<nat>, i: nat)
    requires i <= |ns|
    ensures Ahead(t, ns, i, true) == RegistersBefore(t, ns, i) && Ahead(t, ns, i, false) == StackBefore(t, ns, i)
  {
    if i > 0 { AheadIs(t, ns, i - 1); }
  }

  /** An argument goes to the stack only if it is too large or the six or eight
      registers do not hold it any more; i386 has none. */
  lemma TakesRegisters(t: Target, ns: seq<nat>, i: nat)
    requires i < |ns|
    ensures InRegisters(t, ns, i) <==>
      ns[i] <= 2 && Ahead(t, ns, i, true) + ns[i] <= (match t case I386 => 0 case X64 => 6 case Arm64 => 8)
  {
    AheadIs(t, ns, i);
  }

  /** The slots that the callee reads: words below the frame pointer, upwards on arm64
      and downwards on x86_64, or the words that the caller pushed. */
  lemma ParameterChunk(t: Target, ns: seq<nat>, i: nat, c: nat)
    requires i < |ns| && c < ns[i]
    ensures var slot := ChunkSlot(t, ParameterSlot(t, ns, i), c);
      if InRegisters(t, ns, i) then
        t != I386 && slot == if t.X64? then -8 * (Ahead(t, ns, i, true) + c + 1)
                             else -8 * (Ahead(t, ns, i, true) + ns[i] - c)
      else
        var k := Ahead(t, ns, i, false) + c;
        slot == match t case I386 => 8 + 4 * k case X64 => 16 + 8 * k case Arm64 => 16 + 16 * k
  {
    AheadIs(t, ns, i);
    if InRegisters(t, ns, i) {
      ChunkCell(t, RegistersBefore(t, ns, i), ns[i], c);
    } else {
      StackSlot(t, ns, i, c);
    }
  }

  /** At the call instruction every chunk of every argument is in its register, or in
      its word from the stack pointer up. */
  lemma ChunkTravels(t: Target, args: Arguments, noise: Chunk -> Noise, s: State, i: nat, c: nat)
    requires s.sp <= s.top && i < |args| && c < |args[i]|
    ensures var ns := Counts(args);
      var called := Run(t, CallCode(t, ns), args, noise, s);
      if InRegisters(t, ns, i) then called.regs(Ahead(t, ns, i, true) + c) == args[i][c]
      else
        var k := Ahead(t, ns, i, false) + c;
        called.mem(called.sp + match t case I386 => 4 * k case X64 => 8 * k case Arm64 => 16 * k) == args[i][c]
  {
    hide Run, CallCode, RegistersBefore, StackBefore, Ahead, InRegisters, Ready;
    var ns := Counts(args);
    AheadIs(t, ns, i);
    CallerPlacesArguments(t, args, noise, s);
    ReadyAt(t, args, s, Run(t, CallCode(t, ns), args, noise, s), i, c);
  }

  /** Arguments of one chunk each: the first six or eight travel in registers. */
  function OneEach(n: nat): (ns: seq<nat>)
    ensures |ns| == n && forall i :: 0 <= i < n ==> ns[i] == 1
  {
    seq(n, i => 1)
  }

  predicate EarlyWord(t: Target, i: nat) {
    match t
    case I386 => false
    case X64 => i < 6
    case Arm64 => i < 8
  }

  lemma {:induction false} WordsAhead(t: Target, ns: seq<nat>, i: nat)
    requires i <= |ns| && forall k :: 0 <= k < |ns| ==> ns[k] == 1
    ensures Ahead(t, ns, i, true) == (match t case I386 => 0 case X64 => if i < 6 then i else 6
                                              case Arm64 => if i < 8 then i else 8)
    ensures Ahead(t, ns, i, false) == i - Ahead(t, ns, i, true)
  {
    if i > 0 {
      WordsAhead(t, ns, i - 1);
      TakesRegisters(t, ns, i - 1);
    }
  }

  /** The fifth argument on x86_64 is in the fifth register, and its slot is the fifth
      word below the frame pointer. */
  lemma WordParameters(t: Target, n: nat, i: nat)
    requires i < n
    ensures InRegisters(t, OneEach(n), i) <==> EarlyWord(t, i)
    ensures ParameterSlot(t, OneEach(n), i) ==
      match t
      case I386 => 8 + 4 * i
      case X64 => if i < 6 then -8 * (i + 1) else 16 + 8 * (i - 6)
      case Arm64 => if i < 8 then -8 * (i + 1) else 16 + 16 * (i - 8)
  {
    hide InRegisters, ParameterSlot, Ahead;
    var ns := OneEach(n);
    WordsAhead(t, ns, i);
    TakesRegisters(t, ns, i);
    ParameterChunk(t, ns, i, 0);
    FirstChunk(t, ParameterSlot(t, ns, i));
  }

  lemma FirstChunk(t: Target, base: int)
    ensures ChunkSlot(t, base, 0) == base
  {
  }

  lemma WordsTravel(t: Target, args: Arguments, noise: Chunk -> Noise, s: State, i: nat)
    requires s.sp <= s.top && i < |args| && forall k :: 0 <= k < |args| ==> |args[k]| == 1
    ensures var called := Run(t, CallCode(t, Counts(args)), args, noise, s);
      match t
      case I386 => called.mem(called.sp + 4 * i) == args[i][0]
      case X64 => if i < 6 then called.regs(i) == args[i][0] else called.mem(called.sp + 8 * (i - 6)) == args[i][0]
      case Arm64 => if i < 8 then called.regs(i) == args[i][0] else called.mem(called.sp + 16 * (i - 8)) == args[i][0]
  {
    hide InRegisters, Ahead, Run, CallCode;
    var ns := Counts(args);
    WordsAhead(t, ns, i);
    TakesRegisters(t, ns, i);
    ChunkTravels(t, args, noise, s, i, 0);
  }
}
