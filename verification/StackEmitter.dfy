/** The emitters of the three targets as the compiler has them, as far as the stack
    and labels go: an object that appends to its output, numbers labels, keeps the
    labels of the enclosing loops, and on x86_64 counts the bytes it has pushed. */
module StackEmitter {
  import opened Frames
  import opened Calls
  import opened StackCode
  import opened StackLevel
  import opened StackProof
  import opened StackStatements
  import opened StackModule
  import opened StackSteps
  import I386
  import Spec = StackCode

  type Value = StackCode.Value
  type Stmt = StackCode.Stmt
  type Arm = StackCode.Arm
  type Function = StackCode.Function

  class StackEmitter {
    const target: Target
    var out: seq<Op>
    var nextLabelId: nat
    var loopStartLabels: seq<Label>
    var loopEndLabels: seq<Label>
    var evalStackBytes: int
    /** What the prologues so far have reserved. */
    ghost var reserved: nat

    constructor (target: Target)
      ensures this.target == target && out == [] && nextLabelId == 0 && evalStackBytes == 0 && reserved == 0
      ensures loopStartLabels == [] && loopEndLabels == [] && Tracks()
    {
      this.target := target;
      out, nextLabelId, loopStartLabels, loopEndLabels, evalStackBytes, reserved := [], 0, [], [], 0, 0;
    }

    /** On x86_64 the counter is the real depth of the evaluation stack behind the
        output so far. */
    ghost predicate Tracks()
      reads this
    {
      if target.X64? then Depth(target, out, 0, |out|) == reserved + evalStackBytes else evalStackBytes == 0
    }

    ghost function CurrentLoop(): Loop
      reads this
    {
      if loopStartLabels == [] || loopEndLabels == [] then NoLoop
      else InLoop(loopStartLabels[|loopStartLabels| - 1], loopEndLabels[|loopEndLabels| - 1])
    }

    /** What emitting `code` does to the object. */
    twostate predicate Appended(code: seq<Op>, next: nat)
      reads this
    {
      && out == old(out) + code && nextLabelId == next && reserved == old(reserved)
      && loopStartLabels == old(loopStartLabels) && loopEndLabels == old(loopEndLabels)
    }

    method MakeLabel(prefix: I386.Prefix) returns (l: Label)
      requires Tracks()
      modifies this`nextLabelId
      ensures l == Numbered(prefix, old(nextLabelId)) && nextLabelId == old(nextLabelId) + 1 && Tracks()
    {
      l := Numbered(prefix, nextLabelId);
      nextLabelId := nextLabelId + 1;
    }

    method Emit(code: seq<Op>)
      requires Tracks() && Still(target, code)
      modifies this`out
      ensures out == old(out) + code && Tracks()
    {
      hide Depth, Still;
      DepthMore(target, out, code, 0);
      DepthStill(target, code, Depth(target, out, 0, |out|), |code|);
      out := out + code;
    }

    /** The stack pointer moves, and so does the counter. */
    method MoveStack(op: Op)
      requires Tracks()
      modifies this`out, this`evalStackBytes
      ensures out == old(out) + [op] && Tracks()
      ensures evalStackBytes == old(evalStackBytes) + if target.X64? then Effect(target, op) else 0
    {
      DepthMore(target, out, [op], 0);
      OneDepth(target, op, Depth(target, out, 0, |out|));
      out := out + [op];
      if target.X64? {
        if op.PushWord? { evalStackBytes := evalStackBytes + 8; }
        if op.PopWord? { evalStackBytes := evalStackBytes - 8; }
        if op.LowerSp? { evalStackBytes := evalStackBytes + op.bytes; }
        if op.RaiseSp? { evalStackBytes := evalStackBytes - op.bytes; }
      }
    }

    method EmitPushAccumulator()
      requires Tracks()
      modifies this`out, this`evalStackBytes
      ensures out == old(out) + PushAcc(target) && Tracks()
    {
      if target.Arm64? {
        MoveStack(LowerSp(16));
        Emit([Plain]);
      } else {
        MoveStack(PushWord);
      }
    }

    method EmitPopTo()
      requires Tracks()
      modifies this`out, this`evalStackBytes
      ensures out == old(out) + PopTo(target) && Tracks()
    {
      if target.Arm64? {
        Emit([Plain]);
        MoveStack(RaiseSp(16));
      } else {
        MoveStack(PopWord);
      }
    }

    // ---- values ----

    /** A value leaves the counter as it was. */
    method EmitValue(v: Value)
      requires Tracks()
      modifies this
      ensures var r := Spec.EmitValue(target, v, old(nextLabelId)); Appended(r.code, r.next)
      ensures Tracks() && evalStackBytes == old(evalStackBytes)
      decreases v, 4
    {
      hide Tracks, Spec.PushAcc, Spec.PopTo, Spec.EmitChunk, Spec.EmitLiteralChunk, Spec.EmitCallOf, Still, Depth, Ok;
      StillOps(target);
      match v {
      case StringLiteral(_) => Emit([Plain]);
      case Leaf(_) => Emit([Plain]);
      case Increment(_, postfix) => EmitIncrement(v);
      case Wrap(_, a) =>
        EmitValue(a);
        Emit([Plain]);
      case Binary(_, a, b) => EmitBinary(v);
      case Logical(_, _, _, _) => EmitLogical(v);
      case Call(_, _, _) => EmitCall(v);
      case Literal(_, _, _) => EmitLiteralChunk(v, 0);
      case FieldOf(_, offset, base) =>
        EmitChunk(base, offset / Word(target));
        Emit([Plain]);
      }
      ghost var r := Spec.EmitValue(target, v, old(nextLabelId));
      ValueIsLevel(target, v, Depth(target, old(out), 0, |old(out)|), old(nextLabelId));
      CounterBack(target, old(out), r.code, Range(old(nextLabelId), r.next));
      assert Appended(r.code, r.next);
      assert reserved == old(reserved);
      SameCounter();
    }

    /** The counter follows the depth. */
    twostate lemma SameCounter()
      requires old(Tracks()) && Tracks() && reserved == old(reserved)
      requires Depth(target, out, 0, |out|) == Depth(target, old(out), 0, |old(out)|)
      ensures evalStackBytes == old(evalStackBytes)
    {
    }

    method EmitIncrement(v: Value)
      requires v.Increment? && Tracks()
      modifies this
      ensures Appended(Spec.EmitValue(target, v, old(nextLabelId)).code, old(nextLabelId)) && Tracks()
      decreases v, 3
    {
      hide Tracks, Spec.PushAcc, Spec.PopTo, Still, Depth;
      StillOps(target);
      ghost var o := out;
      Emit([Plain]);
      if v.postfix {
        EmitPushAccumulator();
        Emit([Plain]);
        EmitPopTo();
        Cat4(o, [Plain], Spec.PushAcc(target), [Plain], Spec.PopTo(target));
      }
    }

    method EmitBinary(v: Value)
      requires v.Binary? && Tracks()
      modifies this
      ensures var r := Spec.EmitValue(target, v, old(nextLabelId)); Appended(r.code, r.next) && Tracks()
      decreases v, 3
    {
      StillOps(target);
      ghost var o := out;
      ghost var r := Spec.EmitValue(target, v.lhs, nextLabelId);
      ghost var q := Spec.EmitValue(target, v.rhs, r.next);
      assert Spec.EmitValue(target, v, nextLabelId)
          == Emitted(r.code + (PushAcc(target) + (q.code + ([Plain] + (PopTo(target) + [Plain])))), q.next);
      hide Tracks, Spec.PushAcc, Spec.PopTo, Still, Depth, Spec.EmitValue;
      EmitValue(v.lhs);
      EmitPushAccumulator();
      EmitValue(v.rhs);
      Emit([Plain]);
      EmitPopTo();
      Emit([Plain]);
      Cat6(o, r.code, PushAcc(target), q.code, [Plain], PopTo(target), [Plain]);
    }

    method EmitLogical(v: Value)
      requires v.Logical? && Tracks()
      modifies this
      ensures var r := Spec.EmitValue(target, v, old(nextLabelId)); Appended(r.code, r.next) && Tracks()
      decreases v, 3
    {
      ghost var o, n := out, nextLabelId;
      ghost var r := Spec.EmitValue(target, v.lhs, n + 2);
      ghost var q := Spec.EmitValue(target, v.rhs, r.next);
      LogicalCode(target, v, n);
      hide Tracks, Still, Depth, Spec.EmitValue;
      var short := MakeLabel(ShortPrefix(v.isAnd));
      var end := MakeLabel(I386.LogicEnd);
      StillTest(target, v.isAnd, short, end);
      var test := [TestAcc, Branch(short, v.isAnd)];
      var exits := [SetAcc(v.isAnd), Jump(end), Def(short), SetAcc(!v.isAnd), Def(end)];
      EmitValue(v.lhs);
      Emit(test);
      EmitValue(v.rhs);
      Emit(test);
      Emit(exits);
      Cat5(o, r.code, test, q.code, test, exits);
    }

    method EmitChunk(v: Value, c: nat)
      requires Tracks()
      modifies this
      ensures var r := Spec.EmitChunk(target, v, c, old(nextLabelId)); Appended(r.code, r.next) && Tracks()
      decreases v, 5
    {
      hide Tracks, Spec.EmitValue, Spec.EmitLiteralChunk, Still, Depth;
      StillOps(target);
      if v.Literal? { EmitLiteralChunk(v, c); } else if c == 0 { EmitValue(v); } else { Emit([Plain]); }
    }

    /** Combines the fields of one chunk, skipping those of other chunks. */
    method EmitLiteralChunk(v: Value, c: nat)
      requires v.Literal? && Tracks()
      modifies this
      ensures var r := Spec.EmitLiteralChunk(target, v, c, old(nextLabelId)); Appended(r.code, r.next) && Tracks()
      decreases v, 3
    {
      hide Tracks, Spec.PushAcc, Spec.PopTo, Spec.EmitFields, Spec.EmitField, Still, Depth;
      StillOps(target);
      ghost var o := out;
      Emit([Plain]);
      if v.isEnum && c == 0 { EmitTag(); }
      ghost var tag := if v.isEnum && c == 0 then PushAcc(target) + ([Plain] + (PopTo(target) + [Plain])) else [];
      ghost var whole := Spec.EmitFields(target, v.fields, c, nextLabelId);
      Cat3(o, [Plain], tag, whole.code);
      assert v.fields[0..] == v.fields;
      for i := 0 to |v.fields|
        invariant Tracks() && Goes(v.fields[i..], c, ((o + [Plain]) + tag) + whole.code, whole.next)
        invariant loopStartLabels == old(loopStartLabels) && loopEndLabels == old(loopEndLabels)
        invariant reserved == old(reserved)
      {
        NextField(target, v.fields, i, c, nextLabelId, out);
        EmitField(v.fields[i], c);
      }
      assert v.fields[|v.fields|..] == [];
      NoFields(target, c, nextLabelId);
      assert out + [] == out;
    }

    /** What is still to be emitted for `fields` completes the output to `goal`. */
    ghost predicate Goes(fields: seq<Field>, c: nat, goal: seq<Op>, next: nat)
      reads this
    {
      var r := Spec.EmitFields(target, fields, c, nextLabelId); out + r.code == goal && r.next == next
    }

    method EmitTag()
      requires Tracks()
      modifies this
      ensures Appended(PushAcc(target) + ([Plain] + (PopTo(target) + [Plain])), old(nextLabelId)) && Tracks()
    {
      hide Tracks, Spec.PushAcc, Spec.PopTo, Still, Depth;
      StillOps(target);
      ghost var o := out;
      EmitPushAccumulator();
      Emit([Plain]);
      EmitPopTo();
      Emit([Plain]);
      Cat4(o, PushAcc(target), [Plain], PopTo(target), [Plain]);
    }

    method EmitField(f: Field, c: nat)
      requires Tracks()
      modifies this
      ensures var r := Spec.EmitField(target, f, c, old(nextLabelId)); Appended(r.code, r.next) && Tracks()
      decreases f, 0
    {
      hide Tracks, Spec.PushAcc, Spec.PopTo, Spec.EmitValue, Still, Depth;
      StillOps(target);
      ghost var o := out;
      if f.offset / Word(target) != c { return; }
      ghost var r := Spec.EmitValue(target, f.value, nextLabelId);
      EmitPushAccumulator();
      EmitValue(f.value);
      Emit([Plain]);
      EmitPopTo();
      Emit([Plain]);
      Cat5(o, PushAcc(target), r.code, [Plain], PopTo(target), [Plain]);
    }

    // ---- calls ----

    /** Plans the arguments, pads, pushes the stack arguments and then the register
        arguments, pops the registers, calls and cleans up. */
    method EmitCall(v: Value)
      requires v.Call? && Tracks()
      modifies this
      ensures var r := Spec.EmitCallOf(target, v, old(nextLabelId)); Appended(r.code, r.next) && Tracks()
      decreases v, 3
    {
      ghost var o, n := out, nextLabelId;
      CallParts(target, v, n);
      hide Tracks, Spec.EmitPushed, Spec.EmitCallOf, PopsInto, RegistersBefore, StackBefore, Planned, Still, Depth;
      hide ArgChunks, ArgumentsCode, Bytes;
      var chunks := ArgChunks(target, v.args);
      var inRegisters, registerChunks, stackChunks := PlanArguments(chunks);
      var padding: nat := if target.X64? && stackChunks % 2 != 0 then 8 else 0;
      var bytes := Bytes(target, stackChunks);
      EmitPadding(padding);
      EmitArguments(v.args, inRegisters, registerChunks);
      EmitCallAndCleanup(v.callee, bytes, bytes + padding);
      ghost var pad := if padding > 0 then [LowerSp(padding)] else [];
      ghost var clean := if bytes + padding > 0 then [RaiseSp(bytes + padding)] else [];
      Cat3(o, pad, ArgumentsCode(target, v.args, n).code, [CallTo(v.callee, bytes)] + clean);
    }

    method EmitCallAndCleanup(callee: string, bytes: nat, cleanup: nat)
      requires Tracks()
      modifies this`out, this`evalStackBytes
      ensures out == old(out) + ([CallTo(callee, bytes)] + (if cleanup > 0 then [RaiseSp(cleanup)] else [])) && Tracks()
    {
      StillCall(target, callee, bytes);
      Emit([CallTo(callee, bytes)]);
      if cleanup > 0 { MoveStack(RaiseSp(cleanup)); }
    }

    /** Pushes the stack arguments, then the register arguments, and pops these. */
    method EmitArguments(args: seq<Value>, inRegisters: seq<bool>, registerChunks: nat)
      requires Tracks()
      requires var ns := ArgChunks(target, args);
        Planned(target, ns, inRegisters) && registerChunks == RegistersBefore(target, ns, |ns|)
      modifies this
      ensures var r := ArgumentsCode(target, args, old(nextLabelId)); Appended(r.code, r.next) && Tracks()
      decreases args, 3
    {
      hide Tracks, Spec.EmitPushed, PopsInto, RegistersBefore, Planned, Still, Depth;
      ghost var o, n := out, nextLabelId;
      ghost var a := Spec.EmitPushed(target, args, |args|, false, n);
      ghost var b := Spec.EmitPushed(target, args, |args|, true, a.next);
      EmitPushes(args, inRegisters, false);
      EmitPushes(args, inRegisters, true);
      EmitPops(registerChunks);
      Cat3(o, a.code, b.code, PopsInto(target, registerChunks));
    }

    method EmitPadding(bytes: nat)
      requires Tracks()
      modifies this`out, this`evalStackBytes
      ensures out == old(out) + (if bytes > 0 then [LowerSp(bytes)] else []) && Tracks()
    {
      if bytes > 0 { MoveStack(LowerSp(bytes)); }
    }

    method PlanArguments(chunks: seq<nat>) returns (inRegisters: seq<bool>, registerChunks: nat, stackChunks: nat)
      ensures Planned(target, chunks, inRegisters) && registerChunks == RegistersBefore(target, chunks, |chunks|)
      ensures stackChunks == StackBefore(target, chunks, |chunks|)
    {
      inRegisters, registerChunks, stackChunks := [], 0, 0;
      for i := 0 to |chunks|
        invariant registerChunks == RegistersBefore(target, chunks, i) && stackChunks == StackBefore(target, chunks, i)
        invariant |inRegisters| == i && forall j :: 0 <= j < i ==> inRegisters[j] == InRegisters(target, chunks, j)
      {
        var fits := chunks[i] <= 2 && registerChunks + chunks[i] <= Registers(target);
        if fits { registerChunks := registerChunks + chunks[i]; } else { stackChunks := stackChunks + chunks[i]; }
        inRegisters := inRegisters + [fits];
      }
    }

    /** The arguments of one kind, from the last to the first. */
    method EmitPushes(args: seq<Value>, inRegisters: seq<bool>, wanted: bool)
      requires Tracks() && Planned(target, ArgChunks(target, args), inRegisters)
      modifies this
      ensures var r := Spec.EmitPushed(target, args, |args|, wanted, old(nextLabelId));
        Appended(r.code, r.next) && Tracks()
      decreases args, 2
    {
      hide Tracks, Spec.EmitPushed, Spec.EmitChunksDown, InRegisters, Still, Depth;
      ghost var whole := Spec.EmitPushed(target, args, |args|, wanted, nextLabelId);
      var i := |args|;
      while i > 0
        invariant 0 <= i <= |args| && Tracks()
        invariant ToPush(args, i, wanted, old(out) + whole.code, whole.next)
        invariant loopStartLabels == old(loopStartLabels) && loopEndLabels == old(loopEndLabels)
        invariant reserved == old(reserved)
      {
        i := i - 1;
        NextPushed(target, args, i, wanted, nextLabelId, out);
        if inRegisters[i] == wanted { EmitChunksDown(args[i]); }
      }
      NonePushed(target, args, wanted, nextLabelId);
      assert out + [] == out;
    }

    ghost predicate ToPush(args: seq<Value>, i: nat, wanted: bool, goal: seq<Op>, next: nat)
      requires i <= |args|
      reads this
    {
      var r := Spec.EmitPushed(target, args, i, wanted, nextLabelId); out + r.code == goal && r.next == next
    }

    /** One argument, from its last chunk to its first. */
    method EmitChunksDown(v: Value)
      requires Tracks()
      modifies this
      ensures var r := Spec.EmitChunksDown(target, v, Chunks(target, v.size), old(nextLabelId));
        Appended(r.code, r.next) && Tracks()
      decreases v, 6
    {
      hide Tracks, Spec.EmitChunksDown, Spec.EmitChunk, Spec.PushAcc, Chunks, Still, Depth;
      var k := Chunks(target, v.size);
      ghost var whole := Spec.EmitChunksDown(target, v, k, nextLabelId);
      while k > 0
        invariant 0 <= k && Tracks() && ToPushChunks(v, k, old(out) + whole.code, whole.next)
        invariant loopStartLabels == old(loopStartLabels) && loopEndLabels == old(loopEndLabels)
        invariant reserved == old(reserved)
      {
        k := k - 1;
        NextChunkDown(target, v, k, nextLabelId, out);
        EmitChunk(v, k);
        EmitPushAccumulator();
      }
      NoChunkDown(target, v, nextLabelId);
      assert out + [] == out;
    }

    ghost predicate ToPushChunks(v: Value, k: nat, goal: seq<Op>, next: nat)
      reads this
    {
      var r := Spec.EmitChunksDown(target, v, k, nextLabelId); out + r.code == goal && r.next == next
    }

    method EmitPops(n: nat)
      requires Tracks()
      modifies this
      ensures Appended(PopsInto(target, n), old(nextLabelId)) && Tracks()
    {
      hide Tracks, Spec.PopTo, Still, Depth;
      ghost var goal := out + PopsInto(target, n);
      for i := 0 to n
        invariant out + PopsInto(target, n - i) == goal && Tracks() && nextLabelId == old(nextLabelId)
        invariant loopStartLabels == old(loopStartLabels) && loopEndLabels == old(loopEndLabels)
        invariant reserved == old(reserved)
      {
        Cat2(out, PopTo(target), PopsInto(target, n - i - 1));
        EmitPopTo();
      }
      assert out + [] == out;
    }

    // ---- statements ----

    ghost predicate Ready(st: Stmt)
      reads this
    {
      Tracks() && |loopStartLabels| == |loopEndLabels| && LoopsOk(st, loopStartLabels != [])
    }

    ghost predicate ReadyFor(body: seq<Stmt>)
      reads this
    {
      Tracks() && |loopStartLabels| == |loopEndLabels| && AllLoopsOk(body, loopStartLabels != [])
    }

    method EmitChunksUp(v: Value, c: nat, k: nat)
      requires Tracks() && c <= k
      modifies this
      ensures var r := Spec.EmitChunksUp(target, v, c, k, old(nextLabelId)); Appended(r.code, r.next) && Tracks()
    {
      hide Tracks, Spec.EmitChunksUp, Spec.EmitChunk, Still, Depth;
      StillOps(target);
      ghost var whole := Spec.EmitChunksUp(target, v, c, k, nextLabelId);
      for i := c to k
        invariant Tracks() && ToStore(v, i, k, old(out) + whole.code, whole.next)
        invariant loopStartLabels == old(loopStartLabels) && loopEndLabels == old(loopEndLabels)
        invariant reserved == old(reserved)
      {
        NextChunkUp(target, v, i, k, nextLabelId, out);
        EmitChunk(v, i);
        Emit([Plain]);
      }
      NoChunkUp(target, v, k, nextLabelId);
      assert out + [] == out;
    }

    ghost predicate ToStore(v: Value, i: nat, k: nat, goal: seq<Op>, next: nat)
      reads this
    {
      var r := Spec.EmitChunksUp(target, v, i, k, nextLabelId); out + r.code == goal && r.next == next
    }

    method EmitToSlots(v: Value)
      requires Tracks()
      modifies this
      ensures var r := Spec.EmitToSlots(target, v, old(nextLabelId)); Appended(r.code, r.next) && Tracks()
    {
      hide Tracks, Spec.EmitChunksUp, Spec.EmitValue, Chunks, Still, Depth;
      StillOps(target);
      var k := Chunks(target, v.size);
      if target.Arm64? && v.Call? && k == 2 {
        EmitValue(v);
        Emit([Plain]);
      } else {
        EmitChunksUp(v, 0, k);
      }
    }

    method EmitReturned(v: Value)
      requires Tracks()
      modifies this
      ensures var r := Spec.EmitReturned(target, v, old(nextLabelId)); Appended(r.code, r.next) && Tracks()
    {
      hide Tracks, Spec.EmitChunk, Spec.EmitChunksUp, Spec.EmitValue, Spec.PushAcc, Spec.PopTo, Chunks, Still, Depth;
      var k := Chunks(target, v.size);
      ghost var o := out;
      if target.X64? || k == 1 {
        EmitValue(v);
      } else {
        ghost var r := Spec.EmitChunk(target, v, 0, nextLabelId);
        ghost var q := Spec.EmitChunksUp(target, v, 1, k, r.next);
        EmitChunk(v, 0);
        EmitPushAccumulator();
        EmitChunksUp(v, 1, k);
        EmitPopTo();
        Cat4(o, r.code, PushAcc(target), q.code, PopTo(target));
      }
    }

    method EmitStore(v: Value, place: Value)
      requires Tracks()
      modifies this
      ensures var r := Spec.EmitValue(target, v, old(nextLabelId));
        var q := Spec.EmitValue(target, place, r.next);
        && Appended(r.code + (PushAcc(target) + (q.code + (PopTo(target) + [Plain]))), q.next) && Tracks()
    {
      hide Tracks, Spec.EmitValue, Spec.PushAcc, Spec.PopTo, Still, Depth;
      StillOps(target);
      ghost var o := out;
      ghost var r := Spec.EmitValue(target, v, nextLabelId);
      ghost var q := Spec.EmitValue(target, place, r.next);
      EmitValue(v);
      EmitPushAccumulator();
      EmitValue(place);
      EmitPopTo();
      Emit([Plain]);
      Cat5(o, r.code, PushAcc(target), q.code, PopTo(target), [Plain]);
    }

    method EmitJump(l: Label)
      requires Tracks()
      modifies this`out
      ensures out == old(out) + [Jump(l)] && Tracks()
    {
      assert Still(target, [Jump(l)]);
      Emit([Jump(l)]);
    }

    /** One statement. The loop labels of a `break` or `continue` are there. */
    method EmitStatement(st: Stmt, ret: Label)
      requires Ready(st)
      modifies this
      ensures var r := Spec.EmitStmt(target, st, old(nextLabelId), old(CurrentLoop()), ret);
        Appended(r.code, r.next) && Tracks()
      decreases st, 3
    {
      hide Tracks, Spec.EmitChunksUp, Spec.EmitValue, Spec.EmitToSlots, Spec.EmitReturned, Spec.PushAcc, Spec.PopTo;
      hide Chunks;
      hide Still, Depth, Spec.EmitIf, Spec.EmitWhile, Spec.EmitFor, Spec.EmitMatch;
      StillOps(target);
      if Refused(target, st) {
        assert out + [] == out;
        return;
      }
      match st
      case Let(v) => EmitToSlots(v);
      case Assign(isLocal, v) =>
        if isLocal && !target.Arm64? {
          EmitChunksUp(v, 0, Chunks(target, v.size));
        } else {
          EmitValue(v);
          Emit([Plain]);
        }
      case Store(v, place) => EmitStore(v, place);
      case Expr(v) => EmitValue(v);
      case If(_, _, _) => EmitIf(st, ret);
      case While(_, _) => EmitWhile(st, ret);
      case For(_, _, _, _) => EmitFor(st, ret);
      case Match(_, _) => EmitMatch(st, ret);
      case Break => EmitJump(loopEndLabels[|loopEndLabels| - 1]);
      case Continue => EmitJump(loopStartLabels[|loopStartLabels| - 1]);
      case Return(v) =>
        EmitReturned(v);
        EmitJump(ret);
    }

    method EmitBody(body: seq<Stmt>, ret: Label)
      requires ReadyFor(body)
      modifies this
      ensures var r := Spec.EmitBody(target, body, old(nextLabelId), old(CurrentLoop()), ret);
        Appended(r.code, r.next) && Tracks()
      decreases body, 0
    {
      hide Tracks, Spec.EmitStmt, Spec.EmitBody, LoopsOk, AllLoopsOk;
      ghost var whole := Spec.EmitBody(target, body, nextLabelId, CurrentLoop(), ret);
      assert body[0..] == body;
      for i := 0 to |body|
        invariant ReadyFor(body[i..]) && ToEmit(body[i..], ret, old(out) + whole.code, whole.next)
        invariant loopStartLabels == old(loopStartLabels) && loopEndLabels == old(loopEndLabels)
        invariant reserved == old(reserved)
      {
        NextStatement(target, body, i, nextLabelId, CurrentLoop(), ret, out, loopStartLabels != []);
        EmitStatement(body[i], ret);
      }
      assert body[|body|..] == [];
      NoStatement(target, nextLabelId, CurrentLoop(), ret);
      assert out + [] == out;
    }

    ghost predicate ToEmit(body: seq<Stmt>, ret: Label, goal: seq<Op>, next: nat)
      reads this
    {
      var r := Spec.EmitBody(target, body, nextLabelId, CurrentLoop(), ret); out + r.code == goal && r.next == next
    }

    method EmitIf(st: Stmt, ret: Label)
      requires st.If? && Ready(st)
      modifies this
      ensures var r := Spec.EmitIf(target, st, old(nextLabelId), old(CurrentLoop()), ret);
        Appended(r.code, r.next) && Tracks()
      decreases st, 2
    {
      hide Tracks, Spec.EmitValue, Spec.EmitBody, AllLoopsOk, Still, Depth;
      ghost var o, lo := out, CurrentLoop();
      ghost var r := Spec.EmitValue(target, st.cond, nextLabelId + 2);
      ghost var a := Spec.EmitBody(target, st.thenBody, r.next, lo, ret);
      ghost var b := Spec.EmitBody(target, st.elseBody, a.next, lo, ret);
      var other := MakeLabel(I386.Else);
      var end := MakeLabel(I386.EndIf);
      StillIf(target, other, end);
      EmitValue(st.cond);
      Emit([TestAcc, Branch(other, true)]);
      EmitBody(st.thenBody, ret);
      Emit([Jump(end), Def(other)]);
      EmitBody(st.elseBody, ret);
      Emit([Def(end)]);
      Cat6(o, r.code, [TestAcc, Branch(other, true)], a.code, [Jump(end), Def(other)], b.code, [Def(end)]);
    }

    method PushLoop(start: Label, end: Label)
      requires |loopStartLabels| == |loopEndLabels| && Tracks()
      modifies this`loopStartLabels, this`loopEndLabels
      ensures loopStartLabels == old(loopStartLabels) + [start] && loopEndLabels == old(loopEndLabels) + [end]
      ensures CurrentLoop() == InLoop(start, end) && Tracks()
    {
      loopStartLabels, loopEndLabels := loopStartLabels + [start], loopEndLabels + [end];
    }

    method PopLoop()
      requires |loopStartLabels| == |loopEndLabels| > 0 && Tracks()
      modifies this`loopStartLabels, this`loopEndLabels
      ensures loopStartLabels == old(loopStartLabels[..|loopStartLabels| - 1])
      ensures loopEndLabels == old(loopEndLabels[..|loopEndLabels| - 1]) && Tracks()
    {
      loopEndLabels := loopEndLabels[..|loopEndLabels| - 1];
      loopStartLabels := loopStartLabels[..|loopStartLabels| - 1];
    }

    /** The body of a loop, between its labels on the stacks. */
    method EmitLoopBody(body: seq<Stmt>, start: Label, end: Label, ret: Label)
      requires Tracks() && |loopStartLabels| == |loopEndLabels| && AllLoopsOk(body, true)
      modifies this
      ensures var r := Spec.EmitBody(target, body, old(nextLabelId), InLoop(start, end), ret);
        Appended(r.code, r.next) && Tracks()
      decreases body, 1
    {
      hide Tracks, Spec.EmitBody, AllLoopsOk;
      PushLoop(start, end);
      EmitBody(body, ret);
      PopLoop();
    }

    method EmitWhile(st: Stmt, ret: Label)
      requires st.While? && Ready(st)
      modifies this
      ensures var r := Spec.EmitWhile(target, st, old(nextLabelId), ret); Appended(r.code, r.next) && Tracks()
      decreases st, 2
    {
      hide Tracks, Spec.EmitValue, Spec.EmitBody, AllLoopsOk, Still, Depth;
      ghost var o, n := out, nextLabelId;
      var start := MakeLabel(I386.WhileStart);
      var end := MakeLabel(I386.WhileEnd);
      ghost var r := Spec.EmitValue(target, st.cond, n + 2);
      ghost var b := Spec.EmitBody(target, st.body, r.next, InLoop(start, end), ret);
      StillWhile(target, start, end);
      Emit([Def(start)]);
      EmitValue(st.cond);
      Emit([TestAcc, Branch(end, true)]);
      EmitLoopBody(st.body, start, end, ret);
      Emit([Jump(start), Def(end)]);
      Cat5(o, [Def(start)], r.code, [TestAcc, Branch(end, true)], b.code, [Jump(start), Def(end)]);
    }

    method EmitFor(st: Stmt, ret: Label)
      requires st.For? && Ready(st)
      modifies this
      ensures var r := Spec.EmitFor(target, st, old(nextLabelId), old(CurrentLoop()), ret);
        Appended(r.code, r.next) && Tracks()
      decreases st, 2
    {
      hide Tracks, Spec.EmitFor, Spec.EmitStmt, LoopsOk, AllLoopsOk, ForLoop;
      ghost var o, n, lo := out, nextLabelId, CurrentLoop();
      ForParts(target, st, n, lo, ret);
      LoopsOkFor(st, loopStartLabels != []);
      var cond := MakeLabel(I386.ForCondition);
      var step := MakeLabel(I386.ForIncrement);
      var end := MakeLabel(I386.ForEnd);
      ghost var i := Spec.EmitStmt(target, st.init, n + 3, lo, ret);
      EmitStatement(st.init, ret);
      EmitForLoop(st, cond, step, end, ret);
      Cat2(o, i.code, ForLoop(target, st, cond, step, end, i.next, lo, ret).code);
    }

    /** The part of a `for` behind its initializer. */
    method EmitForLoop(st: Stmt, cond: Label, step: Label, end: Label, ret: Label)
      requires st.For? && Ready(st.step) && AllLoopsOk(st.body, true)
      modifies this
      ensures var r := ForLoop(target, st, cond, step, end, old(nextLabelId), old(CurrentLoop()), ret);
        Appended(r.code, r.next) && Tracks()
      decreases st, 1
    {
      hide Tracks, Spec.EmitValue, Spec.EmitBody, Spec.EmitStmt, LoopsOk, AllLoopsOk, Still, Depth;
      ghost var o := out;
      ghost var r := Spec.EmitValue(target, st.cond, nextLabelId);
      ghost var b := Spec.EmitBody(target, st.body, r.next, InLoop(step, end), ret);
      ghost var g := Spec.EmitStmt(target, st.step, b.next, CurrentLoop(), ret);
      StillFor(target, cond, step, end);
      Emit([Def(cond)]);
      EmitValue(st.cond);
      Emit([TestAcc, Branch(end, true)]);
      EmitLoopBody(st.body, step, end, ret);
      Emit([Def(step)]);
      EmitStatement(st.step, ret);
      Emit([Jump(cond), Def(end)]);
      Cat7(o, [Def(cond)], r.code, [TestAcc, Branch(end, true)], b.code, [Def(step)], g.code, [Jump(cond), Def(end)]);
    }

    /** Labels for the arms, the value, the tests, a jump to the last default arm or to
        the end, and the arms. */
    method EmitMatch(st: Stmt, ret: Label)
      requires st.Match? && Ready(st)
      modifies this
      ensures var r := Spec.EmitMatch(target, st, old(nextLabelId), old(CurrentLoop()), ret);
        Appended(r.code, r.next) && Tracks()
      decreases st, 2
    {
      ghost var n, lo := nextLabelId, CurrentLoop();
      MatchParts(target, st, n, lo, ret);
      assert ArmLoopsOk(st.arms, loopStartLabels != []);
      hide Tracks, Spec.EmitMatch, Spec.EmitToSlots, ArmsCode, ArmLabel, Numbered, ArmLoopsOk, LoopsOk;
      var end, armLabels := MakeMatchLabels(|st.arms|);
      EmitMatchBody(st.value, st.arms, armLabels, n + 1, end, ret);
    }

    method EmitMatchBody(value: Value, arms: seq<Arm>, armLabels: seq<Label>, ghost label0: nat, end: Label, ret: Label)
      requires Tracks() && |loopStartLabels| == |loopEndLabels| && ArmLoopsOk(arms, loopStartLabels != [])
      requires |armLabels| == |arms| && forall i :: 0 <= i < |arms| ==> armLabels[i] == ArmLabel(label0 + i)
      modifies this
      ensures var r := Spec.EmitToSlots(target, value, old(nextLabelId));
        var b := ArmsCode(target, arms, label0, r.next, end, old(CurrentLoop()), ret);
        Appended(r.code + (b.code + [Def(end)]), b.next) && Tracks()
      decreases arms, 2
    {
      hide Tracks, Spec.EmitToSlots, ArmsCode, ArmLabel, ArmLoopsOk, Still;
      ghost var o, lo := out, CurrentLoop();
      ghost var r := Spec.EmitToSlots(target, value, nextLabelId);
      EmitToSlots(value);
      EmitSelection(arms, armLabels, label0, end, ret);
      StillDef(target, end);
      Emit([Def(end)]);
      Cat3(o, r.code, ArmsCode(target, arms, label0, r.next, end, lo, ret).code, [Def(end)]);
    }

    /** The tests, the jump behind them, and the arms. */
    method EmitSelection(arms: seq<Arm>, armLabels: seq<Label>, ghost label0: nat, end: Label, ret: Label)
      requires Tracks() && |loopStartLabels| == |loopEndLabels| && ArmLoopsOk(arms, loopStartLabels != [])
      requires |armLabels| == |arms| && forall i :: 0 <= i < |arms| ==> armLabels[i] == ArmLabel(label0 + i)
      modifies this
      ensures var r := ArmsCode(target, arms, label0, old(nextLabelId), end, old(CurrentLoop()), ret);
        Appended(r.code, r.next) && Tracks()
      decreases arms, 1
    {
      hide Tracks, Spec.EmitArms, Dispatch, Fallback, ArmLoopsOk, ArmLabel;
      ghost var o := out;
      ghost var b := Spec.EmitArms(target, arms, label0, nextLabelId, end, CurrentLoop(), ret);
      var last := EmitDispatch(arms, armLabels, label0, end);
      EmitJump(last);
      EmitArms(arms, armLabels, label0, end, ret);
      Cat3(o, Dispatch(arms, label0), [Jump(last)], b.code);
    }

    method MakeMatchLabels(k: nat) returns (end: Label, labels: seq<Label>)
      requires Tracks()
      modifies this`nextLabelId
      ensures end == Numbered(I386.MatchEnd, old(nextLabelId)) && nextLabelId == old(nextLabelId) + 1 + k && Tracks()
      ensures |labels| == k && (forall i :: 0 <= i < k ==> labels[i] == ArmLabel(old(nextLabelId) + 1 + i))
    {
      end := MakeLabel(I386.MatchEnd);
      labels := [];
      for i := 0 to k
        invariant |labels| == i && (forall j :: 0 <= j < i ==> labels[j] == ArmLabel(old(nextLabelId) + 1 + j))
        invariant nextLabelId == old(nextLabelId) + 1 + i && Tracks()
      {
        var l := MakeLabel(I386.MatchArm);
        labels := labels + [l];
      }
    }

    /** The tests of all arms; the result is where to go if none succeeds. */
    method EmitDispatch(arms: seq<Arm>, armLabels: seq<Label>, ghost label0: nat, end: Label) returns (last: Label)
      requires Tracks() && |armLabels| == |arms| && forall i :: 0 <= i < |arms| ==> armLabels[i] == ArmLabel(label0 + i)
      modifies this
      ensures Appended(Dispatch(arms, label0), old(nextLabelId)) && last == Fallback(arms, label0, end) && Tracks()
    {
      hide Tracks, Dispatch, DispatchArm, Fallback, ArmLabel;
      last := end;
      ghost var goal := out + Dispatch(arms, label0);
      assert arms[0..] == arms;
      for i := 0 to |arms|
        invariant Tracks() && nextLabelId == old(nextLabelId) && out + Dispatch(arms[i..], label0 + i) == goal
        invariant Fallback(arms[i..], label0 + i, last) == Fallback(arms, label0, end)
        invariant loopStartLabels == old(loopStartLabels) && loopEndLabels == old(loopEndLabels)
        invariant reserved == old(reserved)
      {
        NextDispatch(arms, i, label0, last, out);
        EmitDispatchArm(arms[i].patterns, armLabels[i]);
        if Default in arms[i].patterns { last := armLabels[i]; }
      }
      assert arms[|arms|..] == [];
      NoDispatch(label0 + |arms|, last);
      assert out + [] == out;
    }

    method EmitDispatchArm(patterns: seq<Pattern>, arm: Label)
      requires Tracks()
      modifies this
      ensures Appended(DispatchArm(patterns, arm), old(nextLabelId)) && Tracks()
    {
      hide Tracks, DispatchArm;
      ghost var goal := out + DispatchArm(patterns, arm);
      assert patterns[0..] == patterns;
      StillPattern(target, arm);
      for i := 0 to |patterns|
        invariant Tracks() && nextLabelId == old(nextLabelId) && out + DispatchArm(patterns[i..], arm) == goal
        invariant loopStartLabels == old(loopStartLabels) && loopEndLabels == old(loopEndLabels)
        invariant reserved == old(reserved)
      {
        NextPattern(patterns, i, arm, out);
        if patterns[i].Default? { continue; }
        if patterns[i].Always? { Emit([Jump(arm)]); } else { Emit([Plain, Branch(arm, true)]); }
      }
      assert patterns[|patterns|..] == [];
      NoPattern(arm);
      assert out + [] == out;
    }

    method EmitArms(arms: seq<Arm>, armLabels: seq<Label>, ghost label0: nat, end: Label, ret: Label)
      requires Tracks() && |loopStartLabels| == |loopEndLabels| && ArmLoopsOk(arms, loopStartLabels != [])
      requires |armLabels| == |arms| && forall i :: 0 <= i < |arms| ==> armLabels[i] == ArmLabel(label0 + i)
      modifies this
      ensures var r := Spec.EmitArms(target, arms, label0, old(nextLabelId), end, old(CurrentLoop()), ret);
        Appended(r.code, r.next) && Tracks()
      decreases arms, 0
    {
      hide Tracks, Spec.EmitArms, Spec.EmitBody, ArmLabel, ArmLoopsOk, AllLoopsOk;
      ghost var whole := Spec.EmitArms(target, arms, label0, nextLabelId, end, CurrentLoop(), ret);
      assert arms[0..] == arms;
      for i := 0 to |arms|
        invariant Tracks() && ArmLoopsOk(arms[i..], loopStartLabels != [])
        invariant ArmsLeft(arms[i..], label0 + i, end, ret, old(out) + whole.code, whole.next)
        invariant loopStartLabels == old(loopStartLabels) && loopEndLabels == old(loopEndLabels)
        invariant reserved == old(reserved)
      {
        NextArm(target, arms, i, label0, nextLabelId, end, CurrentLoop(), ret, out, loopStartLabels != []);
        StillArm(target, armLabels[i], end);
        Emit([Def(armLabels[i]), Plain]);
        EmitBody(arms[i].body, ret);
        Emit([Jump(end)]);
      }
      assert arms[|arms|..] == [];
      NoArm(target, label0 + |arms|, nextLabelId, end, CurrentLoop(), ret);
      assert out + [] == out;
    }

    ghost predicate ArmsLeft(arms: seq<Arm>, label0: nat, end: Label, ret: Label, goal: seq<Op>, next: nat)
      reads this
    {
      var r := Spec.EmitArms(target, arms, label0, nextLabelId, end, CurrentLoop(), ret);
      out + r.code == goal && r.next == next
    }

    // ---- functions ----

    /** Room for the locals is no evaluation depth. */
    method Reserve(bytes: nat)
      requires Tracks()
      modifies this`out, this`reserved
      ensures out == old(out) + (if bytes > 0 then [LowerSp(bytes)] else []) && reserved == old(reserved) + bytes
      ensures Tracks()
    {
      if bytes > 0 {
        DepthMore(target, out, [LowerSp(bytes)], 0);
        OneDepth(target, LowerSp(bytes), Depth(target, out, 0, |out|));
        out, reserved := out + [LowerSp(bytes)], reserved + bytes;
      }
    }

    /** The body of a function leaves the counter as it was. */
    method EmitFunctionBody(f: Function, ret: Label)
      requires Tracks() && loopStartLabels == loopEndLabels == [] && AllLoopsOk(f.body, false)
      modifies this
      ensures var r := Spec.EmitBody(target, f.body, old(nextLabelId), NoLoop, ret); Appended(r.code, r.next)
      ensures Tracks() && evalStackBytes == old(evalStackBytes)
    {
      hide Tracks, Spec.EmitBody, AllLoopsOk, Depth, Flat;
      EmitBody(f.body, ret);
      BodyDepth(target, f.body, old(out), old(nextLabelId), ret);
      assert reserved == old(reserved);
      SameCounter();
    }

    /** A function is emitted with an empty evaluation stack in front of it and behind
        it. */
    method EmitFunction(f: Function)
      requires Tracks() && evalStackBytes == 0 && loopStartLabels == loopEndLabels == [] && AllLoopsOk(f.body, false)
      modifies this
      ensures var r := Spec.EmitFunction(target, f, old(nextLabelId)); out == old(out) + r.code && nextLabelId == r.next
      ensures Tracks() && evalStackBytes == 0 && loopStartLabels == loopEndLabels == []
    {
      var ret, entry := I386.ReturnOf(f.name), I386.FunctionOf(f.name);
      var room := Room(target, f);
      ghost var o := out;
      ghost var b := Spec.EmitBody(target, f.body, nextLabelId, NoLoop, ret);
      ghost var front := if room > 0 then [LowerSp(room)] else [];
      FunctionCode(target, f, nextLabelId);
      StillFunction(target, entry, ret);
      hide Tracks, Spec.EmitBody, Spec.EmitFunction, Room, AllLoopsOk, Still, Depth;
      Emit([Def(entry), SaveFrame]);
      Reserve(room);
      Emit([Plain]);
      EmitFunctionBody(f, ret);
      Emit([Def(ret), Leave]);
      Cat5(o, [Def(entry), SaveFrame], front, [Plain], b.code, [Def(ret), Leave]);
    }

    /** All functions of a module, in order. */
    method EmitModule(fs: seq<Function>)
      requires Tracks() && evalStackBytes == 0 && loopStartLabels == loopEndLabels == [] && AllFunctionsOk(fs)
      modifies this
      ensures var r := Spec.EmitFunctions(target, fs, old(nextLabelId));
        out == old(out) + r.code && nextLabelId == r.next
      ensures Tracks() && evalStackBytes == 0
    {
      hide Tracks, Spec.EmitFunction, Spec.EmitFunctions, AllLoopsOk;
      ghost var whole := Spec.EmitFunctions(target, fs, nextLabelId);
      assert fs[0..] == fs;
      for i := 0 to |fs|
        invariant Tracks() && evalStackBytes == 0 && loopStartLabels == loopEndLabels == []
        invariant FunctionsLeft(fs[i..], old(out) + whole.code, whole.next)
      {
        NextFunction(target, fs, i, nextLabelId, out);
        assert AllLoopsOk(fs[i].body, false);
        EmitFunction(fs[i]);
      }
      assert fs[|fs|..] == [];
      NoFunction(target, nextLabelId);
      assert out + [] == out;
    }

    ghost predicate FunctionsLeft(fs: seq<Function>, goal: seq<Op>, next: nat)
      reads this
    {
      var r := Spec.EmitFunctions(target, fs, nextLabelId); out + r.code == goal && r.next == next
    }
  }
}
