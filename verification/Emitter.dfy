/** The i386 emitter as the compiler has it: an object that appends to its
    output, numbers labels with a counter and keeps the labels of the enclosing
    loops on two stacks. Each method is proved to append exactly the code that
    the functions of `EmitI386` describe. */
module Emitter {
  import opened Ir
  import opened I386
  import opened FrameI386
  import opened Branches
  import Spec = EmitI386

  type SlotMap = Spec.SlotMap

  lemma LoopsOkFor(s: Stmt, inLoop: bool)
    requires s.For? && LoopsOk(s, inLoop)
    ensures LoopsOk(s.init, inLoop) && LoopsOk(s.step, inLoop) && AllLoopsOk(s.body, true)
  {
  }

  lemma AgreesFor(s: Stmt, frame: Slots, k: nat)
    requires s.For? && Agrees(s, frame, k)
    ensures Agrees(s.init, frame, k) && AgreesAll(s.body, frame, k + Spec.Count(s.init))
    ensures Agrees(s.step, frame, k + Spec.Count(s.init) + Spec.CountAll(s.body))
  {
  }

  lemma Cat3(o: seq<Instr>, a: seq<Instr>, b: seq<Instr>, c: seq<Instr>)
    ensures ((o + a) + b) + c == o + (a + (b + c))
  {
  }

  lemma Cat5(o: seq<Instr>, a: seq<Instr>, b: seq<Instr>, c: seq<Instr>, d: seq<Instr>, e: seq<Instr>)
    ensures ((((o + a) + b) + c) + d) + e == o + (a + (b + (c + (d + e))))
  {
    Cat3(o + a + b, c, d, e);
    Cat3(o, a, b, c + (d + e));
  }

  lemma Cat6(o: seq<Instr>, a: seq<Instr>, b: seq<Instr>, c: seq<Instr>, d: seq<Instr>, e: seq<Instr>, f: seq<Instr>)
    ensures (((((o + a) + b) + c) + d) + e) + f == o + (a + (b + (c + (d + (e + f)))))
  {
    Cat3(o + a + b + c, d, e, f);
    Cat5(o, a, b, c, d, e + f);
    Cat3(o + a + b, c, d, e + f);
  }

  lemma NextStatement(body: seq<Stmt>, frame: Slots, k: nat, inLoop: bool)
    requires body != [] && AgreesAll(body, frame, k) && AllLoopsOk(body, inLoop)
    ensures Agrees(body[0], frame, k) && AgreesAll(body[1..], frame, k + Spec.Count(body[0]))
    ensures LoopsOk(body[0], inLoop) && AllLoopsOk(body[1..], inLoop)
  {
  }

  lemma NextCode(body: seq<Stmt>, slots: SlotMap, k: nat, n: nat, lo: Spec.Loop, ret: Label)
    requires body != []
    ensures var a := Spec.EmitStmt(body[0], slots, k, n, lo, ret);
      var b := Spec.EmitStmts(body[1..], a.slots, k + Spec.Count(body[0]), a.next, lo, ret);
      Spec.EmitStmts(body, slots, k, n, lo, ret) == Spec.EmittedStmt(a.code + b.code, b.slots, b.next)
  {
    hide Spec.EmitStmt;
  }

  lemma NoCode(slots: SlotMap, k: nat, n: nat, lo: Spec.Loop, ret: Label)
    ensures Spec.EmitStmts([], slots, k, n, lo, ret) == Spec.EmittedStmt([], slots, n)
  {
  }

  lemma NextFunction(fs: seq<Function>, n: nat)
    requires fs != []
    ensures var a := Spec.EmitFunction(fs[0], n);
      Spec.EmitFunctions(fs, n).code == a.code + Spec.EmitFunctions(fs[1..], a.next).code
  {
    hide Spec.EmitFunction;
  }

  lemma NoFunctions(n: nat)
    ensures Spec.EmitFunctions([], n).code == []
  {
  }

  lemma Cat2(o: seq<Instr>, a: seq<Instr>, b: seq<Instr>)
    ensures (o + a) + b == o + (a + b)
  {
  }

  class Emitter {
    var out: seq<Instr>
    var nextLabelId: nat
    var loopStartLabels: seq<Label>
    var loopEndLabels: seq<Label>

    constructor ()
      ensures out == [] && nextLabelId == 0 && loopStartLabels == [] && loopEndLabels == []
    {
      out, nextLabelId, loopStartLabels, loopEndLabels := [], 0, [], [];
    }

    /** The innermost loop, by its two labels. */
    ghost function CurrentLoop(): Spec.Loop
      reads this
    {
      if loopStartLabels == [] || loopEndLabels == [] then Spec.NoLoop
      else Spec.InLoop(loopStartLabels[|loopStartLabels| - 1], loopEndLabels[|loopEndLabels| - 1])
    }

    /** What emitting `code` does to the object; loops are left as they were. */
    twostate predicate Appended(code: seq<Instr>, next: nat)
      reads this
    {
      && out == old(out) + code && nextLabelId == next
      && loopStartLabels == old(loopStartLabels) && loopEndLabels == old(loopEndLabels)
    }

    method MakeLabel(prefix: Prefix) returns (l: Label)
      modifies this`nextLabelId
      ensures l == Numbered(prefix, old(nextLabelId)) && nextLabelId == old(nextLabelId) + 1
    {
      l := Numbered(prefix, nextLabelId);
      nextLabelId := nextLabelId + 1;
    }

    method Emit(code: seq<Instr>)
      modifies this`out
      ensures out == old(out) + code
    {
      out := out + code;
    }

    method EmitValue(e: Value, slots: SlotMap)
      modifies this
      ensures var r := Spec.EmitValue(e, slots, old(nextLabelId)); Appended(r.code, r.next)
      decreases e, 2
    {
      match e
      case IntLit(_, n) => Emit([MovImm(n)]);
      case BoolLit(b) => Emit([MovImm(if b then 1 else 0)]);
      case Local(name, _) => Emit([LoadSlot(Spec.SlotOf(slots, name))]);
      case Global(name, _) => Emit([LoadStatic(name)]);
      case Neg(a) =>
        EmitValue(a, slots);
        Emit([NegEax]);
      case Not(a) =>
        EmitValue(a, slots);
        Emit([CmpAl, SetAl(E), ZeroExtendAl]);
      case Incr(_, _, _, _, _) => EmitIncrement(e, slots);
      case Binary(_, _, _, _) => EmitBinary(e, slots);
      case And(_, _) => EmitLogical(e, slots);
      case Or(_, _) => EmitLogical(e, slots);
      case Cast(a, _) => EmitValue(a, slots);
      case Call(_, _, _) => EmitCall(e, slots);
    }

    method EmitIncrement(e: Value, slots: SlotMap)
      requires e.Incr?
      modifies this
      ensures Appended(Spec.IncrCode(e, slots), old(nextLabelId))
    {
      Emit([if e.isLocal then LoadSlot(Spec.SlotOf(slots, e.name)) else LoadStatic(e.name)]);
      if e.postfix { Emit([PushEax]); }
      Emit([if e.up then AddImm(1) else SubImm(1)]);
      Emit([if e.isLocal then StoreSlot(Spec.SlotOf(slots, e.name)) else StoreStatic(e.name)]);
      if e.postfix { Emit([PopEax]); }
    }

    method EmitBinary(e: Value, slots: SlotMap)
      requires e.Binary?
      modifies this
      ensures var r := Spec.EmitBinary(e, slots, old(nextLabelId)); Appended(r.code, r.next)
      decreases e, 1
    {
      hide Spec.EmitValue, Spec.OpCode, Spec.IncrCode;
      EmitValue(e.lhs, slots);
      Emit([PushEax]);
      EmitValue(e.rhs, slots);
      Emit([MovEaxEcx, PopEax]);
      Emit(Spec.OpCode(e.op, TypeOf(e.lhs), e.ty));
    }

    method EmitLogical(e: Value, slots: SlotMap)
      requires e.And? || e.Or?
      modifies this
      ensures var r := Spec.EmitLogical(e, slots, old(nextLabelId)); Appended(r.code, r.next)
      decreases e, 1
    {
      hide Spec.EmitValue;
      ghost var o := out;
      var short := MakeLabel(if e.And? then LogicFalse else LogicTrue);
      var end := MakeLabel(LogicEnd);
      var cond := if e.And? then E else NE;
      var test := [CmpAl, Jcc(cond, short)];
      var tail := [MovImm(if e.And? then 1 else 0), Jmp(end), Def(short), MovImm(if e.And? then 0 else 1), Def(end)];
      ghost var r := Spec.EmitValue(e.lhs, slots, nextLabelId);
      EmitValue(e.lhs, slots);
      Emit(test);
      ghost var q := Spec.EmitValue(e.rhs, slots, nextLabelId);
      EmitValue(e.rhs, slots);
      Emit(test);
      Emit(tail);
      Cat5(o, r.code, test, q.code, test, tail);
    }

    /** Walks the arguments from the last to the first, pushing each. */
    method EmitCall(e: Value, slots: SlotMap)
      requires e.Call?
      modifies this
      ensures var r := Spec.EmitCall(e, slots, old(nextLabelId)); Appended(r.code, r.next)
      decreases e, 1
    {
      var i := |e.args|;
      ghost var start := old(nextLabelId);
      while i > 0
        invariant 0 <= i <= |e.args|
        invariant var r := Spec.EmitArgs(e.args[i..], slots, start); Appended(r.code, r.next)
      {
        i := i - 1;
        assert e.args[i..][1..] == e.args[i + 1..];
        EmitValue(e.args[i], slots);
        Emit([PushEax]);
      }
      assert e.args[0..] == e.args;
      Emit([CallTo(e.callee)]);
      if |e.args| > 0 { Emit([AddEsp(4 * |e.args|)]); }
    }

    method PushLoop(start: Label, end: Label)
      requires |loopStartLabels| == |loopEndLabels|
      modifies this`loopStartLabels, this`loopEndLabels
      ensures loopStartLabels == old(loopStartLabels) + [start] && loopEndLabels == old(loopEndLabels) + [end]
      ensures CurrentLoop() == Spec.InLoop(start, end)
    {
      loopStartLabels, loopEndLabels := loopStartLabels + [start], loopEndLabels + [end];
    }

    method PopLoop()
      requires |loopStartLabels| == |loopEndLabels| > 0
      modifies this`loopStartLabels, this`loopEndLabels
      ensures loopStartLabels == old(loopStartLabels[..|loopStartLabels| - 1])
      ensures loopEndLabels == old(loopEndLabels[..|loopEndLabels| - 1])
    {
      loopEndLabels := loopEndLabels[..|loopEndLabels| - 1];
      loopStartLabels := loopStartLabels[..|loopStartLabels| - 1];
    }

    /** Emits one statement; the slot of a `let` joins the slot map that is
        returned. `k` is the number of slots handed out before it. */
    method EmitStatement(s: Stmt, frame: Slots, ghost k: nat, ret: Label, slots: SlotMap) returns (slots': SlotMap)
      requires Agrees(s, frame, k) && |loopStartLabels| == |loopEndLabels| && LoopsOk(s, loopStartLabels != [])
      modifies this
      ensures var r := Spec.EmitStmt(s, slots, k, old(nextLabelId), old(CurrentLoop()), ret);
        Appended(r.code, r.next) && slots' == r.slots
      decreases s, 3
    {
      slots' := slots;
      match s
      case Let(id, name, e) =>
        var slot := frame.lets[id];
        EmitValue(e, slots);
        Emit([StoreSlot(slot)]);
        slots' := slots[name := slot];
      case Assign(name, e) =>
        EmitValue(e, slots);
        Emit([if name in slots then StoreSlot(slots[name]) else StoreStatic(name)]);
      case Expr(e) => EmitValue(e, slots);
      case Return(e) =>
        EmitValue(e, slots);
        Emit([Jmp(ret)]);
      case If(_, _, _) => EmitIf(s, frame, k, ret, slots);
      case While(_, _) => EmitWhile(s, frame, k, ret, slots);
      case For(_, _, _, _) => EmitFor(s, frame, k, ret, slots);
      case Match(_, _, _) => EmitMatch(s, frame, k, ret, slots);
      case Break => Emit([Jmp(loopEndLabels[|loopEndLabels| - 1])]);
      case Continue => Emit([Jmp(loopStartLabels[|loopStartLabels| - 1])]);
    }

    method EmitStatements(body: seq<Stmt>, frame: Slots, ghost k: nat, ret: Label, slots: SlotMap)
      returns (slots': SlotMap)
      requires AgreesAll(body, frame, k) && |loopStartLabels| == |loopEndLabels|
      requires AllLoopsOk(body, loopStartLabels != [])
      modifies this
      ensures var r := Spec.EmitStmts(body, slots, k, old(nextLabelId), old(CurrentLoop()), ret);
        Appended(r.code, r.next) && slots' == r.slots
      decreases body, 0
    {
      hide Spec.EmitStmt, Spec.EmitStmts, Spec.Count, Agrees, LoopsOk, AgreesAll, AllLoopsOk;
      slots' := slots;
      assert body[0..] == body;
      ghost var used: nat := k;
      ghost var whole := Spec.EmitStmts(body, slots, k, nextLabelId, CurrentLoop(), ret);
      for i := 0 to |body|
        invariant Undone(body[i..], slots', used, ret, old(out) + whole.code, whole.slots, whole.next)
        invariant AgreesAll(body[i..], frame, used) && AllLoopsOk(body[i..], loopStartLabels != [])
        invariant loopStartLabels == old(loopStartLabels) && loopEndLabels == old(loopEndLabels)
      {
        assert body[i..][1..] == body[i + 1..] && body[i..][0] == body[i];
        NextStatement(body[i..], frame, used, loopStartLabels != []);
        NextCode(body[i..], slots', used, nextLabelId, CurrentLoop(), ret);
        ghost var a := Spec.EmitStmt(body[i], slots', used, nextLabelId, CurrentLoop(), ret);
        ghost var b := Spec.EmitStmts(body[i + 1..], a.slots, used + Spec.Count(body[i]), a.next, CurrentLoop(), ret);
        Cat2(out, a.code, b.code);
        slots' := EmitStatement(body[i], frame, used, ret, slots');
        used := used + Spec.Count(body[i]);
      }
      assert body[|body|..] == [];
      NoCode(slots', used, nextLabelId, CurrentLoop(), ret);
      assert out + [] == out;
    }

    /** What is still to be emitted for `body` completes the output to `goal`. */
    ghost predicate Undone(body: seq<Stmt>, slots: SlotMap, k: nat, ret: Label, goal: seq<Instr>, lastSlots: SlotMap,
                           next: nat)
      reads this
    {
      var r := Spec.EmitStmts(body, slots, k, nextLabelId, CurrentLoop(), ret);
      out + r.code == goal && r.slots == lastSlots && r.next == next
    }

    method EmitIf(s: Stmt, frame: Slots, ghost k: nat, ret: Label, slots: SlotMap)
      requires s.If?
      requires Agrees(s, frame, k) && |loopStartLabels| == |loopEndLabels| && LoopsOk(s, loopStartLabels != [])
      modifies this
      ensures var r := Spec.EmitIf(s, slots, k, old(nextLabelId), old(CurrentLoop()), ret); Appended(r.code, r.next)
      decreases s, 2
    {
      hide Spec.EmitValue, Spec.EmitStmts, Spec.CountAll, AgreesAll, AllLoopsOk;
      ghost var o := out;
      var other := MakeLabel(Else);
      var end := MakeLabel(EndIf);
      ghost var r := Spec.EmitValue(s.cond, slots, nextLabelId);
      EmitValue(s.cond, slots);
      Emit([CmpAl, Jcc(E, other)]);
      ghost var a := Spec.EmitStmts(s.thenBody, slots, k, nextLabelId, CurrentLoop(), ret);
      var thenSlots := EmitStatements(s.thenBody, frame, k, ret, slots);
      Emit([Jmp(end), Def(other)]);
      ghost var b := Spec.EmitStmts(s.elseBody, slots, k + Spec.CountAll(s.thenBody), nextLabelId, CurrentLoop(), ret);
      var elseSlots := EmitStatements(s.elseBody, frame, k + Spec.CountAll(s.thenBody), ret, slots);
      Emit([Def(end)]);
      Cat6(o, r.code, [CmpAl, Jcc(E, other)], a.code, [Jmp(end), Def(other)], b.code, [Def(end)]);
    }

    method EmitWhile(s: Stmt, frame: Slots, ghost k: nat, ret: Label, slots: SlotMap)
      requires s.While?
      requires Agrees(s, frame, k) && |loopStartLabels| == |loopEndLabels| && LoopsOk(s, loopStartLabels != [])
      modifies this
      ensures var r := Spec.EmitWhile(s, slots, k, old(nextLabelId), old(CurrentLoop()), ret); Appended(r.code, r.next)
      decreases s, 2
    {
      hide Spec.EmitValue, Spec.EmitStmts, AgreesAll, AllLoopsOk;
      ghost var o := out;
      var start := MakeLabel(WhileStart);
      var end := MakeLabel(WhileEnd);
      Emit([Def(start)]);
      ghost var r := Spec.EmitValue(s.cond, slots, nextLabelId);
      EmitValue(s.cond, slots);
      Emit([CmpAl, Jcc(E, end)]);
      ghost var b := Spec.EmitStmts(s.body, slots, k, nextLabelId, Spec.InLoop(start, end), ret);
      PushLoop(start, end);
      var bodySlots := EmitStatements(s.body, frame, k, ret, slots);
      PopLoop();
      Emit([Jmp(start), Def(end)]);
      Cat5(o, [Def(start)], r.code, [CmpAl, Jcc(E, end)], b.code, [Jmp(start), Def(end)]);
    }

    method EmitFor(s: Stmt, frame: Slots, ghost k: nat, ret: Label, slots: SlotMap)
      requires s.For?
      requires Agrees(s, frame, k) && |loopStartLabels| == |loopEndLabels| && LoopsOk(s, loopStartLabels != [])
      modifies this
      ensures var r := Spec.EmitFor(s, slots, k, old(nextLabelId), old(CurrentLoop()), ret); Appended(r.code, r.next)
      decreases s, 2
    {
      hide Spec.EmitStmt, Spec.EmitForLoop, Spec.Count, Spec.CountAll, LoopsOk, AllLoopsOk, AgreesAll;
      LoopsOkFor(s, loopStartLabels != []);
      AgreesFor(s, frame, k);
      ghost var o := out;
      var cond := MakeLabel(ForCondition);
      var step := MakeLabel(ForIncrement);
      var end := MakeLabel(ForEnd);
      ghost var i := Spec.EmitStmt(s.init, slots, k, nextLabelId, CurrentLoop(), ret);
      var loopSlots := EmitStatement(s.init, frame, k, ret, slots);
      ghost var l := Spec.EmitForLoop(s, loopSlots, k + Spec.Count(s.init), cond.id, nextLabelId, CurrentLoop(), ret);
      EmitForLoop(s, frame, k + Spec.Count(s.init), ret, loopSlots, cond, step, end);
      assert (o + i.code) + l.code == o + (i.code + l.code);
    }

    /** The part of a `for` loop behind its initializer. */
    method EmitForLoop(s: Stmt, frame: Slots, ghost k: nat, ret: Label, slots: SlotMap, cond: Label, step: Label,
                       end: Label)
      requires s.For? && AgreesAll(s.body, frame, k) && Agrees(s.step, frame, k + Spec.CountAll(s.body))
      requires |loopStartLabels| == |loopEndLabels|
      requires LoopsOk(s.step, loopStartLabels != []) && AllLoopsOk(s.body, true)
      requires cond.Numbered? && cond == Numbered(ForCondition, cond.id)
      requires step == Numbered(ForIncrement, cond.id + 1) && end == Numbered(ForEnd, cond.id + 2)
      modifies this
      ensures var r := Spec.EmitForLoop(s, slots, k, cond.id, old(nextLabelId), old(CurrentLoop()), ret);
        Appended(r.code, r.next)
      decreases s, 1
    {
      hide Spec.EmitStmt, Spec.EmitStmts, Spec.EmitValue, Spec.CountAll, LoopsOk, AllLoopsOk, AgreesAll, Agrees;
      ghost var o := out;
      Emit([Def(cond)]);
      ghost var r := Spec.EmitValue(s.cond, slots, nextLabelId);
      EmitValue(s.cond, slots);
      Emit([CmpAl, Jcc(E, end)]);
      ghost var b := Spec.EmitStmts(s.body, slots, k, nextLabelId, Spec.InLoop(step, end), ret);
      PushLoop(step, end);
      var bodySlots := EmitStatements(s.body, frame, k, ret, slots);
      PopLoop();
      Emit([Def(step)]);
      ghost var t := Spec.EmitStmt(s.step, slots, k + Spec.CountAll(s.body), nextLabelId, CurrentLoop(), ret);
      var stepSlots := EmitStatement(s.step, frame, k + Spec.CountAll(s.body), ret, slots);
      Emit([Jmp(cond), Def(end)]);
      Cat5(o, [Def(cond)], r.code, [CmpAl, Jcc(E, end)], b.code, [Def(step)] + (t.code + [Jmp(cond), Def(end)]));
      Cat3(o + [Def(cond)] + r.code + [CmpAl, Jcc(E, end)] + b.code, [Def(step)], t.code, [Jmp(cond), Def(end)]);
    }

    /** Emits the scrutinee, the compare chain, the jump to the last default arm
        or to the end, and the arms. */
    method EmitMatch(s: Stmt, frame: Slots, ghost k: nat, ret: Label, slots: SlotMap)
      requires s.Match?
      requires Agrees(s, frame, k) && |loopStartLabels| == |loopEndLabels| && LoopsOk(s, loopStartLabels != [])
      modifies this
      ensures var r := Spec.EmitMatch(s, slots, k, old(nextLabelId), old(CurrentLoop()), ret); Appended(r.code, r.next)
      decreases s, 2
    {
      hide Spec.EmitValue, Spec.EmitArms, Spec.Dispatch, Spec.Fallback, AgreesArms, ArmsLoopsOk;
      ghost var o := out;
      var end := MakeLabel(MatchEnd);
      var first := nextLabelId;
      nextLabelId := nextLabelId + |s.arms|;
      var slot := frame.matches[s.id];
      ghost var r := Spec.EmitValue(s.value, slots, nextLabelId);
      EmitValue(s.value, slots);
      Emit([StoreSlot(slot)]);
      ghost var chain := Spec.Dispatch(s.arms, slot, first) + [Jmp(Spec.Fallback(s.arms, first, end))];
      EmitDispatch(s.arms, slot, first, end);
      ghost var b := Spec.EmitArms(s.arms, slots, k + 1, first, nextLabelId, end, CurrentLoop(), ret);
      EmitArms(s.arms, frame, k + 1, first, end, ret, slots);
      Emit([Def(end)]);
      Cat5(o, r.code, [StoreSlot(slot)], chain, b.code, [Def(end)]);
    }

    method EmitDispatch(arms: seq<Arm>, slot: int, first: nat, end: Label)
      modifies this`out
      ensures out == old(out) + (Spec.Dispatch(arms, slot, first) + [Jmp(Spec.Fallback(arms, first, end))])
    {
      var target := end;
      var i := 0;
      while i < |arms|
        invariant 0 <= i <= |arms|
        invariant out + Spec.Dispatch(arms[i..], slot, first + i) == old(out) + Spec.Dispatch(arms, slot, first)
        invariant Spec.Fallback(arms[i..], first + i, target) == Spec.Fallback(arms, first, end)
      {
        ghost var before := out;
        var isDefault := EmitDispatchArm(arms[i].patterns, slot, Numbered(MatchArm, first + i));
        if isDefault { target := Numbered(MatchArm, first + i); }
        assert arms[i..][1..] == arms[i + 1..];
        ghost var a := Spec.DispatchArm(arms[i].patterns, slot, Numbered(MatchArm, first + i));
        ghost var b := Spec.Dispatch(arms[i + 1..], slot, first + i + 1);
        assert (before + a) + b == before + (a + b);
        i := i + 1;
      }
      ghost var done := out;
      Emit([Jmp(target)]);
      assert done == old(out) + Spec.Dispatch(arms, slot, first);
      assert (old(out) + Spec.Dispatch(arms, slot, first)) + [Jmp(target)]
        == old(out) + (Spec.Dispatch(arms, slot, first) + [Jmp(target)]);
    }

    /** Emits the compares of one arm and tells whether `_` is among its patterns. */
    method EmitDispatchArm(patterns: seq<Pattern>, slot: int, arm: Label) returns (isDefault: bool)
      modifies this`out
      ensures out == old(out) + Spec.DispatchArm(patterns, slot, arm)
      ensures isDefault <==> Default in patterns
    {
      isDefault := false;
      var j := 0;
      while j < |patterns|
        invariant 0 <= j <= |patterns|
        invariant out + Spec.DispatchArm(patterns[j..], slot, arm) == old(out) + Spec.DispatchArm(patterns, slot, arm)
        invariant isDefault <==> Default in patterns[..j]
      {
        ghost var before := out;
        var head :=
          if patterns[j].Default? then [] else [CmpSlot(Spec.PatternImmediate(patterns[j]), slot), Jcc(E, arm)];
        isDefault := isDefault || patterns[j].Default?;
        Emit(head);
        assert patterns[j..][1..] == patterns[j + 1..];
        assert (before + head) + Spec.DispatchArm(patterns[j + 1..], slot, arm)
          == before + (head + Spec.DispatchArm(patterns[j + 1..], slot, arm));
        j := j + 1;
      }
      assert patterns[..j] == patterns;
    }

    method EmitArms(arms: seq<Arm>, frame: Slots, ghost k: nat, first: nat, end: Label, ret: Label, slots: SlotMap)
      requires AgreesArms(arms, frame, k) && |loopStartLabels| == |loopEndLabels|
      requires ArmsLoopsOk(arms, loopStartLabels != [])
      modifies this
      ensures var r := Spec.EmitArms(arms, slots, k, first, old(nextLabelId), end, old(CurrentLoop()), ret);
        Appended(r.code, r.next)
      decreases arms, 0
    {
      hide Spec.EmitStmts, Spec.CountAll, AgreesAll, AllLoopsOk;
      if arms != [] {
        ghost var o := out;
        Emit([Def(Numbered(MatchArm, first))]);
        ghost var a := Spec.EmitStmts(arms[0].body, slots, k, nextLabelId, CurrentLoop(), ret);
        var armSlots := EmitStatements(arms[0].body, frame, k, ret, slots);
        Emit([Jmp(end)]);
        ghost var b := Spec.EmitArms(arms[1..], slots, k + Spec.CountAll(arms[0].body), first + 1, nextLabelId, end,
                                     CurrentLoop(), ret);
        EmitArms(arms[1..], frame, k + Spec.CountAll(arms[0].body), first + 1, end, ret, slots);
        Cat3(o + [Def(Numbered(MatchArm, first))], a.code, [Jmp(end)], b.code);
        assert (o + [Def(Numbered(MatchArm, first))]) + (a.code + ([Jmp(end)] + b.code))
          == o + ([Def(Numbered(MatchArm, first))] + (a.code + ([Jmp(end)] + b.code)));
      }
    }

    /** Emits a function with its frame. */
    method EmitFunction(f: Function)
      requires DistinctAll(f.body) && AllLoopsOk(f.body, false) && loopStartLabels == [] && loopEndLabels == []
      modifies this
      ensures var r := Spec.EmitFunction(f, old(nextLabelId)); Appended(r.code, r.next)
    {
      var builder := new FrameBuilder();
      builder.AssignSlots(f.body);
      var frame := Slots(builder.lets, builder.matches);
      var bytes := builder.localIndex * 4;
      Emit([Def(FunctionOf(f.name)), PushEbp, MovEspEbp]);
      if bytes > 0 { Emit([SubEsp(bytes)]); }
      var params := ParamSlots(f.params);
      var bodySlots := EmitStatements(f.body, frame, 0, ReturnOf(f.name), params);
      Emit([Def(ReturnOf(f.name)), LeaveFrame, Ret]);
    }

    /** Parameters get their offsets in declaration order. */
    method ParamSlots(params: seq<Param>) returns (slots: SlotMap)
      ensures slots == Spec.ParamSlots(params)
    {
      var offset := 8;
      slots := map[];
      for i := 0 to |params|
        invariant slots == Spec.ParamSlots(params[..i]) && offset == 8 + 4 * i
      {
        slots := slots[params[i].name := offset];
        offset := offset + 4;
        assert params[..i + 1][..i] == params[..i];
      }
      assert params[..|params|] == params;
    }

    /** Emits every function of a module. */
    method EmitModule(m: Module)
      requires out == [] && nextLabelId == 0 && loopStartLabels == [] && loopEndLabels == []
      requires forall i :: 0 <= i < |m.functions| ==>
        DistinctAll(m.functions[i].body) && AllLoopsOk(m.functions[i].body, false)
      modifies this
      ensures out == Spec.EmitFunctions(m.functions, 0).code
    {
      hide Spec.EmitFunction, Spec.EmitFunctions, DistinctAll, AllLoopsOk;
      var i := 0;
      ghost var fs := m.functions;
      assert fs[0..] == fs && [] + Spec.EmitFunctions(fs, 0).code == Spec.EmitFunctions(fs, 0).code;
      while i < |m.functions|
        invariant 0 <= i <= |m.functions|
        invariant loopStartLabels == [] && loopEndLabels == []
        invariant out + Spec.EmitFunctions(fs[i..], nextLabelId).code == Spec.EmitFunctions(fs, 0).code
      {
        assert fs[i..][1..] == fs[i + 1..] && fs[i..][0] == fs[i];
        NextFunction(fs[i..], nextLabelId);
        ghost var r := Spec.EmitFunction(fs[i], nextLabelId);
        Cat2(out, r.code, Spec.EmitFunctions(fs[i + 1..], r.next).code);
        EmitFunction(m.functions[i]);
        i := i + 1;
      }
      assert fs[|fs|..] == [];
      NoFunctions(nextLabelId);
      assert out + [] == out;
    }
  }
}
