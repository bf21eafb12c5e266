/** Labels of the emitted code: each is defined once in a module, and every
    branch goes to a label that the module defines. */
module Labels {
  import opened Ir
  import opened I386
  import opened EmitI386

  /** The labels that a piece of code defines are distinct, numbered, and have
      their numbers in `own` or in `[lo, hi)`. */
  predicate Owned(code: seq<Instr>, own: set<nat>, lo: nat, hi: nat) {
    && UniqueLabels(code)
    && (forall i :: 0 <= i < |code| && code[i].Def? ==>
          code[i].at.Numbered? && (code[i].at.id in own || lo <= code[i].at.id < hi))
  }

  predicate Below(own: set<nat>, bound: nat) {
    forall i :: i in own ==> i < bound
  }

  lemma Cat(a: seq<Instr>, own1: set<nat>, lo: nat, mid: nat, b: seq<Instr>, own2: set<nat>, hi: nat)
    requires Owned(a, own1, lo, mid) && Owned(b, own2, mid, hi)
    requires own1 !! own2 && Below(own1, lo) && Below(own2, lo) && lo <= mid <= hi
    ensures Owned(a + b, own1 + own2, lo, hi)
  {
    var c := a + b;
    forall i, j | 0 <= i < j < |c| && c[i].Def? ensures c[i] != c[j] {
      if i < |a| && |a| <= j { assert c[j] == b[j - |a|]; }
    }
  }

  lemma CatAll(a: seq<Instr>, lo: nat, mid: nat, b: seq<Instr>, hi: nat)
    requires Owned(a, {}, lo, mid) && Owned(b, {}, mid, hi) && lo <= mid <= hi
    ensures Owned(a + b, {}, lo, hi)
  {
    Cat(a, {}, lo, mid, b, {}, hi);
  }

  /** Code without labels fits anywhere. */
  lemma NoLabels(code: seq<Instr>, at: nat)
    requires forall i :: 0 <= i < |code| ==> !code[i].Def?
    ensures Owned(code, {}, at, at)
  {
  }

  lemma Absorb(code: seq<Instr>, own: set<nat>, lo: nat, lo': nat, hi: nat)
    requires Owned(code, own, lo, hi) && lo' <= lo <= hi
    requires forall i :: i in own ==> lo' <= i < lo
    ensures Owned(code, {}, lo', hi)
  {
  }

  lemma {:induction false} ValueLabels(e: Value, slots: SlotMap, n: nat)
    ensures n <= EmitValue(e, slots, n).next
    ensures Owned(EmitValue(e, slots, n).code, {}, n, EmitValue(e, slots, n).next)
    decreases e, 2
  {
    match e
    case Neg(a) =>
      ValueLabels(a, slots, n);
      var r := EmitValue(a, slots, n);
      Cat(r.code, {}, n, r.next, [NegEax], {}, r.next);
    case Not(a) =>
      ValueLabels(a, slots, n);
      var r := EmitValue(a, slots, n);
      Cat(r.code, {}, n, r.next, [CmpAl, SetAl(E), ZeroExtendAl], {}, r.next);
    case Binary(_, _, _, _) => BinaryLabels(e, slots, n);
    case And(_, _) => LogicalLabels(e, slots, n);
    case Or(_, _) => LogicalLabels(e, slots, n);
    case Cast(a, _) => ValueLabels(a, slots, n);
    case Call(_, _, _) =>
      ArgsLabels(e.args, slots, n);
      var r := EmitArgs(e.args, slots, n);
      Cat(r.code, {}, n, r.next, [CallTo(e.callee)] + (if e.args == [] then [] else [AddEsp(4 * |e.args|)]), {},
          r.next);
    case _ =>
  }

  lemma BinaryLabels(e: Value, slots: SlotMap, n: nat)
    requires e.Binary?
    ensures n <= EmitBinary(e, slots, n).next
    ensures Owned(EmitBinary(e, slots, n).code, {}, n, EmitBinary(e, slots, n).next)
    decreases e, 1
  {
    hide EmitValue, Owned, TypeOf;
    ValueLabels(e.lhs, slots, n);
    var r := EmitValue(e.lhs, slots, n);
    ValueLabels(e.rhs, slots, r.next);
    var s := EmitValue(e.rhs, slots, r.next);
    var op := [MovEaxEcx, PopEax] + OpCode(e.op, TypeOf(e.lhs), e.ty);
    NoLabels(op, s.next);
    NoLabels([PushEax], r.next);
    CatAll(s.code, r.next, s.next, op, s.next);
    CatAll([PushEax], r.next, r.next, s.code + op, s.next);
    CatAll(r.code, n, r.next, [PushEax] + (s.code + op), s.next);
  }

  lemma LogicalLabels(e: Value, slots: SlotMap, n: nat)
    requires e.And? || e.Or?
    ensures n <= EmitLogical(e, slots, n).next
    ensures Owned(EmitLogical(e, slots, n).code, {}, n, EmitLogical(e, slots, n).next)
    decreases e, 1
  {
    hide EmitValue, Owned;
    var short := Numbered(if e.And? then LogicFalse else LogicTrue, n);
    var end := Numbered(LogicEnd, n + 1);
    var test := [CmpAl, Jcc(if e.And? then E else NE, short)];
    var tail := [MovImm(if e.And? then 1 else 0), Jmp(end), Def(short), MovImm(if e.And? then 0 else 1), Def(end)];
    ValueLabels(e.lhs, slots, n + 2);
    var r := EmitValue(e.lhs, slots, n + 2);
    ValueLabels(e.rhs, slots, r.next);
    var s := EmitValue(e.rhs, slots, r.next);
    TwoLabels(tail, n, s.next);
    NoLabels(test, s.next);
    NoLabels(test, r.next);
    Cat(test, {}, s.next, s.next, tail, {n, n + 1}, s.next);
    Cat(s.code, {}, r.next, s.next, test + tail, {n, n + 1}, s.next);
    Cat(test, {}, r.next, r.next, s.code + (test + tail), {n, n + 1}, s.next);
    Cat(r.code, {}, n + 2, r.next, test + (s.code + (test + tail)), {n, n + 1}, s.next);
    Absorb(r.code + (test + (s.code + (test + tail))), {n, n + 1}, n + 2, n, s.next);
  }

  lemma TwoLabels(tail: seq<Instr>, n: nat, at: nat)
    requires |tail| == 5 && tail[2].Def? && tail[4].Def? && !tail[0].Def? && !tail[1].Def? && !tail[3].Def?
    requires tail[2].at.Numbered? && tail[2].at.id == n && tail[4].at.Numbered? && tail[4].at.id == n + 1
    ensures Owned(tail, {n, n + 1}, at, at)
  {
  }

  lemma ArgsLabels(args: seq<Value>, slots: SlotMap, n: nat)
    ensures n <= EmitArgs(args, slots, n).next
    ensures Owned(EmitArgs(args, slots, n).code, {}, n, EmitArgs(args, slots, n).next)
    decreases args, 0
  {
    hide EmitValue, Owned;
    if args == [] { NoLabels([], n); return; }
    ArgsLabels(args[1..], slots, n);
    var r := EmitArgs(args[1..], slots, n);
    ValueLabels(args[0], slots, r.next);
    var s := EmitValue(args[0], slots, r.next);
    NoLabels([PushEax], s.next);
    CatAll(s.code, r.next, s.next, [PushEax], s.next);
    CatAll(r.code, n, r.next, s.code + [PushEax], s.next);
  }

  lemma OneLabel(code: seq<Instr>, k: nat, n: nat, at: nat)
    requires k < |code| && code[k].Def? && code[k].at.Numbered? && code[k].at.id == n
    requires forall i :: 0 <= i < |code| && i != k ==> !code[i].Def?
    ensures Owned(code, {n}, at, at)
  {
  }

  lemma {:induction false} StmtLabels(s: Stmt, slots: SlotMap, k: nat, n: nat, lo: Loop, ret: Label)
    ensures n <= EmitStmt(s, slots, k, n, lo, ret).next
    ensures Owned(EmitStmt(s, slots, k, n, lo, ret).code, {}, n, EmitStmt(s, slots, k, n, lo, ret).next)
    decreases s, 2
  {
    hide EmitValue, EmitIf, EmitWhile, EmitFor, EmitMatch;
    match s
    case Let(_, _, e) =>
      ValueLabels(e, slots, n);
      var r := EmitValue(e, slots, n);
      Cat(r.code, {}, n, r.next, [StoreSlot(NextSlot(k))], {}, r.next);
    case Assign(name, e) =>
      ValueLabels(e, slots, n);
      var r := EmitValue(e, slots, n);
      Cat(r.code, {}, n, r.next, [if name in slots then StoreSlot(slots[name]) else StoreStatic(name)], {}, r.next);
    case Expr(e) => ValueLabels(e, slots, n);
    case Return(e) =>
      ValueLabels(e, slots, n);
      var r := EmitValue(e, slots, n);
      Cat(r.code, {}, n, r.next, [Jmp(ret)], {}, r.next);
    case If(_, _, _) => IfLabels(s, slots, k, n, lo, ret);
    case While(_, _) => WhileLabels(s, slots, k, n, lo, ret);
    case For(_, _, _, _) => ForLabels(s, slots, k, n, lo, ret);
    case Match(_, _, _) => MatchLabels(s, slots, k, n, lo, ret);
    case Break =>
    case Continue =>
  }

  lemma StmtsLabels(body: seq<Stmt>, slots: SlotMap, k: nat, n: nat, lo: Loop, ret: Label)
    ensures n <= EmitStmts(body, slots, k, n, lo, ret).next
    ensures Owned(EmitStmts(body, slots, k, n, lo, ret).code, {}, n, EmitStmts(body, slots, k, n, lo, ret).next)
    decreases body, 0
  {
    hide EmitStmt, Owned;
    if body == [] { NoLabels([], n); return; }
    StmtLabels(body[0], slots, k, n, lo, ret);
    var a := EmitStmt(body[0], slots, k, n, lo, ret);
    StmtsLabels(body[1..], a.slots, k + Count(body[0]), a.next, lo, ret);
    var b := EmitStmts(body[1..], a.slots, k + Count(body[0]), a.next, lo, ret);
    CatAll(a.code, n, a.next, b.code, b.next);
  }

  lemma IfLabels(s: Stmt, slots: SlotMap, k: nat, n: nat, lo: Loop, ret: Label)
    requires s.If?
    ensures n <= EmitIf(s, slots, k, n, lo, ret).next
    ensures Owned(EmitIf(s, slots, k, n, lo, ret).code, {}, n, EmitIf(s, slots, k, n, lo, ret).next)
    decreases s, 1
  {
    hide EmitValue, EmitStmts, Owned;
    var other, end := Numbered(Else, n), Numbered(EndIf, n + 1);
    ValueLabels(s.cond, slots, n + 2);
    var r := EmitValue(s.cond, slots, n + 2);
    StmtsLabels(s.thenBody, slots, k, r.next, lo, ret);
    var a := EmitStmts(s.thenBody, slots, k, r.next, lo, ret);
    StmtsLabels(s.elseBody, slots, k + CountAll(s.thenBody), a.next, lo, ret);
    var b := EmitStmts(s.elseBody, slots, k + CountAll(s.thenBody), a.next, lo, ret);
    var test, skip := [CmpAl, Jcc(E, other)], [Jmp(end), Def(other)];
    OneLabel([Def(end)], 0, n + 1, b.next);
    OneLabel(skip, 1, n, a.next);
    NoLabels(test, r.next);
    Cat(b.code, {}, a.next, b.next, [Def(end)], {n + 1}, b.next);
    Cat(skip, {n}, a.next, a.next, b.code + [Def(end)], {n + 1}, b.next);
    Cat(a.code, {}, r.next, a.next, skip + (b.code + [Def(end)]), {n, n + 1}, b.next);
    Cat(test, {}, r.next, r.next, a.code + (skip + (b.code + [Def(end)])), {n, n + 1}, b.next);
    Cat(r.code, {}, n + 2, r.next, test + (a.code + (skip + (b.code + [Def(end)]))), {n, n + 1}, b.next);
    Absorb(EmitIf(s, slots, k, n, lo, ret).code, {n, n + 1}, n + 2, n, b.next);
  }

  lemma WhileLabels(s: Stmt, slots: SlotMap, k: nat, n: nat, lo: Loop, ret: Label)
    requires s.While?
    ensures n <= EmitWhile(s, slots, k, n, lo, ret).next
    ensures Owned(EmitWhile(s, slots, k, n, lo, ret).code, {}, n, EmitWhile(s, slots, k, n, lo, ret).next)
    decreases s, 1
  {
    hide EmitValue, EmitStmts, Owned;
    var start, end := Numbered(WhileStart, n), Numbered(WhileEnd, n + 1);
    ValueLabels(s.cond, slots, n + 2);
    var r := EmitValue(s.cond, slots, n + 2);
    StmtsLabels(s.body, slots, k, r.next, InLoop(start, end), ret);
    var b := EmitStmts(s.body, slots, k, r.next, InLoop(start, end), ret);
    var test, back := [CmpAl, Jcc(E, end)], [Jmp(start), Def(end)];
    OneLabel(back, 1, n + 1, b.next);
    OneLabel([Def(start)], 0, n, n + 2);
    NoLabels(test, r.next);
    Cat(b.code, {}, r.next, b.next, back, {n + 1}, b.next);
    Cat(test, {}, r.next, r.next, b.code + back, {n + 1}, b.next);
    Cat(r.code, {}, n + 2, r.next, test + (b.code + back), {n + 1}, b.next);
    Cat([Def(start)], {n}, n + 2, n + 2, r.code + (test + (b.code + back)), {n + 1}, b.next);
    Absorb(EmitWhile(s, slots, k, n, lo, ret).code, {n, n + 1}, n + 2, n, b.next);
  }

  lemma ForLabels(s: Stmt, slots: SlotMap, k: nat, n: nat, lo: Loop, ret: Label)
    requires s.For?
    ensures n <= EmitFor(s, slots, k, n, lo, ret).next
    ensures Owned(EmitFor(s, slots, k, n, lo, ret).code, {}, n, EmitFor(s, slots, k, n, lo, ret).next)
    decreases s, 1
  {
    hide EmitStmt, EmitForLoop, Owned;
    StmtLabels(s.init, slots, k, n + 3, lo, ret);
    var i := EmitStmt(s.init, slots, k, n + 3, lo, ret);
    ForLoopLabels(s, i.slots, k + Count(s.init), n, i.next, lo, ret);
    var l := EmitForLoop(s, i.slots, k + Count(s.init), n, i.next, lo, ret);
    Cat(i.code, {}, n + 3, i.next, l.code, {n, n + 1, n + 2}, l.next);
    Absorb(i.code + l.code, {n, n + 1, n + 2}, n + 3, n, l.next);
  }

  lemma ForLoopLabels(s: Stmt, slots: SlotMap, k: nat, n: nat, next: nat, lo: Loop, ret: Label)
    requires s.For? && n + 3 <= next
    ensures next <= EmitForLoop(s, slots, k, n, next, lo, ret).next
    ensures Owned(EmitForLoop(s, slots, k, n, next, lo, ret).code, {n, n + 1, n + 2}, next,
                  EmitForLoop(s, slots, k, n, next, lo, ret).next)
    decreases s, 0
  {
    hide EmitValue, EmitStmts, EmitStmt, Owned;
    var cond, step, end := Numbered(ForCondition, n), Numbered(ForIncrement, n + 1), Numbered(ForEnd, n + 2);
    ValueLabels(s.cond, slots, next);
    var r := EmitValue(s.cond, slots, next);
    StmtsLabels(s.body, slots, k, r.next, InLoop(step, end), ret);
    var b := EmitStmts(s.body, slots, k, r.next, InLoop(step, end), ret);
    StmtLabels(s.step, slots, k + CountAll(s.body), b.next, lo, ret);
    var t := EmitStmt(s.step, slots, k + CountAll(s.body), b.next, lo, ret);
    var test, back := [CmpAl, Jcc(E, end)], [Jmp(cond), Def(end)];
    OneLabel(back, 1, n + 2, t.next);
    OneLabel([Def(step)], 0, n + 1, b.next);
    OneLabel([Def(cond)], 0, n, next);
    NoLabels(test, r.next);
    Cat(t.code, {}, b.next, t.next, back, {n + 2}, t.next);
    Cat([Def(step)], {n + 1}, b.next, b.next, t.code + back, {n + 2}, t.next);
    Cat(b.code, {}, r.next, b.next, [Def(step)] + (t.code + back), {n + 1, n + 2}, t.next);
    Cat(test, {}, r.next, r.next, b.code + ([Def(step)] + (t.code + back)), {n + 1, n + 2}, t.next);
    Cat(r.code, {}, next, r.next, test + (b.code + ([Def(step)] + (t.code + back))), {n + 1, n + 2}, t.next);
    Cat([Def(cond)], {n}, next, next, r.code + (test + (b.code + ([Def(step)] + (t.code + back)))), {n + 1, n + 2},
        t.next);
    assert {n} + {n + 1, n + 2} == {n, n + 1, n + 2};
  }

  lemma {:induction false} DispatchLabels(arms: seq<Arm>, slot: int, label0: nat, at: nat)
    ensures Owned(Dispatch(arms, slot, label0), {}, at, at)
  {
    if arms != [] {
      ArmDispatchLabels(arms[0].patterns, slot, Numbered(MatchArm, label0), at);
      DispatchLabels(arms[1..], slot, label0 + 1, at);
      Cat(DispatchArm(arms[0].patterns, slot, Numbered(MatchArm, label0)), {}, at, at,
          Dispatch(arms[1..], slot, label0 + 1), {}, at);
    }
  }

  lemma {:induction false} ArmDispatchLabels(patterns: seq<Pattern>, slot: int, arm: Label, at: nat)
    ensures Owned(DispatchArm(patterns, slot, arm), {}, at, at)
  {
    if patterns != [] {
      ArmDispatchLabels(patterns[1..], slot, arm, at);
      var head := if patterns[0].Default? then [] else [CmpSlot(PatternImmediate(patterns[0]), slot), Jcc(E, arm)];
      Cat(head, {}, at, at, DispatchArm(patterns[1..], slot, arm), {}, at);
    }
  }

  /** The numbers reserved for the arms of a match. */
  function ArmIds(label0: nat, n: nat): (ids: set<nat>)
    ensures forall i :: i in ids <==> label0 <= i < label0 + n
  {
    if n == 0 then {} else ArmIds(label0, n - 1) + {label0 + n - 1}
  }

  lemma MatchLabels(s: Stmt, slots: SlotMap, k: nat, n: nat, lo: Loop, ret: Label)
    requires s.Match?
    ensures n <= EmitMatch(s, slots, k, n, lo, ret).next
    ensures Owned(EmitMatch(s, slots, k, n, lo, ret).code, {}, n, EmitMatch(s, slots, k, n, lo, ret).next)
    decreases s, 1
  {
    hide EmitValue, EmitArms, Owned, Dispatch, Fallback;
    var end, slot, first := Numbered(MatchEnd, n), NextSlot(k), n + 1 + |s.arms|;
    ValueLabels(s.value, slots, first);
    var r := EmitValue(s.value, slots, first);
    ArmsLabels(s.arms, slots, k + 1, n + 1, r.next, end, lo, ret);
    var b := EmitArms(s.arms, slots, k + 1, n + 1, r.next, end, lo, ret);
    var ids := ArmIds(n + 1, |s.arms|);
    var jump := [Jmp(Fallback(s.arms, n + 1, end))];
    var chain := Dispatch(s.arms, slot, n + 1) + jump;
    DispatchLabels(s.arms, slot, n + 1, r.next);
    NoLabels(jump, r.next);
    NoLabels([StoreSlot(slot)], r.next);
    OneLabel([Def(end)], 0, n, b.next);
    Cat(Dispatch(s.arms, slot, n + 1), {}, r.next, r.next, jump, {}, r.next);
    Cat(b.code, ids, r.next, b.next, [Def(end)], {n}, b.next);
    Cat(chain, {}, r.next, r.next, b.code + [Def(end)], ids + {n}, b.next);
    Cat([StoreSlot(slot)], {}, r.next, r.next, chain + (b.code + [Def(end)]), ids + {n}, b.next);
    Cat(r.code, {}, first, r.next, [StoreSlot(slot)] + (chain + (b.code + [Def(end)])), ids + {n}, b.next);
    Absorb(EmitMatch(s, slots, k, n, lo, ret).code, ids + {n}, first, n, b.next);
  }

  lemma ArmsLabels(arms: seq<Arm>, slots: SlotMap, k: nat, label0: nat, n: nat, end: Label, lo: Loop, ret: Label)
    requires label0 + |arms| <= n
    ensures n <= EmitArms(arms, slots, k, label0, n, end, lo, ret).next
    ensures Owned(EmitArms(arms, slots, k, label0, n, end, lo, ret).code, ArmIds(label0, |arms|), n,
                  EmitArms(arms, slots, k, label0, n, end, lo, ret).next)
    decreases arms, 0
  {
    hide EmitStmts, Owned;
    if arms == [] { NoLabels([], n); assert ArmIds(label0, 0) == {}; return; }
    var arm := Numbered(MatchArm, label0);
    StmtsLabels(arms[0].body, slots, k, n, lo, ret);
    var a := EmitStmts(arms[0].body, slots, k, n, lo, ret);
    ArmsLabels(arms[1..], slots, k + CountAll(arms[0].body), label0 + 1, a.next, end, lo, ret);
    var b := EmitArms(arms[1..], slots, k + CountAll(arms[0].body), label0 + 1, a.next, end, lo, ret);
    var ids := ArmIds(label0 + 1, |arms| - 1);
    OneLabel([Def(arm)], 0, label0, n);
    NoLabels([Jmp(end)], a.next);
    Cat([Jmp(end)], {}, a.next, a.next, b.code, ids, b.next);
    Cat(a.code, {}, n, a.next, [Jmp(end)] + b.code, ids, b.next);
    Cat([Def(arm)], {label0}, n, n, a.code + ([Jmp(end)] + b.code), ids, b.next);
    assert {label0} + ids == ArmIds(label0, |arms|);
  }
}
