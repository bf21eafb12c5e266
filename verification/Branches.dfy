/** Every branch of an emitted module goes to a label that the module defines,
    provided `break` and `continue` occur inside loops only. */
module Branches {
  import opened Ir
  import opened I386
  import opened EmitI386

  /** What the front end checks of `break` and `continue`. */
  predicate LoopsOk(s: Stmt, inLoop: bool)
    decreases s, 1
  {
    match s
    case If(_, a, b) => AllLoopsOk(a, inLoop) && AllLoopsOk(b, inLoop)
    case While(_, body) => AllLoopsOk(body, true)
    case For(init, _, step, body) => LoopsOk(init, inLoop) && LoopsOk(step, inLoop) && AllLoopsOk(body, true)
    case Match(_, _, arms) => ArmsLoopsOk(arms, inLoop)
    case Break => inLoop
    case Continue => inLoop
    case _ => true
  }

  predicate AllLoopsOk(body: seq<Stmt>, inLoop: bool)
    decreases body, 0
  {
    body == [] || (LoopsOk(body[0], inLoop) && AllLoopsOk(body[1..], inLoop))
  }

  predicate ArmsLoopsOk(arms: seq<Arm>, inLoop: bool)
    decreases arms, 0
  {
    arms == [] || (AllLoopsOk(arms[0].body, inLoop) && ArmsLoopsOk(arms[1..], inLoop))
  }

  predicate IsBranch(i: Instr) {
    i.Jmp? || i.Jcc?
  }

  /** Every branch goes to a label in `ls` or to one that the code defines. */
  predicate GoesTo(code: seq<Instr>, ls: set<Label>) {
    forall i :: 0 <= i < |code| && IsBranch(code[i]) ==> code[i].at in ls || HasLabel(code, code[i].at)
  }

  lemma HasCat(a: seq<Instr>, b: seq<Instr>, l: Label)
    ensures HasLabel(a + b, l) <==> HasLabel(a, l) || HasLabel(b, l)
  {
    if HasLabel(a, l) {
      var i :| 0 <= i < |a| && a[i] == Def(l);
      assert (a + b)[i] == Def(l);
    }
    if HasLabel(b, l) {
      var i :| 0 <= i < |b| && b[i] == Def(l);
      assert (a + b)[|a| + i] == Def(l);
    }
  }

  lemma GoesCat(a: seq<Instr>, b: seq<Instr>, ls: set<Label>)
    requires GoesTo(a, ls) && GoesTo(b, ls)
    ensures GoesTo(a + b, ls)
  {
    forall i | 0 <= i < |a + b| && IsBranch((a + b)[i])
      ensures (a + b)[i].at in ls || HasLabel(a + b, (a + b)[i].at)
    {
      HasCat(a, b, (a + b)[i].at);
      if i < |a| { assert (a + b)[i] == a[i]; } else { assert (a + b)[i] == b[i - |a|]; }
    }
  }

  lemma GoesMore(code: seq<Instr>, ls: set<Label>, ls': set<Label>)
    requires GoesTo(code, ls) && ls <= ls'
    ensures GoesTo(code, ls')
  {
  }

  /** A label that the code defines need not be listed. */
  lemma Discharge(code: seq<Instr>, ls: set<Label>, l: Label)
    requires GoesTo(code, ls + {l}) && HasLabel(code, l)
    ensures GoesTo(code, ls)
  {
  }

  /** The labels that code inside the loop may leave for. */
  function Exits(lo: Loop, ret: Label): set<Label> {
    if lo.InLoop? then {lo.start, lo.end, ret} else {ret}
  }

  lemma {:induction false} ValueGoes(e: Value, slots: SlotMap, n: nat)
    ensures GoesTo(EmitValue(e, slots, n).code, {})
    decreases e, 2
  {
    hide EmitBinary, EmitLogical, EmitCall, GoesTo;
    match e
    case Neg(a) =>
      ValueGoes(a, slots, n);
      Plain([NegEax]);
      GoesCat(EmitValue(a, slots, n).code, [NegEax], {});
    case Not(a) =>
      ValueGoes(a, slots, n);
      Plain([CmpAl, SetAl(E), ZeroExtendAl]);
      GoesCat(EmitValue(a, slots, n).code, [CmpAl, SetAl(E), ZeroExtendAl], {});
    case Binary(_, _, _, _) => BinaryGoes(e, slots, n);
    case And(_, _) => LogicalGoes(e, slots, n);
    case Or(_, _) => LogicalGoes(e, slots, n);
    case Cast(a, _) => ValueGoes(a, slots, n);
    case Call(_, _, _) => CallGoes(e, slots, n);
    case _ => Plain(EmitValue(e, slots, n).code);
  }

  lemma Plain(code: seq<Instr>)
    requires forall i :: 0 <= i < |code| ==> !IsBranch(code[i])
    ensures GoesTo(code, {})
  {
  }

  lemma BinaryGoes(e: Value, slots: SlotMap, n: nat)
    requires e.Binary?
    ensures GoesTo(EmitBinary(e, slots, n).code, {})
    decreases e, 1
  {
    hide EmitValue, GoesTo, TypeOf;
    var r := EmitValue(e.lhs, slots, n);
    var s := EmitValue(e.rhs, slots, r.next);
    var op := [MovEaxEcx, PopEax] + OpCode(e.op, TypeOf(e.lhs), e.ty);
    ValueGoes(e.lhs, slots, n);
    ValueGoes(e.rhs, slots, r.next);
    Plain(op);
    Plain([PushEax]);
    GoesCat(s.code, op, {});
    GoesCat([PushEax], s.code + op, {});
    GoesCat(r.code, [PushEax] + (s.code + op), {});
  }

  lemma LogicalGoes(e: Value, slots: SlotMap, n: nat)
    requires e.And? || e.Or?
    ensures GoesTo(EmitLogical(e, slots, n).code, {})
    decreases e, 1
  {
    hide EmitValue, GoesTo;
    var short := Numbered(if e.And? then LogicFalse else LogicTrue, n);
    var end := Numbered(LogicEnd, n + 1);
    var test := [CmpAl, Jcc(if e.And? then E else NE, short)];
    var tail := [MovImm(if e.And? then 1 else 0), Jmp(end), Def(short), MovImm(if e.And? then 0 else 1), Def(end)];
    var r := EmitValue(e.lhs, slots, n + 2);
    var s := EmitValue(e.rhs, slots, r.next);
    ValueGoes(e.lhs, slots, n + 2);
    ValueGoes(e.rhs, slots, r.next);
    GoesMore(r.code, {}, {short});
    GoesMore(s.code, {}, {short});
    LogicTail(test, tail, short, end);
    GoesCat(test, tail, {short});
    GoesCat(s.code, test + tail, {short});
    GoesCat(test, s.code + (test + tail), {short});
    GoesCat(r.code, test + (s.code + (test + tail)), {short});
    HasCat(test, tail, short);
    HasCat(s.code, test + tail, short);
    HasCat(test, s.code + (test + tail), short);
    HasCat(r.code, test + (s.code + (test + tail)), short);
    Discharge(r.code + (test + (s.code + (test + tail))), {}, short);
  }

  lemma LogicTail(test: seq<Instr>, tail: seq<Instr>, short: Label, end: Label)
    requires |test| == 2 && test[0] == CmpAl && test[1].Jcc? && test[1].at == short
    requires |tail| == 5 && tail[1] == Jmp(end) && tail[2] == Def(short) && tail[4] == Def(end)
    requires tail[0].MovImm? && tail[3].MovImm?
    ensures GoesTo(test, {short}) && GoesTo(tail, {short}) && HasLabel(tail, short)
  {
  }

  lemma CallGoes(e: Value, slots: SlotMap, n: nat)
    requires e.Call?
    ensures GoesTo(EmitCall(e, slots, n).code, {})
    decreases e, 1
  {
    hide EmitArgs, GoesTo;
    ArgsGo(e.args, slots, n);
    var c := [CallTo(e.callee)] + (if e.args == [] then [] else [AddEsp(4 * |e.args|)]);
    Plain(c);
    GoesCat(EmitArgs(e.args, slots, n).code, c, {});
  }

  lemma ArgsGo(args: seq<Value>, slots: SlotMap, n: nat)
    ensures GoesTo(EmitArgs(args, slots, n).code, {})
    decreases args, 0
  {
    hide EmitValue, GoesTo;
    if args == [] { Plain([]); return; }
    var r := EmitArgs(args[1..], slots, n);
    var s := EmitValue(args[0], slots, r.next);
    ArgsGo(args[1..], slots, n);
    ValueGoes(args[0], slots, r.next);
    Plain([PushEax]);
    GoesCat(s.code, [PushEax], {});
    GoesCat(r.code, s.code + [PushEax], {});
  }

  /** A value followed by one instruction. */
  lemma ValueThen(e: Value, slots: SlotMap, n: nat, last: seq<Instr>, ls: set<Label>)
    requires forall i :: 0 <= i < |last| && IsBranch(last[i]) ==> last[i].at in ls
    ensures GoesTo(EmitValue(e, slots, n).code + last, ls)
  {
    hide EmitValue;
    ValueGoes(e, slots, n);
    GoesMore(EmitValue(e, slots, n).code, {}, ls);
    GoesCat(EmitValue(e, slots, n).code, last, ls);
  }

  /** One piece of code that only branches to the listed labels. */
  lemma Listed(code: seq<Instr>, ls: set<Label>)
    requires forall i :: 0 <= i < |code| && IsBranch(code[i]) ==> code[i].at in ls
    ensures GoesTo(code, ls)
  {
  }

  lemma {:induction false} StmtGoes(s: Stmt, slots: SlotMap, k: nat, n: nat, lo: Loop, ret: Label)
    requires LoopsOk(s, lo.InLoop?)
    ensures GoesTo(EmitStmt(s, slots, k, n, lo, ret).code, Exits(lo, ret))
    decreases s, 2
  {
    hide EmitValue, EmitIf, EmitWhile, EmitFor, EmitMatch, GoesTo;
    var ls := Exits(lo, ret);
    match s
    case Let(_, _, e) => ValueThen(e, slots, n, [StoreSlot(NextSlot(k))], ls);
    case Assign(name, e) =>
      ValueThen(e, slots, n, [if name in slots then StoreSlot(slots[name]) else StoreStatic(name)], ls);
    case Expr(e) =>
      ValueGoes(e, slots, n);
      GoesMore(EmitValue(e, slots, n).code, {}, ls);
    case Return(e) => ValueThen(e, slots, n, [Jmp(ret)], ls);
    case If(_, _, _) => IfGoes(s, slots, k, n, lo, ret);
    case While(_, _) => WhileGoes(s, slots, k, n, lo, ret);
    case For(_, _, _, _) => ForGoes(s, slots, k, n, lo, ret);
    case Match(_, _, _) => MatchGoes(s, slots, k, n, lo, ret);
    case Break => Listed([Jmp(EndOf(lo))], ls);
    case Continue => Listed([Jmp(StartOf(lo))], ls);
  }

  lemma StmtsGo(body: seq<Stmt>, slots: SlotMap, k: nat, n: nat, lo: Loop, ret: Label)
    requires AllLoopsOk(body, lo.InLoop?)
    ensures GoesTo(EmitStmts(body, slots, k, n, lo, ret).code, Exits(lo, ret))
    decreases body, 0
  {
    hide EmitStmt, GoesTo, LoopsOk;
    if body == [] { Listed([], Exits(lo, ret)); return; }
    StmtGoes(body[0], slots, k, n, lo, ret);
    var a := EmitStmt(body[0], slots, k, n, lo, ret);
    StmtsGo(body[1..], a.slots, k + Count(body[0]), a.next, lo, ret);
    GoesCat(a.code, EmitStmts(body[1..], a.slots, k + Count(body[0]), a.next, lo, ret).code, Exits(lo, ret));
  }

  /** Two more labels that the code defines itself. */
  lemma DischargeTwo(code: seq<Instr>, ls: set<Label>, a: Label, b: Label)
    requires GoesTo(code, ls + {a, b}) && HasLabel(code, a) && HasLabel(code, b)
    ensures GoesTo(code, ls)
  {
  }

  lemma IfGoes(s: Stmt, slots: SlotMap, k: nat, n: nat, lo: Loop, ret: Label)
    requires s.If? && LoopsOk(s, lo.InLoop?)
    ensures GoesTo(EmitIf(s, slots, k, n, lo, ret).code, Exits(lo, ret))
    decreases s, 1
  {
    hide EmitValue, EmitStmts, GoesTo, HasLabel, AllLoopsOk;
    var other, end := Numbered(Else, n), Numbered(EndIf, n + 1);
    var r := EmitValue(s.cond, slots, n + 2);
    var a := EmitStmts(s.thenBody, slots, k, r.next, lo, ret);
    var b := EmitStmts(s.elseBody, slots, k + CountAll(s.thenBody), a.next, lo, ret);
    var ls := Exits(lo, ret) + {other, end};
    ValueGoes(s.cond, slots, n + 2);
    StmtsGo(s.thenBody, slots, k, r.next, lo, ret);
    StmtsGo(s.elseBody, slots, k + CountAll(s.thenBody), a.next, lo, ret);
    GoesMore(r.code, {}, ls);
    GoesMore(a.code, Exits(lo, ret), ls);
    GoesMore(b.code, Exits(lo, ret), ls);
    var test, skip, c4 := [CmpAl, Jcc(E, other)], [Jmp(end), Def(other)], b.code + [Def(end)];
    Listed(test, ls);
    Listed(skip, ls);
    Listed([Def(end)], ls);
    GoesCat(b.code, [Def(end)], ls);
    GoesCat(skip, c4, ls);
    GoesCat(a.code, skip + c4, ls);
    GoesCat(test, a.code + (skip + c4), ls);
    GoesCat(r.code, test + (a.code + (skip + c4)), ls);
    Defines([Def(end)], 0, end);
    Defines(skip, 1, other);
    HasCat(b.code, [Def(end)], end);
    HasCat(skip, c4, end);
    HasCat(skip, c4, other);
    HasTail(r.code, test, a.code, skip + c4, end);
    HasTail(r.code, test, a.code, skip + c4, other);
    DischargeTwo(EmitIf(s, slots, k, n, lo, ret).code, Exits(lo, ret), other, end);
  }

  lemma Defines(code: seq<Instr>, i: nat, l: Label)
    requires i < |code| && code[i] == Def(l)
    ensures HasLabel(code, l)
  {
  }

  lemma HasTail(a: seq<Instr>, b: seq<Instr>, c: seq<Instr>, d: seq<Instr>, l: Label)
    requires HasLabel(d, l)
    ensures HasLabel(c + d, l) && HasLabel(b + (c + d), l) && HasLabel(a + (b + (c + d)), l)
  {
    hide HasLabel;
    HasCat(c, d, l);
    HasCat(b, c + d, l);
    HasCat(a, b + (c + d), l);
  }

  lemma WhileGoes(s: Stmt, slots: SlotMap, k: nat, n: nat, lo: Loop, ret: Label)
    requires s.While? && LoopsOk(s, lo.InLoop?)
    ensures GoesTo(EmitWhile(s, slots, k, n, lo, ret).code, Exits(lo, ret))
    decreases s, 1
  {
    hide EmitValue, EmitStmts, GoesTo, HasLabel, AllLoopsOk;
    var start, end := Numbered(WhileStart, n), Numbered(WhileEnd, n + 1);
    var r := EmitValue(s.cond, slots, n + 2);
    var b := EmitStmts(s.body, slots, k, r.next, InLoop(start, end), ret);
    var ls := Exits(lo, ret) + {start, end};
    ValueGoes(s.cond, slots, n + 2);
    StmtsGo(s.body, slots, k, r.next, InLoop(start, end), ret);
    GoesMore(r.code, {}, ls);
    GoesMore(b.code, {start, end, ret}, ls);
    var test, back := [CmpAl, Jcc(E, end)], [Jmp(start), Def(end)];
    Listed([Def(start)], ls);
    Listed(test, ls);
    Listed(back, ls);
    GoesCat(b.code, back, ls);
    GoesCat(test, b.code + back, ls);
    GoesCat(r.code, test + (b.code + back), ls);
    GoesCat([Def(start)], r.code + (test + (b.code + back)), ls);
    Defines([Def(start)], 0, start);
    Defines(back, 1, end);
    HasTail(r.code, test, b.code, back, end);
    HasCat([Def(start)], r.code + (test + (b.code + back)), start);
    HasCat([Def(start)], r.code + (test + (b.code + back)), end);
    DischargeTwo(EmitWhile(s, slots, k, n, lo, ret).code, Exits(lo, ret), start, end);
  }

  lemma ForGoes(s: Stmt, slots: SlotMap, k: nat, n: nat, lo: Loop, ret: Label)
    requires s.For? && LoopsOk(s, lo.InLoop?)
    ensures GoesTo(EmitFor(s, slots, k, n, lo, ret).code, Exits(lo, ret))
    decreases s, 1
  {
    hide EmitStmt, EmitForLoop, GoesTo, AllLoopsOk;
    StmtGoes(s.init, slots, k, n + 3, lo, ret);
    var i := EmitStmt(s.init, slots, k, n + 3, lo, ret);
    ForLoopGoes(s, i.slots, k + Count(s.init), n, i.next, lo, ret);
    GoesCat(i.code, EmitForLoop(s, i.slots, k + Count(s.init), n, i.next, lo, ret).code, Exits(lo, ret));
  }

  lemma ForLoopGoes(s: Stmt, slots: SlotMap, k: nat, n: nat, next: nat, lo: Loop, ret: Label)
    requires s.For? && LoopsOk(s, lo.InLoop?)
    ensures GoesTo(EmitForLoop(s, slots, k, n, next, lo, ret).code, Exits(lo, ret))
    decreases s, 0
  {
    hide EmitValue, EmitStmts, EmitStmt, GoesTo, HasLabel, AllLoopsOk;
    var cond, step, end := Numbered(ForCondition, n), Numbered(ForIncrement, n + 1), Numbered(ForEnd, n + 2);
    var r := EmitValue(s.cond, slots, next);
    var b := EmitStmts(s.body, slots, k, r.next, InLoop(step, end), ret);
    var t := EmitStmt(s.step, slots, k + CountAll(s.body), b.next, lo, ret);
    var ls := Exits(lo, ret) + {cond, step, end};
    ValueGoes(s.cond, slots, next);
    StmtsGo(s.body, slots, k, r.next, InLoop(step, end), ret);
    StmtGoes(s.step, slots, k + CountAll(s.body), b.next, lo, ret);
    GoesMore(r.code, {}, ls);
    GoesMore(b.code, {step, end, ret}, ls);
    GoesMore(t.code, Exits(lo, ret), ls);
    var test, back := [CmpAl, Jcc(E, end)], [Jmp(cond), Def(end)];
    var c4 := [Def(step)] + (t.code + back);
    Listed([Def(cond)], ls);
    Listed(test, ls);
    Listed([Def(step)], ls);
    Listed(back, ls);
    GoesCat(t.code, back, ls);
    GoesCat([Def(step)], t.code + back, ls);
    GoesCat(b.code, c4, ls);
    GoesCat(test, b.code + c4, ls);
    GoesCat(r.code, test + (b.code + c4), ls);
    GoesCat([Def(cond)], r.code + (test + (b.code + c4)), ls);
    Defines([Def(cond)], 0, cond);
    Defines([Def(step)], 0, step);
    Defines(back, 1, end);
    HasCat(t.code, back, end);
    HasCat([Def(step)], t.code + back, end);
    HasCat([Def(step)], t.code + back, step);
    HasTail(r.code, test, b.code, c4, step);
    HasTail(r.code, test, b.code, c4, end);
    HasCat([Def(cond)], r.code + (test + (b.code + c4)), cond);
    HasCat([Def(cond)], r.code + (test + (b.code + c4)), step);
    HasCat([Def(cond)], r.code + (test + (b.code + c4)), end);
    var code := EmitForLoop(s, slots, k, n, next, lo, ret).code;
    assert ls == (Exits(lo, ret) + {cond}) + {step, end};
    DischargeTwo(code, Exits(lo, ret) + {cond}, step, end);
    Discharge(code, Exits(lo, ret), cond);
  }

  /** The labels of the arms of a match. */
  function ArmLabels(label0: nat, n: nat): set<Label>
    decreases n
  {
    if n == 0 then {} else {Numbered(MatchArm, label0)} + ArmLabels(label0 + 1, n - 1)
  }

  lemma {:induction false} DispatchGoes(arms: seq<Arm>, slot: int, label0: nat, end: Label, ls: set<Label>)
    requires ArmLabels(label0, |arms|) <= ls && end in ls
    ensures GoesTo(Dispatch(arms, slot, label0), ls)
    ensures Fallback(arms, label0, end) in ls
    decreases |arms|
  {
    if arms == [] { Listed([], ls); return; }
    var arm := Numbered(MatchArm, label0);
    ArmDispatchGoes(arms[0].patterns, slot, arm, ls);
    DispatchGoes(arms[1..], slot, label0 + 1, if Default in arms[0].patterns then arm else end, ls);
    GoesCat(DispatchArm(arms[0].patterns, slot, arm), Dispatch(arms[1..], slot, label0 + 1), ls);
  }

  lemma {:induction false} ArmDispatchGoes(patterns: seq<Pattern>, slot: int, arm: Label, ls: set<Label>)
    requires arm in ls
    ensures GoesTo(DispatchArm(patterns, slot, arm), ls)
  {
    if patterns == [] { Listed([], ls); return; }
    var head := if patterns[0].Default? then [] else [CmpSlot(PatternImmediate(patterns[0]), slot), Jcc(E, arm)];
    Listed(head, ls);
    ArmDispatchGoes(patterns[1..], slot, arm, ls);
    GoesCat(head, DispatchArm(patterns[1..], slot, arm), ls);
  }

  lemma MatchGoes(s: Stmt, slots: SlotMap, k: nat, n: nat, lo: Loop, ret: Label)
    requires s.Match? && LoopsOk(s, lo.InLoop?)
    ensures GoesTo(EmitMatch(s, slots, k, n, lo, ret).code, Exits(lo, ret))
    decreases s, 1
  {
    hide EmitValue, EmitArms, GoesTo, HasLabel, Dispatch, Fallback, ArmLabels, ArmsLoopsOk;
    var end, slot := Numbered(MatchEnd, n), NextSlot(k);
    var r := EmitValue(s.value, slots, n + 1 + |s.arms|);
    var b := EmitArms(s.arms, slots, k + 1, n + 1, r.next, end, lo, ret);
    var arms := ArmLabels(n + 1, |s.arms|);
    var ls := Exits(lo, ret) + {end} + arms;
    ValueGoes(s.value, slots, n + 1 + |s.arms|);
    ArmsGo(s.arms, slots, k + 1, n + 1, r.next, end, lo, ret);
    DispatchGoes(s.arms, slot, n + 1, end, ls);
    GoesMore(r.code, {}, ls);
    GoesMore(b.code, Exits(lo, ret) + {end}, ls);
    var jump := [Jmp(Fallback(s.arms, n + 1, end))];
    var chain, tail := Dispatch(s.arms, slot, n + 1) + jump, b.code + [Def(end)];
    Listed(jump, ls);
    Listed([StoreSlot(slot)], ls);
    Listed([Def(end)], ls);
    GoesCat(Dispatch(s.arms, slot, n + 1), jump, ls);
    GoesCat(b.code, [Def(end)], ls);
    GoesCat(chain, tail, ls);
    GoesCat([StoreSlot(slot)], chain + tail, ls);
    GoesCat(r.code, [StoreSlot(slot)] + (chain + tail), ls);
    Defines([Def(end)], 0, end);
    HasCat(b.code, [Def(end)], end);
    HasTail(r.code, [StoreSlot(slot)], chain, tail, end);
    forall l | l in arms ensures HasLabel(EmitMatch(s, slots, k, n, lo, ret).code, l) {
      HasCat(b.code, [Def(end)], l);
      HasTail(r.code, [StoreSlot(slot)], chain, tail, l);
    }
    assert ls == Exits(lo, ret) + (arms + {end});
    DischargeAll(EmitMatch(s, slots, k, n, lo, ret).code, Exits(lo, ret), arms + {end});
  }

  lemma DischargeAll(code: seq<Instr>, ls: set<Label>, own: set<Label>)
    requires GoesTo(code, ls + own) && forall l :: l in own ==> HasLabel(code, l)
    ensures GoesTo(code, ls)
  {
  }

  lemma ArmsGo(arms: seq<Arm>, slots: SlotMap, k: nat, label0: nat, n: nat, end: Label, lo: Loop, ret: Label)
    requires ArmsLoopsOk(arms, lo.InLoop?)
    ensures var code := EmitArms(arms, slots, k, label0, n, end, lo, ret).code;
      GoesTo(code, Exits(lo, ret) + {end}) && forall l :: l in ArmLabels(label0, |arms|) ==> HasLabel(code, l)
    decreases arms, 0
  {
    hide EmitStmts, GoesTo, HasLabel, AllLoopsOk;
    var ls := Exits(lo, ret) + {end};
    if arms == [] { Listed([], ls); return; }
    var arm := Numbered(MatchArm, label0);
    var a := EmitStmts(arms[0].body, slots, k, n, lo, ret);
    var b := EmitArms(arms[1..], slots, k + CountAll(arms[0].body), label0 + 1, a.next, end, lo, ret);
    StmtsGo(arms[0].body, slots, k, n, lo, ret);
    ArmsGo(arms[1..], slots, k + CountAll(arms[0].body), label0 + 1, a.next, end, lo, ret);
    GoesMore(a.code, Exits(lo, ret), ls);
    Listed([Jmp(end)], ls);
    Listed([Def(arm)], ls);
    GoesCat([Jmp(end)], b.code, ls);
    GoesCat(a.code, [Jmp(end)] + b.code, ls);
    GoesCat([Def(arm)], a.code + ([Jmp(end)] + b.code), ls);
    Defines([Def(arm)], 0, arm);
    HasCat([Def(arm)], a.code + ([Jmp(end)] + b.code), arm);
    forall l | l in ArmLabels(label0 + 1, |arms| - 1)
      ensures HasLabel(EmitArms(arms, slots, k, label0, n, end, lo, ret).code, l)
    {
      HasTail([Def(arm)], a.code, [Jmp(end)], b.code, l);
    }
  }
}
