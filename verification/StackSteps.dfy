/** One step at a time: how the code of a list begins with that of its first element,
    and which instructions leave the stack pointer alone. */
module StackSteps {
  import opened Frames
  import opened Calls
  import opened StackCode
  import opened StackLevel
  import opened StackProof
  import opened StackStatements
  import opened StackModule
  import I386

  type Stmt = StackCode.Stmt
  type Arm = StackCode.Arm
  type Value = StackCode.Value
  type Function = StackCode.Function

  lemma Cat2(o: seq<Op>, a: seq<Op>, b: seq<Op>)
    ensures (o + a) + b == o + (a + b)
  {
  }

  lemma Cat3(o: seq<Op>, a: seq<Op>, b: seq<Op>, c: seq<Op>)
    ensures ((o + a) + b) + c == o + (a + (b + c))
  {
  }

  lemma Cat4(o: seq<Op>, a: seq<Op>, b: seq<Op>, c: seq<Op>, d: seq<Op>)
    ensures (((o + a) + b) + c) + d == o + (a + (b + (c + d)))
  {
    Cat3(o + a, b, c, d);
    Cat2(o, a, b + (c + d));
  }

  lemma Cat5(o: seq<Op>, a: seq<Op>, b: seq<Op>, c: seq<Op>, d: seq<Op>, e: seq<Op>)
    ensures ((((o + a) + b) + c) + d) + e == o + (a + (b + (c + (d + e))))
  {
    Cat4(o + a, b, c, d, e);
    Cat2(o, a, b + (c + (d + e)));
  }

  lemma Cat6(o: seq<Op>, a: seq<Op>, b: seq<Op>, c: seq<Op>, d: seq<Op>, e: seq<Op>, f: seq<Op>)
    ensures (((((o + a) + b) + c) + d) + e) + f == o + (a + (b + (c + (d + (e + f)))))
  {
    Cat5(o + a, b, c, d, e, f);
    Cat2(o, a, b + (c + (d + (e + f))));
  }

  lemma Cat7(o: seq<Op>, a: seq<Op>, b: seq<Op>, c: seq<Op>, d: seq<Op>, e: seq<Op>, f: seq<Op>, g: seq<Op>)
    ensures ((((((o + a) + b) + c) + d) + e) + f) + g == o + (a + (b + (c + (d + (e + (f + g))))))
  {
    Cat6(o + a, b, c, d, e, f, g);
    Cat2(o, a, b + (c + (d + (e + (f + g)))));
  }

  /** Instructions that do not move the stack pointer. */
  predicate Still(t: Target, c: seq<Op>) {
    forall i :: 0 <= i < |c| ==> Effect(t, c[i]) == 0
  }

  lemma {:induction false} DepthStill(t: Target, c: seq<Op>, d: int, i: nat)
    requires Still(t, c) && i <= |c|
    ensures Depth(t, c, d, i) == d
  {
    if i > 0 { DepthStill(t, c, d, i - 1); }
  }

  lemma DepthMore(t: Target, a: seq<Op>, b: seq<Op>, d: int)
    ensures Depth(t, a + b, d, |a + b|) == Depth(t, b, Depth(t, a, d, |a|), |b|)
  {
    DepthSecond(t, a, b, d, |b|);
  }

  lemma OneDepth(t: Target, op: Op, d: int)
    ensures Depth(t, [op], d, 1) == d + Effect(t, op)
  {
    assert Depth(t, [op], d, 0) == d;
  }

  lemma StillOps(t: Target)
    ensures Still(t, [Plain]) && Still(t, [])
  {
  }

  lemma StillTest(t: Target, isAnd: bool, short: Label, end: Label)
    ensures Still(t, [TestAcc, Branch(short, isAnd)])
    ensures Still(t, [SetAcc(isAnd), Jump(end), Def(short), SetAcc(!isAnd), Def(end)])
  {
  }

  lemma StillCall(t: Target, callee: string, bytes: nat)
    ensures Still(t, [CallTo(callee, bytes)])
  {
  }

  /** Level code in the output leaves the depth as it was. */
  lemma CounterBack(t: Target, o: seq<Op>, c: seq<Op>, ids: set<nat>)
    requires var d := Depth(t, o, 0, |o|); Ok(t, c, d, d, d, ids, {})
    ensures Depth(t, o + c, 0, |o + c|) == Depth(t, o, 0, |o|)
  {
    DepthMore(t, o, c, 0);
  }

  lemma LogicalCode(t: Target, v: Value, n: nat)
    requires v.Logical?
    ensures var short, end := Numbered(ShortPrefix(v.isAnd), n), Numbered(I386.LogicEnd, n + 1);
      var r := EmitValue(t, v.lhs, n + 2);
      var q := EmitValue(t, v.rhs, r.next);
      var test := [TestAcc, Branch(short, v.isAnd)];
      EmitValue(t, v, n)
        == Emitted(r.code + (test + (q.code + (test
             + [SetAcc(v.isAnd), Jump(end), Def(short), SetAcc(!v.isAnd), Def(end)]))), q.next)
  {
  }

  /** The part of a call between padding and call instruction. */
  function ArgumentsCode(t: Target, args: seq<Value>, n: nat): Emitted {
    var ns := ArgChunks(t, args);
    var a := EmitPushed(t, args, |args|, false, n);
    var b := EmitPushed(t, args, |args|, true, a.next);
    Emitted(a.code + (b.code + PopsInto(t, RegistersBefore(t, ns, |ns|))), b.next)
  }

  lemma CallParts(t: Target, v: Value, n: nat)
    requires v.Call?
    ensures var ns := ArgChunks(t, v.args);
      var stack := StackBefore(t, ns, |ns|);
      var padding: nat := if t.X64? && stack % 2 != 0 then 8 else 0;
      var bytes := Bytes(t, stack);
      var pad := if padding > 0 then [LowerSp(padding)] else [];
      var clean := if bytes + padding > 0 then [RaiseSp(bytes + padding)] else [];
      var r := ArgumentsCode(t, v.args, n);
      EmitCallOf(t, v, n) == Emitted(pad + (r.code + ([CallTo(v.callee, bytes)] + clean)), r.next)
  {
    hide EmitPushed, RegistersBefore, StackBefore, PopsInto;
    var ns := ArgChunks(t, v.args);
    var a := EmitPushed(t, v.args, |v.args|, false, n);
    var b := EmitPushed(t, v.args, |v.args|, true, a.next);
    var bytes := PushBytes(t) * StackBefore(t, ns, |ns|);
    var clean := if CleanupBytes(t, ns) > 0 then [RaiseSp(CleanupBytes(t, ns))] else [];
    Regroup(a.code, b.code, PopsInto(t, RegistersBefore(t, ns, |ns|)), [CallTo(v.callee, bytes)] + clean);
  }

  predicate Planned(t: Target, ns: seq<nat>, inRegisters: seq<bool>) {
    |inRegisters| == |ns| && forall j :: 0 <= j < |ns| ==> inRegisters[j] == InRegisters(t, ns, j)
  }

  lemma Regroup(a: seq<Op>, b: seq<Op>, c: seq<Op>, d: seq<Op>)
    ensures (a + (b + c)) + d == a + (b + (c + d))
  {
  }

  lemma NextField(t: Target, fields: seq<Field>, i: nat, c: nat, n: nat, o: seq<Op>)
    requires i < |fields|
    ensures var r := EmitField(t, fields[i], c, n);
      var q := EmitFields(t, fields[i + 1..], c, r.next);
      var w := EmitFields(t, fields[i..], c, n);
      w.next == q.next && o + w.code == (o + r.code) + q.code
  {
    hide EmitField;
    assert fields[i..][1..] == fields[i + 1..] && fields[i..][0] == fields[i];
    var r := EmitField(t, fields[i], c, n);
    Cat2(o, r.code, EmitFields(t, fields[i + 1..], c, r.next).code);
  }

  lemma NoFields(t: Target, c: nat, n: nat)
    ensures EmitFields(t, [], c, n) == Emitted([], n)
  {
  }

  lemma NextPushed(t: Target, args: seq<Value>, i: nat, wanted: bool, n: nat, o: seq<Op>)
    requires i < |args|
    ensures var w := EmitPushed(t, args, i + 1, wanted, n);
      if InRegisters(t, ArgChunks(t, args), i) != wanted then w == EmitPushed(t, args, i, wanted, n) else
      var r := EmitChunksDown(t, args[i], Chunks(t, args[i].size), n);
      var q := EmitPushed(t, args, i, wanted, r.next);
      w.next == q.next && o + w.code == (o + r.code) + q.code
  {
    hide EmitChunksDown, InRegisters;
    var r := EmitChunksDown(t, args[i], Chunks(t, args[i].size), n);
    Cat2(o, r.code, EmitPushed(t, args, i, wanted, r.next).code);
  }

  lemma NonePushed(t: Target, args: seq<Value>, wanted: bool, n: nat)
    ensures EmitPushed(t, args, 0, wanted, n) == Emitted([], n)
  {
  }

  lemma NextChunkDown(t: Target, v: Value, k: nat, n: nat, o: seq<Op>)
    ensures var r := EmitChunk(t, v, k, n);
      var q := EmitChunksDown(t, v, k, r.next);
      var w := EmitChunksDown(t, v, k + 1, n);
      w.next == q.next && o + w.code == ((o + r.code) + PushAcc(t)) + q.code
  {
    hide EmitChunk, PushAcc;
    var r := EmitChunk(t, v, k, n);
    Cat2(o, r.code + PushAcc(t), EmitChunksDown(t, v, k, r.next).code);
    Cat2(o, r.code, PushAcc(t));
  }

  lemma NoChunkDown(t: Target, v: Value, n: nat)
    ensures EmitChunksDown(t, v, 0, n) == Emitted([], n)
  {
  }

  lemma NextChunkUp(t: Target, v: Value, c: nat, k: nat, n: nat, o: seq<Op>)
    requires c < k
    ensures var r := EmitChunk(t, v, c, n);
      var q := EmitChunksUp(t, v, c + 1, k, r.next);
      var w := EmitChunksUp(t, v, c, k, n);
      w.next == q.next && o + w.code == ((o + r.code) + [Plain]) + q.code
  {
    hide EmitChunk;
    var r := EmitChunk(t, v, c, n);
    Cat2(o, r.code + [Plain], EmitChunksUp(t, v, c + 1, k, r.next).code);
    Cat2(o, r.code, [Plain]);
  }

  lemma NoChunkUp(t: Target, v: Value, k: nat, n: nat)
    ensures EmitChunksUp(t, v, k, k, n) == Emitted([], n)
  {
  }

  lemma NextStatement(t: Target, body: seq<Stmt>, i: nat, n: nat, lo: Loop, ret: Label, o: seq<Op>, inLoop: bool)
    requires i < |body| && AllLoopsOk(body[i..], inLoop)
    ensures LoopsOk(body[i], inLoop) && AllLoopsOk(body[i + 1..], inLoop)
    ensures var r := EmitStmt(t, body[i], n, lo, ret);
      var q := EmitBody(t, body[i + 1..], r.next, lo, ret);
      var w := EmitBody(t, body[i..], n, lo, ret);
      w.next == q.next && o + w.code == (o + r.code) + q.code
  {
    hide EmitStmt, LoopsOk;
    assert body[i..][1..] == body[i + 1..] && body[i..][0] == body[i];
    var r := EmitStmt(t, body[i], n, lo, ret);
    Cat2(o, r.code, EmitBody(t, body[i + 1..], r.next, lo, ret).code);
  }

  lemma NoStatement(t: Target, n: nat, lo: Loop, ret: Label)
    ensures EmitBody(t, [], n, lo, ret) == Emitted([], n)
  {
  }

  lemma StillIf(t: Target, other: Label, end: Label)
    ensures Still(t, [TestAcc, Branch(other, true)]) && Still(t, [Jump(end), Def(other)]) && Still(t, [Def(end)])
  {
  }

  lemma StillWhile(t: Target, start: Label, end: Label)
    ensures Still(t, [Def(start)]) && Still(t, [TestAcc, Branch(end, true)]) && Still(t, [Jump(start), Def(end)])
  {
  }

  lemma StillFor(t: Target, cond: Label, step: Label, end: Label)
    ensures Still(t, [Def(cond)]) && Still(t, [Def(step)])
    ensures Still(t, [TestAcc, Branch(end, true)]) && Still(t, [Jump(cond), Def(end)])
  {
  }

  lemma StillDef(t: Target, l: Label)
    ensures Still(t, [Def(l)])
  {
  }

  lemma StillPattern(t: Target, arm: Label)
    ensures Still(t, [Jump(arm)]) && Still(t, [Plain, Branch(arm, true)])
  {
  }

  lemma StillArm(t: Target, arm: Label, end: Label)
    ensures Still(t, [Def(arm), Plain]) && Still(t, [Jump(end)])
  {
  }

  lemma StillFunction(t: Target, entry: Label, ret: Label)
    ensures Still(t, [Def(entry), SaveFrame]) && Still(t, [Plain]) && Still(t, [Def(ret), Leave])
  {
  }

  /** The part of a `for` behind its initializer. */
  function ForLoop(t: Target, st: Stmt, cond: Label, step: Label, end: Label, n: nat, lo: Loop, ret: Label): Emitted
    requires st.For?
  {
    var r := EmitValue(t, st.cond, n);
    var b := EmitBody(t, st.body, r.next, InLoop(step, end), ret);
    var g := EmitStmt(t, st.step, b.next, lo, ret);
    Emitted([Def(cond)] + (r.code + ([TestAcc, Branch(end, true)] + (b.code
      + ([Def(step)] + (g.code + [Jump(cond), Def(end)]))))), g.next)
  }

  lemma ForParts(t: Target, st: Stmt, n: nat, lo: Loop, ret: Label)
    requires st.For?
    ensures var i := EmitStmt(t, st.init, n + 3, lo, ret);
      var cond, step := Numbered(I386.ForCondition, n), Numbered(I386.ForIncrement, n + 1);
      var r := ForLoop(t, st, cond, step, Numbered(I386.ForEnd, n + 2), i.next, lo, ret);
      EmitFor(t, st, n, lo, ret) == Emitted(i.code + r.code, r.next)
  {
    hide EmitStmt, EmitBody, EmitValue;
  }

  lemma LoopsOkFor(st: Stmt, inLoop: bool)
    requires st.For? && LoopsOk(st, inLoop)
    ensures LoopsOk(st.init, inLoop) && LoopsOk(st.step, inLoop) && AllLoopsOk(st.body, true)
  {
  }

  lemma NextDispatch(arms: seq<Arm>, i: nat, label0: nat, last: Label, o: seq<Op>)
    requires i < |arms|
    ensures var a := DispatchArm(arms[i].patterns, ArmLabel(label0 + i));
      o + Dispatch(arms[i..], label0 + i) == (o + a) + Dispatch(arms[i + 1..], label0 + (i + 1))
    ensures var last' := if Default in arms[i].patterns then ArmLabel(label0 + i) else last;
      Fallback(arms[i..], label0 + i, last) == Fallback(arms[i + 1..], label0 + (i + 1), last')
  {
    hide DispatchArm;
    assert arms[i..][1..] == arms[i + 1..] && arms[i..][0] == arms[i];
    Cat2(o, DispatchArm(arms[i].patterns, ArmLabel(label0 + i)), Dispatch(arms[i + 1..], label0 + (i + 1)));
  }

  /** The tests of a match, the jump behind them, and its arms. */
  function ArmsCode(t: Target, arms: seq<Arm>, label0: nat, n: nat, end: Label, lo: Loop, ret: Label): Emitted {
    var b := EmitArms(t, arms, label0, n, end, lo, ret);
    Emitted(Dispatch(arms, label0) + ([Jump(Fallback(arms, label0, end))] + b.code), b.next)
  }

  lemma MatchParts(t: Target, st: Stmt, n: nat, lo: Loop, ret: Label)
    requires st.Match?
    ensures var end := Numbered(I386.MatchEnd, n);
      var r := EmitToSlots(t, st.value, n + 1 + |st.arms|);
      var b := ArmsCode(t, st.arms, n + 1, r.next, end, lo, ret);
      EmitMatch(t, st, n, lo, ret) == Emitted(r.code + (b.code + [Def(end)]), b.next)
  {
    hide EmitToSlots, EmitArms, Dispatch, Fallback;
    var end := Numbered(I386.MatchEnd, n);
    var r := EmitToSlots(t, st.value, n + 1 + |st.arms|);
    var b := EmitArms(t, st.arms, n + 1, r.next, end, lo, ret);
    Regroup(Dispatch(st.arms, n + 1), [Jump(Fallback(st.arms, n + 1, end))], b.code, [Def(end)]);
  }

  lemma NoDispatch(label0: nat, last: Label)
    ensures Dispatch([], label0) == [] && Fallback([], label0, last) == last
  {
  }

  lemma NextPattern(patterns: seq<Pattern>, i: nat, arm: Label, o: seq<Op>)
    requires i < |patterns|
    ensures var rest := DispatchArm(patterns[i + 1..], arm);
      var now := match patterns[i]
        case Default => o
        case Always => o + [Jump(arm)]
        case Test => o + [Plain, Branch(arm, true)];
      o + DispatchArm(patterns[i..], arm) == now + rest
  {
    assert patterns[i..][1..] == patterns[i + 1..] && patterns[i..][0] == patterns[i];
    assert o + ([] + DispatchArm(patterns[i + 1..], arm)) == o + DispatchArm(patterns[i + 1..], arm);
  }

  lemma NoPattern(arm: Label)
    ensures DispatchArm([], arm) == []
  {
  }

  lemma NextArm(t: Target, arms: seq<Arm>, i: nat, label0: nat, n: nat, end: Label, lo: Loop, ret: Label, o: seq<Op>,
                inLoop: bool)
    requires i < |arms| && ArmLoopsOk(arms[i..], inLoop)
    ensures AllLoopsOk(arms[i].body, inLoop) && ArmLoopsOk(arms[i + 1..], inLoop)
    ensures var r := EmitBody(t, arms[i].body, n, lo, ret);
      var q := EmitArms(t, arms[i + 1..], label0 + (i + 1), r.next, end, lo, ret);
      var w := EmitArms(t, arms[i..], label0 + i, n, end, lo, ret);
      && w.next == q.next
      && o + w.code == (((o + [Def(ArmLabel(label0 + i)), Plain]) + r.code) + [Jump(end)]) + q.code
  {
    hide EmitBody, AllLoopsOk;
    assert arms[i..][1..] == arms[i + 1..] && arms[i..][0] == arms[i];
    var r := EmitBody(t, arms[i].body, n, lo, ret);
    var q := EmitArms(t, arms[i + 1..], label0 + (i + 1), r.next, end, lo, ret);
    Cat4(o, [Def(ArmLabel(label0 + i)), Plain], r.code, [Jump(end)], q.code);
  }

  lemma NoArm(t: Target, label0: nat, n: nat, end: Label, lo: Loop, ret: Label)
    ensures EmitArms(t, [], label0, n, end, lo, ret) == Emitted([], n)
  {
  }

  lemma FunctionCode(t: Target, f: Function, n: nat)
    ensures var ret := I386.ReturnOf(f.name);
      var b := EmitBody(t, f.body, n, NoLoop, ret);
      var front := if Room(t, f) > 0 then [LowerSp(Room(t, f))] else [];
      EmitFunction(t, f, n) == Emitted(
        [Def(I386.FunctionOf(f.name)), SaveFrame] + (front + ([Plain] + (b.code + [Def(ret), Leave]))), b.next)
  {
    hide EmitBody;
    var ret := I386.ReturnOf(f.name);
    var b := EmitBody(t, f.body, n, NoLoop, ret);
    var front := if Room(t, f) > 0 then [LowerSp(Room(t, f))] else [];
    Cat3([Def(I386.FunctionOf(f.name)), SaveFrame], front, [Plain], b.code + [Def(ret), Leave]);
    Cat2([Def(I386.FunctionOf(f.name)), SaveFrame], front, [Plain]);
  }

  lemma BodyDepth(t: Target, body: seq<Stmt>, o: seq<Op>, n: nat, ret: Label)
    requires AllLoopsOk(body, false)
    ensures var c := EmitBody(t, body, n, NoLoop, ret).code; Depth(t, o + c, 0, |o + c|) == Depth(t, o, 0, |o|)
  {
    hide EmitBody, AllLoopsOk, Depth;
    var d := Depth(t, o, 0, |o|);
    var r := EmitBody(t, body, n, NoLoop, ret);
    BodyIsFlat(t, body, d, n, NoLoop, ret, {ret});
    EndDepth(t, r.code, d, d, d, Range(n, r.next), {ret});
    DepthMore(t, o, r.code, 0);
  }

  lemma NextFunction(t: Target, fs: seq<Function>, i: nat, n: nat, o: seq<Op>)
    requires i < |fs|
    ensures var r := EmitFunction(t, fs[i], n);
      var q := EmitFunctions(t, fs[i + 1..], r.next);
      var w := EmitFunctions(t, fs[i..], n);
      w.next == q.next && o + w.code == (o + r.code) + q.code
  {
    hide EmitFunction;
    assert fs[i..][1..] == fs[i + 1..] && fs[i..][0] == fs[i];
    var r := EmitFunction(t, fs[i], n);
    Cat2(o, r.code, EmitFunctions(t, fs[i + 1..], r.next).code);
  }

  lemma NoFunction(t: Target, n: nat)
    ensures EmitFunctions(t, [], n) == Emitted([], n)
  {
  }
}
