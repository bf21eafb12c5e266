/** The lowering pass as the compiler has it: an object with a stack of open
    scopes, the statements to be put in front of the current one, and a counter
    for temporaries. Each method is proved to produce what the functions of
    `DeferLowering` say. */
module Lowerer {
  import opened DeferSource
  import opened DeferIr
  import Spec = DeferLowering

  lemma Cat(a: seq<IrStmt>, b: seq<IrStmt>, c: seq<IrStmt>)
    ensures (a + b) + c == a + (b + c)
  {
  }

  class Lowerer {
    var deferScopes: seq<Spec.Scope>
    var pending: seq<IrStmt>
    var tryTempCounter: nat

    constructor ()
      ensures deferScopes == [] && pending == [] && tryTempCounter == 0
    {
      deferScopes, pending, tryTempCounter := [], [], 0;
    }

    /** Appends the calls of one scope, last registered first. */
    method EmitScopeCleanup(code: seq<IrStmt>, scope: Spec.Scope) returns (code': seq<IrStmt>)
      ensures code' == code + Spec.ScopeCleanup(scope.calls)
    {
      code' := code;
      var i := |scope.calls|;
      assert scope.calls[..i] == scope.calls;
      while i > 0
        invariant 0 <= i <= |scope.calls|
        invariant code' + Spec.ScopeCleanup(scope.calls[..i]) == code + Spec.ScopeCleanup(scope.calls)
      {
        ghost var before := code';
        i := i - 1;
        var call := IExpr(IRead(scope.calls[i]));
        code' := code' + [call];
        assert scope.calls[..i + 1][..i] == scope.calls[..i];
        assert (before + [call]) + Spec.ScopeCleanup(scope.calls[..i])
            == before + ([call] + Spec.ScopeCleanup(scope.calls[..i]));
      }
    }

    /** Appends the calls of all open scopes, innermost first. */
    method EmitReturnCleanup(code: seq<IrStmt>) returns (code': seq<IrStmt>)
      ensures code' == code + Spec.ReturnCleanup(deferScopes)
    {
      hide Spec.ScopeCleanup;
      code' := code;
      var i := |deferScopes|;
      assert deferScopes[..i] == deferScopes;
      while i > 0
        invariant 0 <= i <= |deferScopes|
        invariant code' + Spec.ReturnCleanup(deferScopes[..i]) == code + Spec.ReturnCleanup(deferScopes)
      {
        ghost var before := code';
        i := i - 1;
        code' := EmitScopeCleanup(code', deferScopes[i]);
        assert deferScopes[..i + 1][..i] == deferScopes[..i];
        Cat(before, Spec.ScopeCleanup(deferScopes[i].calls), Spec.ReturnCleanup(deferScopes[..i]));
      }
    }

    /** Appends the calls of the open scopes up to the nearest loop body. */
    method EmitLoopExitCleanup(code: seq<IrStmt>) returns (code': seq<IrStmt>)
      ensures code' == code + Spec.LoopCleanup(deferScopes)
    {
      hide Spec.LoopCleanup, Spec.ScopeCleanup;
      code' := code;
      var i, inside := |deferScopes|, true;
      assert deferScopes[..i] == deferScopes;
      while i > 0 && inside
        invariant 0 <= i <= |deferScopes|
        invariant code' + (if inside then Spec.LoopCleanup(deferScopes[..i]) else [])
               == code + Spec.LoopCleanup(deferScopes)
      {
        ghost var before := code';
        Spec.LoopCleanupStep(deferScopes[..i]);
        i := i - 1;
        assert deferScopes[..i + 1][..i] == deferScopes[..i];
        code' := EmitScopeCleanup(code', deferScopes[i]);
        inside := !deferScopes[i].isLoopBody;
        Cat(before, Spec.ScopeCleanup(deferScopes[i].calls), if inside then Spec.LoopCleanup(deferScopes[..i]) else []);
      }
      Spec.LoopCleanupStep([]);
    }

    /** Lowers an expression. What must happen before the current statement goes
        to `pending`. */
    method LowerExpr(e: Expr) returns (value: IrExpr)
      modifies this`pending, this`tryTempCounter
      ensures var r := Spec.LowerExpr(e, deferScopes, old(tryTempCounter));
        pending == old(pending) + r.pre && value == r.value && tryTempCounter == r.next
    {
      match e
      case Read(op) => value := IRead(op);
      case Apply(op, a) =>
        var arg := LowerExpr(a);
        value := IApply(op, arg);
      case Both(op, rightFirst, a, b) =>
        var lhs := LowerExpr(a);
        var rhs := LowerExpr(b);
        value := IBoth(op, rightFirst, lhs, rhs);
      case Short(op, isAnd, a, b) =>
        var lhs := LowerExpr(a);
        var rhs := LowerExpr(b);
        value := IShort(op, isAnd, lhs, rhs);
      case Try(a) =>
        ghost var r := Spec.LowerExpr(a, deferScopes, tryTempCounter);
        var operand := LowerExpr(a);
        var tmp := tryTempCounter;
        tryTempCounter := tryTempCounter + 1;
        pending := pending + [LetTmp(tmp, operand)];
        var leave := EmitReturnCleanup([]);
        assert leave == Spec.ReturnCleanup(deferScopes);
        leave := leave + [IReturn(Tmp(tmp))];
        pending := pending + [IIf(IsErr(tmp), leave, [])];
        value := ValueOr(tmp);
        assert pending == old(pending) + (r.pre + Spec.TryPre(tmp, operand, deferScopes));
    }

    method LowerStatement(st: Stmt) returns (stmt: IrStmt)
      requires !Spec.IsItem(st) && Spec.Formed(st)
      modifies this
      ensures var r := Spec.LowerStmt(st, old(deferScopes), old(tryTempCounter));
        pending == old(pending) + r.pre && stmt == r.stmt && tryTempCounter == r.next && deferScopes == old(deferScopes)
      decreases st, 2
    {
      match st
      case Set(name, e) =>
        var value := LowerExpr(e);
        stmt := ISet(name, value);
      case Expr(e) =>
        var value := LowerExpr(e);
        stmt := IExpr(value);
      case If(c, a, b) =>
        var cond := LowerExpr(c);
        var thenBody := LowerStatementsInScope(a, false);
        var elseBody := LowerStatementsInScope(b, false);
        stmt := IIf(cond, thenBody, elseBody);
      case While(c, body) =>
        var cond := LowerExpr(c);
        var code := LowerStatementsInScope(body, true);
        stmt := IWhile(cond, code);
      case For(_, _, _, _) => stmt := LowerFor(st);
      case Match(e, arms) =>
        var value := LowerExpr(e);
        var lowered := LowerArms(arms);
        stmt := IMatch(value, lowered);
      case Break =>
        pending := EmitLoopExitCleanup(pending);
        stmt := IBreak;
      case Continue =>
        pending := EmitLoopExitCleanup(pending);
        stmt := IContinue;
      case Return(e) =>
        ghost var r := Spec.LowerExpr(e, deferScopes, tryTempCounter);
        var value := LowerExpr(e);
        pending := EmitReturnCleanup(pending);
        stmt := IReturn(value);
        assert pending == old(pending) + (r.pre + Spec.ReturnCleanup(deferScopes));
    }

    method LowerFor(st: Stmt) returns (stmt: IrStmt)
      requires st.For? && Spec.Formed(st)
      modifies this
      ensures var r := Spec.LowerFor(st, old(deferScopes), old(tryTempCounter));
        pending == old(pending) + r.pre && stmt == r.stmt && tryTempCounter == r.next && deferScopes == old(deferScopes)
      decreases st, 1
    {
      hide Spec.LowerExpr, Spec.LowerStmt, Spec.LowerBlock, Spec.FormedAll;
      ghost var i := Spec.LowerStmt(st.init, deferScopes, tryTempCounter);
      var init := LowerStatement(st.init);
      ghost var r := Spec.LowerExpr(st.cond, deferScopes, tryTempCounter);
      var cond := LowerExpr(st.cond);
      ghost var g := Spec.LowerStmt(st.step, deferScopes, tryTempCounter);
      var step := LowerStatement(st.step);
      var body := LowerStatementsInScope(st.body, true);
      stmt := IFor(init, cond, step, body);
      assert pending == old(pending) + (i.pre + (r.pre + g.pre));
    }

    /** Adds a call to the innermost scope. */
    method RegisterDefer(call: nat)
      requires deferScopes != []
      modifies this`deferScopes
      ensures deferScopes == Spec.Register(old(deferScopes), call)
    {
      var top := deferScopes[|deferScopes| - 1];
      deferScopes := deferScopes[..|deferScopes| - 1] + [top.(calls := top.calls + [call])];
    }

    /** Appends what must come first and then the statement. */
    method AppendStatement(st: Stmt, code: seq<IrStmt>) returns (code': seq<IrStmt>)
      requires !Spec.IsItem(st) && Spec.Formed(st)
      modifies this
      ensures var r := Spec.LowerStmt(st, old(deferScopes), old(tryTempCounter));
        && code' == code + (r.pre + [r.stmt]) && tryTempCounter == r.next
        && deferScopes == old(deferScopes) && pending == old(pending)
      decreases st, 3
    {
      hide Spec.LowerStmt, Spec.Formed;
      var previous := pending;
      pending := [];
      var stmt := LowerStatement(st);
      var pre := pending;
      pending := previous;
      code' := code + pre + [stmt];
      assert [] + pre == pre;
      Cat(code, pre, [stmt]);
    }

    /** Lowers a block in a scope of its own and leaves the scopes as they were. */
    method LowerStatementsInScope(body: seq<Stmt>, isLoopBody: bool) returns (code: seq<IrStmt>)
      requires Spec.FormedAll(body)
      modifies this
      ensures var r := Spec.LowerBlock(body, old(deferScopes), isLoopBody, old(tryTempCounter));
        code == r.code && tryTempCounter == r.next && deferScopes == old(deferScopes) && pending == old(pending)
      decreases body, 1
    {
      hide Spec.LowerRest, Spec.FormedAll, Spec.LowerStmt, Spec.Formed, Spec.ScopeCleanup;
      ghost var goal := Spec.LowerBlock(body, deferScopes, isLoopBody, tryTempCounter);
      deferScopes := deferScopes + [Spec.Scope([], isLoopBody)];
      code := [];
      for i := 0 to |body|
        invariant deferScopes != [] && deferScopes[..|deferScopes| - 1] == old(deferScopes)
        invariant Spec.FormedAll(body[i..]) && pending == old(pending)
        invariant Undone(body[i..], code, goal)
      {
        assert body[i..][1..] == body[i + 1..] && body[i..][0] == body[i];
        Spec.FormedStep(body[i..]);
        Spec.LowerStep(body[i..], deferScopes, tryTempCounter);
        ghost var before := code;
        if body[i].Unsafe? {
          Spec.UnsafeFormed(body[i]);
          var inner := LowerStatementsInScope(body[i].body, false);
          code := code + inner;
          Cat(before, inner, Spec.LowerRest(body[i + 1..], deferScopes, tryTempCounter).code);
        } else if body[i].Defer? {
          RegisterDefer(body[i].call);
        } else {
          ghost var x := Spec.LowerStmt(body[i], deferScopes, tryTempCounter);
          code := AppendStatement(body[i], code);
          ghost var rest := Spec.LowerRest(body[i + 1..], deferScopes, tryTempCounter).code;
          Cat(before, x.pre + [x.stmt], rest);
          Cat(x.pre, [x.stmt], rest);
        }
      }
      assert body[|body|..] == [];
      Spec.LowerEnd(deferScopes, tryTempCounter);
      code := EmitScopeCleanup(code, deferScopes[|deferScopes| - 1]);
      deferScopes := deferScopes[..|deferScopes| - 1];
    }

    /** Lowering the rest of the block completes `code` to the goal. */
    ghost predicate Undone(body: seq<Stmt>, code: seq<IrStmt>, goal: Spec.LoweredBody)
      requires deferScopes != [] && Spec.FormedAll(body)
      reads this
    {
      var r := Spec.LowerRest(body, deferScopes, tryTempCounter);
      code + r.code == goal.code && r.next == goal.next
    }

    method LowerArms(arms: seq<Arm>) returns (lowered: seq<IrArm>)
      requires Spec.FormedArms(arms)
      modifies this
      ensures var r := Spec.LowerArms(arms, old(deferScopes), old(tryTempCounter));
        lowered == r.arms && tryTempCounter == r.next && deferScopes == old(deferScopes) && pending == old(pending)
      decreases arms, 0
    {
      hide Spec.LowerBlock, Spec.FormedAll;
      lowered := [];
      ghost var goal := Spec.LowerArms(arms, deferScopes, tryTempCounter);
      for i := 0 to |arms|
        invariant deferScopes == old(deferScopes) && pending == old(pending) && Spec.FormedArms(arms[i..])
        invariant lowered + Spec.LowerArms(arms[i..], deferScopes, tryTempCounter).arms == goal.arms
        invariant Spec.LowerArms(arms[i..], deferScopes, tryTempCounter).next == goal.next
      {
        assert arms[i..][1..] == arms[i + 1..] && arms[i..][0] == arms[i];
        ghost var before := lowered;
        var body := LowerStatementsInScope(arms[i].body, false);
        lowered := lowered + [IrArm(arms[i].patterns, body)];
        ghost var rest := Spec.LowerArms(arms[i + 1..], deferScopes, tryTempCounter).arms;
        assert lowered + rest == before + ([IrArm(arms[i].patterns, body)] + rest);
      }
    }

    /** Lowers a function body: the result runs exactly like its source. */
    method LowerFunction(body: seq<Stmt>) returns (code: seq<IrStmt>)
      requires Spec.FormedAll(body) && deferScopes == []
      modifies this
      ensures code == Spec.LowerBlock(body, [], false, old(tryTempCounter)).code && deferScopes == []
    {
      code := LowerStatementsInScope(body, false);
    }
  }
}
