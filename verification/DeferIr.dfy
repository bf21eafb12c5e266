/** The lowered language: no `defer`, no `?`, and temporaries for the operands of
    `?`. */
module DeferIr {
  import opened DeferSource

  datatype IrExpr =
    | IRead(op: nat)
    | IApply(op: nat, arg: IrExpr)
    | IBoth(op: nat, rightFirst: bool, lhs: IrExpr, rhs: IrExpr)
    | IShort(op: nat, isAnd: bool, lhs: IrExpr, rhs: IrExpr)
    | Tmp(k: nat)
    | IsErr(k: nat)
    | ValueOr(k: nat)

  datatype IrArm = IrArm(patterns: seq<Pattern>, body: seq<IrStmt>)

  datatype IrStmt =
    | ISet(name: string, value: IrExpr)
    | LetTmp(k: nat, value: IrExpr)
    | IExpr(value: IrExpr)
    | IIf(cond: IrExpr, thenBody: seq<IrStmt>, elseBody: seq<IrStmt>)
    | IWhile(cond: IrExpr, body: seq<IrStmt>)
    | IFor(init: IrStmt, cond: IrExpr, step: IrStmt, body: seq<IrStmt>)
    | IMatch(value: IrExpr, arms: seq<IrArm>)
    | IBreak
    | IContinue
    | IReturn(value: IrExpr)

  type Tmps = map<nat, int>

  function TmpOf(t: Tmps, k: nat): int {
    if k in t then t[k] else 0
  }

  function IrEval<S>(m: Meaning<S>, e: IrExpr, s: S, t: Tmps): (int, S) {
    match e
    case IRead(op) => m.read(op, s)
    case IApply(op, a) =>
      var r := IrEval(m, a, s, t);
      m.apply(op, r.0, r.1)
    case IBoth(op, rightFirst, a, b) =>
      var r := IrEval(m, if rightFirst then b else a, s, t);
      var q := IrEval(m, if rightFirst then a else b, r.1, t);
      if rightFirst then m.both(op, q.0, r.0, q.1) else m.both(op, r.0, q.0, q.1)
    case IShort(op, isAnd, a, b) =>
      var r := IrEval(m, a, s, t);
      var q := if Skips(isAnd, r.0) then r else IrEval(m, b, r.1, t);
      m.apply(op, q.0, q.1)
    case Tmp(k) => (TmpOf(t, k), s)
    case IsErr(k) => (if m.isErr(TmpOf(t, k)) then 1 else 0, s)
    case ValueOr(k) => (m.valueOr(TmpOf(t, k)), s)
  }

  datatype IrOutcome<S> =
    | INext(s: S, t: Tmps)
    | IBroke(s: S, t: Tmps)
    | IContinued(s: S, t: Tmps)
    | IReturned(v: int, s: S)
    | IOutOfFuel

  predicate IrHits(arm: IrArm, v: int) {
    exists p :: p in arm.patterns && (p.Default? || p.tag == v)
  }

  function IrExec<S>(m: Meaning<S>, fuel: nat, st: IrStmt, s: S, t: Tmps): IrOutcome<S>
    decreases fuel, st, 2
  {
    match st
    case ISet(name, e) =>
      var r := IrEval(m, e, s, t);
      INext(m.store(name, r.0, r.1), t)
    case LetTmp(k, e) =>
      var r := IrEval(m, e, s, t);
      INext(r.1, t[k := r.0])
    case IExpr(e) => INext(IrEval(m, e, s, t).1, t)
    case IIf(c, a, b) =>
      var r := IrEval(m, c, s, t);
      if r.0 != 0 then IrExecAll(m, fuel, a, r.1, t) else IrExecAll(m, fuel, b, r.1, t)
    case IWhile(_, _) => IrLoop(m, fuel, st, s, t)
    case IFor(init, _, _, _) =>
      var o := IrExec(m, fuel, init, s, t);
      if o.INext? then IrLoop(m, fuel, st, o.s, o.t) else o
    case IMatch(e, arms) =>
      var r := IrEval(m, e, s, t);
      IrArms(m, fuel, arms, r.0, r.1, t)
    case IBreak => IBroke(s, t)
    case IContinue => IContinued(s, t)
    case IReturn(e) =>
      var r := IrEval(m, e, s, t);
      IReturned(r.0, r.1)
  }

  function IrExecAll<S>(m: Meaning<S>, fuel: nat, body: seq<IrStmt>, s: S, t: Tmps): IrOutcome<S>
    decreases fuel, body, 1
  {
    if body == [] then INext(s, t) else
    var o := IrExec(m, fuel, body[0], s, t);
    if o.INext? then IrExecAll(m, fuel, body[1..], o.s, o.t) else o
  }

  function IrArms<S>(m: Meaning<S>, fuel: nat, arms: seq<IrArm>, v: int, s: S, t: Tmps): IrOutcome<S>
    decreases fuel, arms, 1
  {
    if arms == [] then INext(s, t)
    else if IrHits(arms[0], v) then IrExecAll(m, fuel, arms[0].body, s, t)
    else IrArms(m, fuel, arms[1..], v, s, t)
  }

  function IrLoop<S>(m: Meaning<S>, fuel: nat, st: IrStmt, s: S, t: Tmps): IrOutcome<S>
    requires st.IWhile? || st.IFor?
    decreases fuel, st, 1
  {
    if fuel == 0 then IOutOfFuel else
    var r := IrEval(m, st.cond, s, t);
    if r.0 == 0 then INext(r.1, t) else
    var o := IrExecAll(m, fuel - 1, st.body, r.1, t);
    match o
    case IBroke(s1, t1) => INext(s1, t1)
    case IReturned(_, _) => o
    case IOutOfFuel => o
    case _ =>
      if st.IWhile? then IrLoop(m, fuel - 1, st, o.s, o.t) else
      var q := IrExec(m, fuel - 1, st.step, o.s, o.t);
      if q.INext? then IrLoop(m, fuel - 1, st, q.s, q.t) else q
  }

  function IrRun<S>(m: Meaning<S>, fuel: nat, body: seq<IrStmt>, s: S): Result<S> {
    match IrExecAll(m, fuel, body, s, map[])
    case INext(s1, _) => FellOff(s1)
    case IReturned(v, s1) => Returned(v, s1)
    case IBroke(s1, _) => Stray(s1)
    case IContinued(s1, _) => Stray(s1)
    case IOutOfFuel => NoResult
  }

  lemma {:induction false} IrExecCat<S>(m: Meaning<S>, fuel: nat, a: seq<IrStmt>, b: seq<IrStmt>, s: S, t: Tmps)
    ensures var o := IrExecAll(m, fuel, a, s, t);
      IrExecAll(m, fuel, a + b, s, t) == if o.INext? then IrExecAll(m, fuel, b, o.s, o.t) else o
    decreases |a|
  {
    hide IrExec;
    if a == [] {
      assert a + b == b;
    } else {
      assert (a + b)[1..] == a[1..] + b && (a + b)[0] == a[0];
      var o := IrExec(m, fuel, a[0], s, t);
      if o.INext? { IrExecCat(m, fuel, a[1..], b, o.s, o.t); }
    }
  }
}

/** The lowering: cleanup code is written out on every path that leaves a block,
    from a stack of scopes that is known while lowering. */
module DeferLowering {
  import opened DeferSource
  import opened DeferIr

  /** The calls registered so far in one open block. */
  datatype Scope = Scope(calls: seq<nat>, isLoopBody: bool)

  /** Last registered first. */
  function ScopeCleanup(calls: seq<nat>): seq<IrStmt> {
    if calls == [] then [] else [IExpr(IRead(calls[|calls| - 1]))] + ScopeCleanup(calls[..|calls| - 1])
  }

  /** All open scopes, innermost first. */
  function ReturnCleanup(scopes: seq<Scope>): seq<IrStmt> {
    if scopes == [] then []
    else ScopeCleanup(scopes[|scopes| - 1].calls) + ReturnCleanup(scopes[..|scopes| - 1])
  }

  /** The scopes up to the nearest loop body. */
  function LoopCleanup(scopes: seq<Scope>): seq<IrStmt> {
    if scopes == [] then [] else
    var top := scopes[|scopes| - 1];
    ScopeCleanup(top.calls) + if top.isLoopBody then [] else LoopCleanup(scopes[..|scopes| - 1])
  }

  function Register(scopes: seq<Scope>, call: nat): (r: seq<Scope>)
    requires scopes != []
    ensures |r| == |scopes|
  {
    var top := scopes[|scopes| - 1];
    scopes[..|scopes| - 1] + [Scope(top.calls + [call], top.isLoopBody)]
  }

  datatype LoweredExpr = LoweredExpr(pre: seq<IrStmt>, value: IrExpr, next: nat)

  function TryPre(k: nat, value: IrExpr, scopes: seq<Scope>): seq<IrStmt> {
    [LetTmp(k, value), IIf(IsErr(k), ReturnCleanup(scopes) + [IReturn(Tmp(k))], [])]
  }

  /** Each `?` moves its operand, the test and the early return in front of the
      statement. */
  function LowerExpr(e: Expr, scopes: seq<Scope>, n: nat): LoweredExpr {
    match e
    case Read(op) => LoweredExpr([], IRead(op), n)
    case Apply(op, a) =>
      var r := LowerExpr(a, scopes, n);
      r.(value := IApply(op, r.value))
    case Both(op, rightFirst, a, b) =>
      var r := LowerExpr(a, scopes, n);
      var q := LowerExpr(b, scopes, r.next);
      LoweredExpr(r.pre + q.pre, IBoth(op, rightFirst, r.value, q.value), q.next)
    case Short(op, isAnd, a, b) =>
      var r := LowerExpr(a, scopes, n);
      var q := LowerExpr(b, scopes, r.next);
      LoweredExpr(r.pre + q.pre, IShort(op, isAnd, r.value, q.value), q.next)
    case Try(a) =>
      var r := LowerExpr(a, scopes, n);
      LoweredExpr(r.pre + TryPre(r.next, r.value, scopes), ValueOr(r.next), r.next + 1)
  }

  datatype LoweredStmt = LoweredStmt(pre: seq<IrStmt>, stmt: IrStmt, next: nat)

  datatype LoweredBody = LoweredBody(code: seq<IrStmt>, next: nat)

  datatype LoweredArms = LoweredArms(arms: seq<IrArm>, next: nat)

  predicate IsItem(st: Stmt) {
    st.Unsafe? || st.Defer?
  }

  predicate Simple(st: Stmt) {
    st.Set? || st.Expr?
  }

  /** The grammar: the heads of `for` loops are assignments, `let` or calls. */
  predicate Formed(st: Stmt)
    decreases st, 1
  {
    match st
    case If(_, a, b) => FormedAll(a) && FormedAll(b)
    case While(_, body) => FormedAll(body)
    case For(init, _, step, body) => Simple(init) && Simple(step) && FormedAll(body)
    case Match(_, arms) => FormedArms(arms)
    case Unsafe(body) => FormedAll(body)
    case _ => true
  }

  lemma UnsafeFormed(st: Stmt)
    requires st.Unsafe? && Formed(st)
    ensures FormedAll(st.body)
  {
  }

  predicate FormedAll(body: seq<Stmt>)
    decreases body, 0
  {
    body == [] || (Formed(body[0]) && FormedAll(body[1..]))
  }

  predicate FormedArms(arms: seq<Arm>)
    decreases arms, 0
  {
    arms == [] || (FormedAll(arms[0].body) && FormedArms(arms[1..]))
  }

  function LowerStmt(st: Stmt, scopes: seq<Scope>, n: nat): LoweredStmt
    requires !IsItem(st) && Formed(st)
    decreases st, 2
  {
    match st
    case Set(name, e) =>
      var r := LowerExpr(e, scopes, n);
      LoweredStmt(r.pre, ISet(name, r.value), r.next)
    case Expr(e) =>
      var r := LowerExpr(e, scopes, n);
      LoweredStmt(r.pre, IExpr(r.value), r.next)
    case If(c, a, b) =>
      var r := LowerExpr(c, scopes, n);
      var x := LowerBlock(a, scopes, false, r.next);
      var y := LowerBlock(b, scopes, false, x.next);
      LoweredStmt(r.pre, IIf(r.value, x.code, y.code), y.next)
    case While(c, body) =>
      var r := LowerExpr(c, scopes, n);
      var x := LowerBlock(body, scopes, true, r.next);
      LoweredStmt(r.pre, IWhile(r.value, x.code), x.next)
    case For(init, c, step, body) => LowerFor(st, scopes, n)
    case Match(e, arms) =>
      var r := LowerExpr(e, scopes, n);
      var x := LowerArms(arms, scopes, r.next);
      LoweredStmt(r.pre, IMatch(r.value, x.arms), x.next)
    case Break => LoweredStmt(LoopCleanup(scopes), IBreak, n)
    case Continue => LoweredStmt(LoopCleanup(scopes), IContinue, n)
    case Return(e) =>
      var r := LowerExpr(e, scopes, n);
      LoweredStmt(r.pre + ReturnCleanup(scopes), IReturn(r.value), r.next)
  }

  /** The statements that initializer, condition and increment move out all land
      in front of the loop. */
  function LowerFor(st: Stmt, scopes: seq<Scope>, n: nat): LoweredStmt
    requires st.For? && Formed(st)
    decreases st, 1
  {
    var i := LowerStmt(st.init, scopes, n);
    var r := LowerExpr(st.cond, scopes, i.next);
    var g := LowerStmt(st.step, scopes, r.next);
    var x := LowerBlock(st.body, scopes, true, g.next);
    LoweredStmt(i.pre + (r.pre + g.pre), IFor(i.stmt, r.value, g.stmt, x.code), x.next)
  }

  function LowerBlock(body: seq<Stmt>, scopes: seq<Scope>, isLoopBody: bool, n: nat): LoweredBody
    requires FormedAll(body)
    decreases body, 1
  {
    LowerRest(body, scopes + [Scope([], isLoopBody)], n)
  }

  /** The remaining statements of the innermost open block, then its cleanup. */
  function LowerRest(body: seq<Stmt>, scopes: seq<Scope>, n: nat): LoweredBody
    requires scopes != [] && FormedAll(body)
    decreases body, 0
  {
    if body == [] then LoweredBody(ScopeCleanup(scopes[|scopes| - 1].calls), n)
    else if body[0].Unsafe? then
      assert Formed(body[0]);
      var x := LowerBlock(body[0].body, scopes, false, n);
      var y := LowerRest(body[1..], scopes, x.next);
      LoweredBody(x.code + y.code, y.next)
    else if body[0].Defer? then LowerRest(body[1..], Register(scopes, body[0].call), n)
    else
      var x := LowerStmt(body[0], scopes, n);
      var y := LowerRest(body[1..], scopes, x.next);
      LoweredBody(x.pre + ([x.stmt] + y.code), y.next)
  }

  function OuterCleanup(scopes: seq<Scope>): seq<IrStmt>
    requires scopes != []
  {
    if scopes[|scopes| - 1].isLoopBody then [] else LoopCleanup(scopes[..|scopes| - 1])
  }

  lemma LoopCleanupStep(scopes: seq<Scope>)
    ensures scopes == [] ==> LoopCleanup(scopes) == []
    ensures scopes != [] ==> LoopCleanup(scopes) == ScopeCleanup(scopes[|scopes| - 1].calls) + OuterCleanup(scopes)
  {
  }

  lemma FormedStep(body: seq<Stmt>)
    requires FormedAll(body) && body != []
    ensures Formed(body[0]) && FormedAll(body[1..])
  {
  }

  lemma LowerEnd(scopes: seq<Scope>, n: nat)
    requires scopes != []
    ensures LowerRest([], scopes, n) == LoweredBody(ScopeCleanup(scopes[|scopes| - 1].calls), n)
  {
  }

  /** The three kinds of statement in a block. */
  lemma LowerStep(body: seq<Stmt>, scopes: seq<Scope>, n: nat)
    requires scopes != [] && body != [] && FormedAll(body)
    ensures FormedAll(body[1..]) && Formed(body[0])
    ensures body[0].Unsafe? ==> FormedAll(body[0].body)
    ensures body[0].Unsafe? ==>
      (var x := LowerBlock(body[0].body, scopes, false, n);
       var y := LowerRest(body[1..], scopes, x.next);
       LowerRest(body, scopes, n) == LoweredBody(x.code + y.code, y.next))
    ensures body[0].Defer? ==> LowerRest(body, scopes, n) == LowerRest(body[1..], Register(scopes, body[0].call), n)
    ensures !IsItem(body[0]) ==>
      (var x := LowerStmt(body[0], scopes, n);
       var y := LowerRest(body[1..], scopes, x.next);
       LowerRest(body, scopes, n) == LoweredBody(x.pre + ([x.stmt] + y.code), y.next))
  {
    hide LowerStmt, LowerBlock, ScopeCleanup;
  }

  function LowerArms(arms: seq<Arm>, scopes: seq<Scope>, n: nat): LoweredArms
    requires FormedArms(arms)
    decreases arms, 0
  {
    if arms == [] then LoweredArms([], n) else
    var x := LowerBlock(arms[0].body, scopes, false, n);
    var y := LowerArms(arms[1..], scopes, x.next);
    LoweredArms([IrArm(arms[0].patterns, x.code)] + y.arms, y.next)
  }
}
