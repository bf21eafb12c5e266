/** Lowered code does what the source does. */
module DeferCorrect {
  import opened DeferSource
  import opened DeferIr
  import opened DeferLowering

  /** No `?` in the head of a loop, where it would be decided once, before the loop; and
      no `?` that would be decided before something in front of it in its expression. */
  predicate Orderly(st: Stmt)
    decreases st, 1
  {
    match st
    case Set(_, e) => Kept(e)
    case Expr(e) => Kept(e)
    case If(c, a, b) => Kept(c) && OrderlyAll(a) && OrderlyAll(b)
    case While(c, body) => NoTry(c) && OrderlyAll(body)
    case For(init, c, step, body) =>
      Orderly(init) && NoTry(c) && (Simple(step) ==> NoTry(step.value)) && OrderlyAll(body)
    case Match(e, arms) => Kept(e) && OrderlyArms(arms)
    case Return(e) => Kept(e)
    case Unsafe(body) => OrderlyAll(body)
    case _ => true
  }

  predicate OrderlyAll(body: seq<Stmt>)
    decreases body, 0
  {
    body == [] || (Orderly(body[0]) && OrderlyAll(body[1..]))
  }

  predicate OrderlyArms(arms: seq<Arm>)
    decreases arms, 0
  {
    arms == [] || (OrderlyAll(arms[0].body) && OrderlyArms(arms[1..]))
  }

  // ---- cleanup ----

  function RunCalls<S>(m: Meaning<S>, calls: seq<nat>, s: S): S {
    if calls == [] then s else RunCalls(m, calls[..|calls| - 1], m.read(calls[|calls| - 1], s).1)
  }

  function RunAll<S>(m: Meaning<S>, scopes: seq<Scope>, s: S): S {
    if scopes == [] then s
    else RunAll(m, scopes[..|scopes| - 1], RunCalls(m, scopes[|scopes| - 1].calls, s))
  }

  function RunToLoop<S>(m: Meaning<S>, scopes: seq<Scope>, s: S): S {
    if scopes == [] then s else
    var s1 := RunCalls(m, scopes[|scopes| - 1].calls, s);
    if scopes[|scopes| - 1].isLoopBody then s1 else RunToLoop(m, scopes[..|scopes| - 1], s1)
  }

  lemma {:induction false} ScopeCleanupRuns<S>(m: Meaning<S>, fuel: nat, calls: seq<nat>, s: S, t: Tmps)
    ensures IrExecAll(m, fuel, ScopeCleanup(calls), s, t) == INext(RunCalls(m, calls, s), t)
    decreases |calls|
  {
    if calls != [] {
      var call := IExpr(IRead(calls[|calls| - 1]));
      assert ScopeCleanup(calls)[1..] == ScopeCleanup(calls[..|calls| - 1]);
      assert IrExec(m, fuel, call, s, t) == INext(m.read(calls[|calls| - 1], s).1, t);
      ScopeCleanupRuns(m, fuel, calls[..|calls| - 1], m.read(calls[|calls| - 1], s).1, t);
    }
  }

  lemma {:induction false} ReturnCleanupRuns<S>(m: Meaning<S>, fuel: nat, scopes: seq<Scope>, s: S, t: Tmps)
    ensures IrExecAll(m, fuel, ReturnCleanup(scopes), s, t) == INext(RunAll(m, scopes, s), t)
    decreases |scopes|
  {
    if scopes != [] {
      var top := scopes[|scopes| - 1].calls;
      ScopeCleanupRuns(m, fuel, top, s, t);
      ReturnCleanupRuns(m, fuel, scopes[..|scopes| - 1], RunCalls(m, top, s), t);
      IrExecCat(m, fuel, ScopeCleanup(top), ReturnCleanup(scopes[..|scopes| - 1]), s, t);
    }
  }

  lemma {:induction false} LoopCleanupRuns<S>(m: Meaning<S>, fuel: nat, scopes: seq<Scope>, s: S, t: Tmps)
    ensures IrExecAll(m, fuel, LoopCleanup(scopes), s, t) == INext(RunToLoop(m, scopes, s), t)
    decreases |scopes|
  {
    if scopes != [] {
      var top := scopes[|scopes| - 1];
      var rest := if top.isLoopBody then [] else LoopCleanup(scopes[..|scopes| - 1]);
      ScopeCleanupRuns(m, fuel, top.calls, s, t);
      if !top.isLoopBody { LoopCleanupRuns(m, fuel, scopes[..|scopes| - 1], RunCalls(m, top.calls, s), t); }
      IrExecCat(m, fuel, ScopeCleanup(top.calls), rest, s, t);
    }
  }

  // ---- outcomes ----

  /** An outcome of lowered code without its temporaries. */
  datatype Final<S> = FNext(s: S) | FBroke(s: S) | FContinued(s: S) | FReturned(v: int, s: S) | FOutOfFuel

  function Erase<S>(o: IrOutcome<S>): Final<S> {
    match o
    case INext(s, _) => FNext(s)
    case IBroke(s, _) => FBroke(s)
    case IContinued(s, _) => FContinued(s)
    case IReturned(v, s) => FReturned(v, s)
    case IOutOfFuel => FOutOfFuel
  }

  /** What an outcome of a statement inside the open blocks `scopes` becomes when
      the blocks that it leaves have been cleaned up. */
  function After<S>(m: Meaning<S>, scopes: seq<Scope>, o: Outcome<S>): Final<S> {
    match o
    case Next(s) => FNext(s)
    case Broke(s) => FBroke(RunToLoop(m, scopes, s))
    case Continued(s) => FContinued(RunToLoop(m, scopes, s))
    case Leaving(rest, s) =>
      var r := Finish(m, rest, RunAll(m, scopes, s));
      FReturned(r.0, r.1)
    case OutOfFuel => FOutOfFuel
  }

  /** The same for the rest of the innermost block. */
  function AfterRest<S>(m: Meaning<S>, scopes: seq<Scope>, o: Outcome<S>): Final<S>
    requires scopes != []
  {
    if o.Next? then FNext(RunCalls(m, scopes[|scopes| - 1].calls, o.s)) else After(m, scopes, o)
  }

  /** Registering a call in the scope stack is guarding the rest of the block. */
  lemma RegisterIsFinally<S>(m: Meaning<S>, scopes: seq<Scope>, call: nat, o: Outcome<S>)
    requires scopes != []
    ensures AfterRest(m, Register(scopes, call), o) == AfterRest(m, scopes, Finally(m, call, o))
  {
    var more := Register(scopes, call);
    var top, top' := scopes[|scopes| - 1], more[|scopes| - 1];
    assert more[..|more| - 1] == scopes[..|scopes| - 1];
    assert top'.calls[..|top'.calls| - 1] == top.calls;
  }

  lemma NewScope<S>(m: Meaning<S>, scopes: seq<Scope>, isLoopBody: bool, o: Outcome<S>)
    ensures var f := AfterRest(m, scopes + [Scope([], isLoopBody)], o);
      if isLoopBody && o.Broke? then f == FBroke(o.s)
      else if isLoopBody && o.Continued? then f == FContinued(o.s)
      else f == After(m, scopes, o)
  {
    var more := scopes + [Scope([], isLoopBody)];
    assert more[..|more| - 1] == scopes;
  }

  // ---- expressions ----

  /** The value stands for the rest of a return expression, whatever the state. */
  predicate Denotes<S>(m: Meaning<S>, e: IrExpr, t: Tmps, rest: Rest) {
    match rest
    case Done(v) => e.ValueOr? && v == m.valueOr(TmpOf(t, e.k))
    case Start(op) => e == IRead(op)
    case Then(op, r) => e.IApply? && e.op == op && Denotes(m, e.arg, t, r)
    case Pair(op, rightFirst, a, b) =>
      e.IBoth? && e.op == op && e.rightFirst == rightFirst && Denotes(m, e.lhs, t, a) && Denotes(m, e.rhs, t, b)
    case Choice(op, isAnd, a, b) =>
      e.IShort? && e.op == op && e.isAnd == isAnd && Denotes(m, e.lhs, t, a) && Denotes(m, e.rhs, t, b)
  }

  lemma {:induction false} DenotesFinish<S>(m: Meaning<S>, e: IrExpr, t: Tmps, rest: Rest, s: S)
    requires Denotes(m, e, t, rest)
    ensures IrEval(m, e, s, t) == Finish(m, rest, s)
  {
    match rest
    case Done(_) =>
    case Start(_) =>
    case Then(_, r) => DenotesFinish(m, e.arg, t, r, s);
    case Pair(_, true, a, b) =>
      DenotesFinish(m, e.rhs, t, b, s);
      DenotesFinish(m, e.lhs, t, a, Finish(m, b, s).1);
    case Pair(_, false, a, b) =>
      DenotesFinish(m, e.lhs, t, a, s);
      DenotesFinish(m, e.rhs, t, b, Finish(m, a, s).1);
    case Choice(_, _, a, b) =>
      DenotesFinish(m, e.lhs, t, a, s);
      DenotesFinish(m, e.rhs, t, b, Finish(m, a, s).1);
  }

  /** The temporaries in it are numbered below `n`. */
  predicate TmpsBelow(e: IrExpr, n: nat) {
    match e
    case IRead(_) => true
    case IApply(_, a) => TmpsBelow(a, n)
    case IBoth(_, _, a, b) => TmpsBelow(a, n) && TmpsBelow(b, n)
    case IShort(_, _, a, b) => TmpsBelow(a, n) && TmpsBelow(b, n)
    case _ => e.k < n
  }

  predicate SameBelow(t: Tmps, t': Tmps, n: nat) {
    forall k: nat :: k < n ==> TmpOf(t, k) == TmpOf(t', k)
  }

  lemma {:induction false} DenotesStill<S>(m: Meaning<S>, e: IrExpr, t: Tmps, t': Tmps, n: nat, rest: Rest)
    requires Denotes(m, e, t, rest) && TmpsBelow(e, n) && SameBelow(t, t', n)
    ensures Denotes(m, e, t', rest)
  {
    match rest
    case Done(_) =>
    case Start(_) =>
    case Then(_, r) => DenotesStill(m, e.arg, t, t', n, r);
    case Pair(_, _, a, b) =>
      DenotesStill(m, e.lhs, t, t', n, a);
      DenotesStill(m, e.rhs, t, t', n, b);
    case Choice(_, _, a, b) =>
      DenotesStill(m, e.lhs, t, t', n, a);
      DenotesStill(m, e.rhs, t, t', n, b);
  }

  lemma {:induction false} MoreTmps(e: IrExpr, n: nat, n': nat)
    requires TmpsBelow(e, n) && n <= n'
    ensures TmpsBelow(e, n')
  {
    match e
    case IApply(_, a) => MoreTmps(a, n, n');
    case IBoth(_, _, a, b) =>
      MoreTmps(a, n, n');
      MoreTmps(b, n, n');
    case IShort(_, _, a, b) =>
      MoreTmps(a, n, n');
      MoreTmps(b, n, n');
    case _ =>
  }

  /** Temporaries are numbered from `n` on, and used only behind their definition. */
  lemma {:induction false} LowerBounds(e: Expr, scopes: seq<Scope>, n: nat)
    ensures var r := LowerExpr(e, scopes, n); n <= r.next && TmpsBelow(r.value, r.next)
    decreases e, 1
  {
    match e
    case Read(_) =>
    case Apply(_, a) => LowerBounds(a, scopes, n);
    case Both(_, _, _, _) => OperandBounds(e, scopes, n);
    case Short(_, _, _, _) => OperandBounds(e, scopes, n);
    case Try(a) => LowerBounds(a, scopes, n);
  }

  lemma OperandBounds(e: Expr, scopes: seq<Scope>, n: nat)
    requires e.Both? || e.Short?
    ensures var r := LowerExpr(e.lhs, scopes, n);
      var q := LowerExpr(e.rhs, scopes, r.next);
      n <= r.next <= q.next && TmpsBelow(r.value, r.next) && TmpsBelow(r.value, q.next) && TmpsBelow(q.value, q.next)
    decreases e, 0
  {
    LowerBounds(e.lhs, scopes, n);
    var r := LowerExpr(e.lhs, scopes, n);
    LowerBounds(e.rhs, scopes, r.next);
    MoreTmps(r.value, r.next, LowerExpr(e.rhs, scopes, r.next).next);
  }

  /** What the statements that were moved out achieve; older temporaries stay. */
  ghost predicate HoistDone<S>(m: Meaning<S>, scopes: seq<Scope>, value: IrExpr, r: Suspended<S>, o: IrOutcome<S>,
                               t: Tmps, n: nat) {
    match r
    case Failed(v, s) => o == IReturned(v, RunAll(m, scopes, s))
    case Pending(rest, s) => o.INext? && o.s == s && Denotes(m, value, o.t, rest) && SameBelow(t, o.t, n)
  }

  lemma {:induction false} HoistExpr<S>(m: Meaning<S>, fuel: nat, e: Expr, scopes: seq<Scope>, n: nat, s: S, t: Tmps)
    ensures var r := LowerExpr(e, scopes, n);
      HoistDone(m, scopes, r.value, Suspend(m, e, s), IrExecAll(m, fuel, r.pre, s, t), t, n)
    decreases e, 1
  {
    hide IrExecAll, SameBelow;
    match e
    case Read(_) => HoistNothing(m, fuel, s, t, n);
    case Apply(_, a) => HoistExpr(m, fuel, a, scopes, n, s, t);
    case Both(_, _, _, _) => HoistOperands(m, fuel, e, scopes, n, s, t);
    case Short(_, _, _, _) => HoistOperands(m, fuel, e, scopes, n, s, t);
    case Try(a) =>
      HoistExpr(m, fuel, a, scopes, n, s, t);
      LowerBounds(a, scopes, n);
      var r := LowerExpr(a, scopes, n);
      var o := IrExecAll(m, fuel, r.pre, s, t);
      IrExecCat(m, fuel, r.pre, TryPre(r.next, r.value, scopes), s, t);
      if o.INext? {
        DenotesFinish(m, r.value, o.t, Suspend(m, a, s).rest, o.s);
        TryTest(m, fuel, r.next, r.value, scopes, o.s, o.t);
        NewTmp(t, o.t, n, r.next, IrEval(m, r.value, o.s, o.t).0);
      }
  }

  lemma HoistNothing<S>(m: Meaning<S>, fuel: nat, s: S, t: Tmps, n: nat)
    ensures IrExecAll(m, fuel, [], s, t) == INext(s, t) && SameBelow(t, t, n)
  {
  }

  lemma NewTmp(t: Tmps, t': Tmps, n: nat, k: nat, v: int)
    requires SameBelow(t, t', n) && n <= k
    ensures SameBelow(t, t'[k := v], n) && TmpOf(t'[k := v], k) == v
  {
  }

  /** The statements of both operands, the left one's first. */
  lemma HoistOperands<S>(m: Meaning<S>, fuel: nat, e: Expr, scopes: seq<Scope>, n: nat, s: S, t: Tmps)
    requires e.Both? || e.Short?
    ensures var r := LowerExpr(e.lhs, scopes, n);
      var q := LowerExpr(e.rhs, scopes, r.next);
      BothDone(m, scopes, r.value, q.value, e, s, IrExecAll(m, fuel, r.pre + q.pre, s, t), t, n)
    decreases e, 0
  {
    hide IrExecAll, SameBelow, Denotes;
    HoistExpr(m, fuel, e.lhs, scopes, n, s, t);
    LowerBounds(e.lhs, scopes, n);
    var r, x := LowerExpr(e.lhs, scopes, n), Suspend(m, e.lhs, s);
    var q := LowerExpr(e.rhs, scopes, r.next);
    IrExecCat(m, fuel, r.pre, q.pre, s, t);
    if x.Pending? {
      var o := IrExecAll(m, fuel, r.pre, s, t);
      HoistExpr(m, fuel, e.rhs, scopes, r.next, o.s, o.t);
      var p := IrExecAll(m, fuel, q.pre, o.s, o.t);
      if Suspend(m, e.rhs, x.s).Pending? {
        DenotesStill(m, r.value, o.t, p.t, r.next, x.rest);
        SameBelowTrans(t, o.t, p.t, n, r.next);
      }
    }
  }

  ghost predicate BothDone<S>(m: Meaning<S>, scopes: seq<Scope>, lhs: IrExpr, rhs: IrExpr, e: Expr, s: S,
                              o: IrOutcome<S>, t: Tmps, n: nat)
    requires e.Both? || e.Short?
  {
    var x := Suspend(m, e.lhs, s);
    if x.Failed? then o == IReturned(x.v, RunAll(m, scopes, x.s)) else
    var y := Suspend(m, e.rhs, x.s);
    HoistDone(m, scopes, rhs, y, o, t, n) && (y.Pending? ==> Denotes(m, lhs, o.t, x.rest))
  }

  lemma SameBelowTrans(t: Tmps, t': Tmps, t'': Tmps, n: nat, n': nat)
    requires SameBelow(t, t', n) && SameBelow(t', t'', n') && n <= n'
    ensures SameBelow(t, t'', n)
  {
  }

  lemma TryTest<S>(m: Meaning<S>, fuel: nat, k: nat, value: IrExpr, scopes: seq<Scope>, s: S, t: Tmps)
    ensures var r := IrEval(m, value, s, t);
      IrExecAll(m, fuel, TryPre(k, value, scopes), s, t) ==
        if m.isErr(r.0) then IReturned(r.0, RunAll(m, scopes, r.1)) else INext(r.1, t[k := r.0])
  {
    var r := IrEval(m, value, s, t);
    var pre := TryPre(k, value, scopes);
    var t1 := t[k := r.0];
    var leave := ReturnCleanup(scopes) + [IReturn(Tmp(k))];
    assert IrExec(m, fuel, pre[0], s, t) == INext(r.1, t1);
    ReturnCleanupRuns(m, fuel, scopes, r.1, t1);
    IrExecCat(m, fuel, ReturnCleanup(scopes), [IReturn(Tmp(k))], r.1, t1);
    IrExecOne(m, fuel, IReturn(Tmp(k)), RunAll(m, scopes, r.1), t1);
    IrExecOne(m, fuel, IIf(IsErr(k), leave, []), r.1, t1);
    assert pre[1..] == [IIf(IsErr(k), leave, [])];
  }

  lemma IrExecOne<S>(m: Meaning<S>, fuel: nat, st: IrStmt, s: S, t: Tmps)
    ensures IrExecAll(m, fuel, [st], s, t) == IrExec(m, fuel, st, s, t)
  {
    var o := IrExec(m, fuel, st, s, t);
    if o.INext? { assert IrExecAll(m, fuel, [], o.s, o.t) == o; }
  }

  /** Evaluating with everything moved out in front. */
  lemma HoistAndEval<S>(m: Meaning<S>, fuel: nat, e: Expr, scopes: seq<Scope>, n: nat, s: S, t: Tmps)
    requires Kept(e)
    ensures var r := LowerExpr(e, scopes, n);
      var o := IrExecAll(m, fuel, r.pre, s, t);
      var q := Eval(m, e, s);
      if q.Propagated? then o == IReturned(q.v, RunAll(m, scopes, q.s))
      else o.INext? && IrEval(m, r.value, o.s, o.t) == (q.v, q.s)
  {
    HoistExpr(m, fuel, e, scopes, n, s, t);
    SuspendFinish(m, e, s);
    var r := LowerExpr(e, scopes, n);
    var o := IrExecAll(m, fuel, r.pre, s, t);
    if o.INext? { DenotesFinish(m, r.value, o.t, Suspend(m, e, s).rest, o.s); }
  }

  /** Without `?` nothing is moved out. */
  lemma {:induction false} PureExpr<S>(m: Meaning<S>, e: Expr, scopes: seq<Scope>, n: nat, s: S, t: Tmps)
    requires NoTry(e)
    ensures var r := LowerExpr(e, scopes, n);
      r.pre == [] && r.next == n && Eval(m, e, s).Got? && IrEval(m, r.value, s, t) == (Eval(m, e, s).v, Eval(m, e, s).s)
    decreases e, 1
  {
    match e
    case Read(_) =>
    case Apply(_, a) => PureExpr(m, a, scopes, n, s, t);
    case Both(_, _, _, _) => PureOperands(m, e, scopes, n, s, t);
    case Short(_, _, _, _) => PureOperands(m, e, scopes, n, s, t);
  }

  lemma PureOperands<S>(m: Meaning<S>, e: Expr, scopes: seq<Scope>, n: nat, s: S, t: Tmps)
    requires (e.Both? || e.Short?) && NoTry(e)
    ensures var rightFirst := e.Both? && e.rightFirst;
      var a, b := if rightFirst then e.rhs else e.lhs, if rightFirst then e.lhs else e.rhs;
      var r, x := LowerExpr(a, scopes, n), Eval(m, a, s);
      && r.pre == [] && r.next == n && x.Got? && IrEval(m, r.value, s, t) == (x.v, x.s)
      && var q, y := LowerExpr(b, scopes, n), Eval(m, b, x.s);
         q.pre == [] && q.next == n && y.Got? && IrEval(m, q.value, x.s, t) == (y.v, y.s)
    decreases e, 0
  {
    if e.Both? && e.rightFirst {
      PureExpr(m, e.rhs, scopes, n, s, t);
      PureExpr(m, e.lhs, scopes, n, Eval(m, e.rhs, s).s, t);
    } else {
      PureExpr(m, e.lhs, scopes, n, s, t);
      PureExpr(m, e.rhs, scopes, n, Eval(m, e.lhs, s).s, t);
    }
  }

  // ---- statements ----

  ghost predicate Agree<S>(m: Meaning<S>, scopes: seq<Scope>, o: IrOutcome<S>, q: Outcome<S>) {
    Erase(o) == After(m, scopes, q)
  }

  /** The moved statements, then the statement itself. */
  lemma PreThen<S>(m: Meaning<S>, fuel: nat, pre: seq<IrStmt>, st: IrStmt, s: S, t: Tmps)
    ensures var o := IrExecAll(m, fuel, pre, s, t);
      IrExecAll(m, fuel, pre + [st], s, t) == if o.INext? then IrExec(m, fuel, st, o.s, o.t) else o
  {
    IrExecCat(m, fuel, pre, [st], s, t);
    var o := IrExecAll(m, fuel, pre, s, t);
    if o.INext? { IrExecOne(m, fuel, st, o.s, o.t); }
  }

  lemma SimStmt<S>(m: Meaning<S>, fuel: nat, st: Stmt, scopes: seq<Scope>, n: nat, s: S, t: Tmps)
    requires !IsItem(st) && Formed(st) && Orderly(st)
    ensures var r := LowerStmt(st, scopes, n);
      Agree(m, scopes, IrExecAll(m, fuel, r.pre + [r.stmt], s, t), Exec(m, fuel, st, s))
    decreases fuel, st, 3
  {
    hide LowerExpr, LowerBlock, LowerArms, LowerFor, IrExecAll, IrLoop, IrArms, ExecBlock, ExecLoop, ExecArms, Eval;
    hide IrEval;
    hide ReturnCleanup, LoopCleanup, Finish, Suspend, After, Agree, FormedAll, FormedArms, OrderlyAll, OrderlyArms;
    match st
    case Set(_, _) => SimSimple(m, fuel, st, scopes, n, s, t);
    case Expr(_) => SimSimple(m, fuel, st, scopes, n, s, t);
    case If(_, _, _) => SimIf(m, fuel, st, scopes, n, s, t);
    case While(_, _) => SimWhile(m, fuel, st, scopes, n, s, t);
    case For(_, _, _, _) => SimFor(m, fuel, st, scopes, n, s, t);
    case Match(_, _) => SimMatch(m, fuel, st, scopes, n, s, t);
    case Break => SimExit(m, fuel, st, scopes, n, s, t);
    case Continue => SimExit(m, fuel, st, scopes, n, s, t);
    case Return(e) => SimReturn(m, fuel, e, scopes, n, s, t);
  }

  lemma SimSimple<S>(m: Meaning<S>, fuel: nat, st: Stmt, scopes: seq<Scope>, n: nat, s: S, t: Tmps)
    requires Simple(st) && Orderly(st)
    ensures var r := LowerStmt(st, scopes, n);
      Agree(m, scopes, IrExecAll(m, fuel, r.pre + [r.stmt], s, t), Exec(m, fuel, st, s))
  {
    var r := LowerStmt(st, scopes, n);
    PreThen(m, fuel, r.pre, r.stmt, s, t);
    HoistAndEval(m, fuel, st.value, scopes, n, s, t);
  }

  lemma SimExit<S>(m: Meaning<S>, fuel: nat, st: Stmt, scopes: seq<Scope>, n: nat, s: S, t: Tmps)
    requires st.Break? || st.Continue?
    ensures var r := LowerStmt(st, scopes, n);
      Agree(m, scopes, IrExecAll(m, fuel, r.pre + [r.stmt], s, t), Exec(m, fuel, st, s))
  {
    var r := LowerStmt(st, scopes, n);
    PreThen(m, fuel, r.pre, r.stmt, s, t);
    LoopCleanupRuns(m, fuel, scopes, s, t);
  }

  lemma SimIf<S>(m: Meaning<S>, fuel: nat, st: Stmt, scopes: seq<Scope>, n: nat, s: S, t: Tmps)
    requires st.If? && Formed(st) && Orderly(st)
    ensures var r := LowerStmt(st, scopes, n);
      Agree(m, scopes, IrExecAll(m, fuel, r.pre + [r.stmt], s, t), Exec(m, fuel, st, s))
    decreases fuel, st, 2
  {
    hide LowerExpr, LowerBlock, IrExecAll, ExecBlock, Eval, IrEval, RunAll;
    var r := LowerStmt(st, scopes, n);
    PreThen(m, fuel, r.pre, r.stmt, s, t);
    HoistAndEval(m, fuel, st.cond, scopes, n, s, t);
    var o := IrExecAll(m, fuel, r.pre, s, t);
    var q := Eval(m, st.cond, s);
    if q.Got? {
      var x := LowerExpr(st.cond, scopes, n);
      if q.v != 0 { SimBlock(m, fuel, st.thenBody, scopes, x.next, q.s, o.t); }
      else { SimBlock(m, fuel, st.elseBody, scopes, LowerBlock(st.thenBody, scopes, false, x.next).next, q.s, o.t); }
    }
  }

  lemma SimWhile<S>(m: Meaning<S>, fuel: nat, st: Stmt, scopes: seq<Scope>, n: nat, s: S, t: Tmps)
    requires st.While? && Formed(st) && Orderly(st)
    ensures var r := LowerStmt(st, scopes, n);
      Agree(m, scopes, IrExecAll(m, fuel, r.pre + [r.stmt], s, t), Exec(m, fuel, st, s))
    decreases fuel, st, 2
  {
    hide LowerExpr, LowerBlock, IrLoop, ExecLoop, Eval, IrEval;
    var r := LowerStmt(st, scopes, n);
    PreThen(m, fuel, r.pre, r.stmt, s, t);
    PureExpr(m, st.cond, scopes, n, s, t);
    SimLoop(m, fuel, st, r.stmt, scopes, n, s, t);
  }

  lemma SimMatch<S>(m: Meaning<S>, fuel: nat, st: Stmt, scopes: seq<Scope>, n: nat, s: S, t: Tmps)
    requires st.Match? && Formed(st) && Orderly(st)
    ensures var r := LowerStmt(st, scopes, n);
      Agree(m, scopes, IrExecAll(m, fuel, r.pre + [r.stmt], s, t), Exec(m, fuel, st, s))
    decreases fuel, st, 2
  {
    hide LowerExpr, LowerArms, IrExecAll, ExecArms, IrArms, Eval, IrEval, RunAll;
    var r := LowerStmt(st, scopes, n);
    PreThen(m, fuel, r.pre, r.stmt, s, t);
    HoistAndEval(m, fuel, st.value, scopes, n, s, t);
    var o := IrExecAll(m, fuel, r.pre, s, t);
    var q := Eval(m, st.value, s);
    if q.Got? { SimArms(m, fuel, st.arms, scopes, LowerExpr(st.value, scopes, n).next, q.v, q.s, o.t); }
  }

  /** The expression is finished behind the cleanup. */
  lemma SimReturn<S>(m: Meaning<S>, fuel: nat, e: Expr, scopes: seq<Scope>, n: nat, s: S, t: Tmps)
    ensures var r := LowerStmt(Return(e), scopes, n);
      Agree(m, scopes, IrExecAll(m, fuel, r.pre + [r.stmt], s, t), Exec(m, fuel, Return(e), s))
  {
    hide LowerExpr, IrExecAll, ReturnCleanup, RunAll, IrEval, Suspend;
    var r := LowerExpr(e, scopes, n);
    var x := LowerStmt(Return(e), scopes, n);
    HoistExpr(m, fuel, e, scopes, n, s, t);
    var o := IrExecAll(m, fuel, r.pre, s, t);
    PreThen(m, fuel, x.pre, x.stmt, s, t);
    IrExecCat(m, fuel, r.pre, ReturnCleanup(scopes), s, t);
    if o.INext? {
      ReturnCleanupRuns(m, fuel, scopes, o.s, o.t);
      DenotesFinish(m, r.value, o.t, Suspend(m, e, s).rest, RunAll(m, scopes, o.s));
    }
  }

  lemma SimFor<S>(m: Meaning<S>, fuel: nat, st: Stmt, scopes: seq<Scope>, n: nat, s: S, t: Tmps)
    requires st.For? && Formed(st) && Orderly(st)
    ensures var r := LowerStmt(st, scopes, n);
      Agree(m, scopes, IrExecAll(m, fuel, r.pre + [r.stmt], s, t), Exec(m, fuel, st, s))
    decreases fuel, st, 2
  {
    hide IrExecAll, IrLoop, ExecLoop, Eval, IrEval, LowerExpr, LowerBlock;
    var i := LowerStmt(st.init, scopes, n);
    var r := ForShape(st, scopes, n, s, t, m);
    PreThen(m, fuel, i.pre, r, s, t);
    PreThen(m, fuel, i.pre, i.stmt, s, t);
    SimStmt(m, fuel, st.init, scopes, n, s, t);
    var o := IrExecAll(m, fuel, i.pre, s, t);
    if o.INext? && IrExec(m, fuel, i.stmt, o.s, o.t).INext? {
      var q := IrExec(m, fuel, i.stmt, o.s, o.t);
      SimLoop(m, fuel, st, r, scopes, i.next, q.s, q.t);
    }
  }

  /** Only the initializer moves statements in front of a loop with a pure head. */
  lemma ForShape<S>(st: Stmt, scopes: seq<Scope>, n: nat, s: S, t: Tmps, m: Meaning<S>) returns (r: IrStmt)
    requires st.For? && Formed(st) && Orderly(st)
    ensures var i := LowerStmt(st.init, scopes, n);
      && LowerStmt(st, scopes, n).pre == i.pre && LowerStmt(st, scopes, n).stmt == r
      && r.IFor? && r.init == i.stmt && LoopCode(st, r, scopes, i.next)
  {
    hide LowerExpr, LowerBlock, Eval, IrEval;
    var x := LowerFor(st, scopes, n);
    assert LowerStmt(st, scopes, n) == x;
    var i := LowerStmt(st.init, scopes, n);
    PureExpr(m, st.cond, scopes, i.next, s, t);
    PureExpr(m, st.step.value, scopes, i.next, s, t);
    assert LowerStmt(st.step, scopes, i.next).pre == [];
    assert x.pre == i.pre + ([] + []) == i.pre;
    r := x.stmt;
  }

  /** `x` is the lowered loop, numbered from `n` at its condition. */
  predicate LoopCode(st: Stmt, x: IrStmt, scopes: seq<Scope>, n: nat)
    requires (st.While? || st.For?) && Formed(st)
  {
    && (if st.While? then x.IWhile? else x.IFor? && x.step == LowerStmt(st.step, scopes, n).stmt)
    && x.cond == LowerExpr(st.cond, scopes, n).value
    && x.body == LowerBlock(st.body, scopes, true, n).code
  }

  lemma SimLoop<S>(m: Meaning<S>, fuel: nat, st: Stmt, x: IrStmt, scopes: seq<Scope>, n: nat, s: S, t: Tmps)
    requires (st.While? || st.For?) && Formed(st) && Orderly(st) && LoopCode(st, x, scopes, n)
    ensures Agree(m, scopes, IrLoop(m, fuel, x, s, t), ExecLoop(m, fuel, st, s))
    decreases fuel, st, 1
  {
    hide LowerExpr, LowerBlock, IrExecAll, ExecBlock, Eval, IrEval, Finish, RunAll, RunToLoop, OrderlyAll;
    hide FormedAll, Exec, IrExec, LowerStmt;
    if fuel == 0 { return; }
    PureExpr(m, st.cond, scopes, n, s, t);
    var r := Eval(m, st.cond, s);
    if r.v == 0 { return; }
    SimBody(m, fuel - 1, st.body, scopes, n, r.s, t);
    var o := ExecBlock(m, fuel - 1, st.body, r.s);
    var p := IrExecAll(m, fuel - 1, x.body, r.s, t);
    if o.Next? || o.Continued? {
      if st.While? {
        SimLoop(m, fuel - 1, st, x, scopes, n, o.s, p.t);
      } else {
        StepRuns(m, fuel - 1, st.step, scopes, n, o.s, p.t);
        var q := IrExec(m, fuel - 1, x.step, o.s, p.t);
        SimLoop(m, fuel - 1, st, x, scopes, n, q.s, q.t);
      }
    }
  }

  /** The increment of a loop with a pure head. */
  lemma StepRuns<S>(m: Meaning<S>, fuel: nat, st: Stmt, scopes: seq<Scope>, n: nat, s: S, t: Tmps)
    requires Simple(st) && NoTry(st.value)
    ensures var o := Exec(m, fuel, st, s);
      var p := IrExec(m, fuel, LowerStmt(st, scopes, n).stmt, s, t);
      o.Next? && p.INext? && p.s == o.s
  {
    PureExpr(m, st.value, scopes, n, s, t);
  }

  /** A loop body contains its own exits. */
  lemma SimBody<S>(m: Meaning<S>, fuel: nat, body: seq<Stmt>, scopes: seq<Scope>, n: nat, s: S, t: Tmps)
    requires FormedAll(body) && OrderlyAll(body)
    ensures var f := Erase(IrExecAll(m, fuel, LowerBlock(body, scopes, true, n).code, s, t));
      var o := ExecBlock(m, fuel, body, s);
      if o.Broke? then f == FBroke(o.s) else if o.Continued? then f == FContinued(o.s) else f == After(m, scopes, o)
    decreases fuel, body, 2
  {
    SimRest(m, fuel, body, scopes + [Scope([], true)], n, s, t);
    NewScope(m, scopes, true, ExecBlock(m, fuel, body, s));
  }

  lemma SimBlock<S>(m: Meaning<S>, fuel: nat, body: seq<Stmt>, scopes: seq<Scope>, n: nat, s: S, t: Tmps)
    requires FormedAll(body) && OrderlyAll(body)
    ensures var code := LowerBlock(body, scopes, false, n).code;
      Agree(m, scopes, IrExecAll(m, fuel, code, s, t), ExecBlock(m, fuel, body, s))
    decreases fuel, body, 2
  {
    SimRest(m, fuel, body, scopes + [Scope([], false)], n, s, t);
    NewScope(m, scopes, false, ExecBlock(m, fuel, body, s));
  }

  lemma SimRest<S>(m: Meaning<S>, fuel: nat, body: seq<Stmt>, scopes: seq<Scope>, n: nat, s: S, t: Tmps)
    requires scopes != [] && FormedAll(body) && OrderlyAll(body)
    ensures Erase(IrExecAll(m, fuel, LowerRest(body, scopes, n).code, s, t))
      == AfterRest(m, scopes, ExecBlock(m, fuel, body, s))
    decreases fuel, body, 1
  {
    hide LowerStmt, LowerBlock, ScopeCleanup, IrExecAll, Exec, RunAll, RunToLoop, RunCalls, Finish, Orderly, Formed;
    if body == [] {
      ScopeCleanupRuns(m, fuel, scopes[|scopes| - 1].calls, s, t);
    } else if body[0].Defer? {
      SimRest(m, fuel, body[1..], Register(scopes, body[0].call), n, s, t);
      RegisterIsFinally(m, scopes, body[0].call, ExecBlock(m, fuel, body[1..], s));
    } else {
      var first, next;
      if body[0].Unsafe? {
        UnsafeParts(m, fuel, body[0], s);
        var x := LowerBlock(body[0].body, scopes, false, n);
        first, next := x.code, x.next;
        SimBlock(m, fuel, body[0].body, scopes, n, s, t);
      } else {
        var x := LowerStmt(body[0], scopes, n);
        first, next := x.pre + [x.stmt], x.next;
        SimStmt(m, fuel, body[0], scopes, n, s, t);
      }
      var rest := LowerRest(body[1..], scopes, next).code;
      assert LowerRest(body, scopes, n).code == first + rest;
      IrExecCat(m, fuel, first, rest, s, t);
      var o := IrExecAll(m, fuel, first, s, t);
      if o.INext? { SimRest(m, fuel, body[1..], scopes, next, o.s, o.t); }
    }
  }

  lemma UnsafeParts<S>(m: Meaning<S>, fuel: nat, st: Stmt, s: S)
    requires st.Unsafe? && Formed(st) && Orderly(st)
    ensures FormedAll(st.body) && OrderlyAll(st.body) && Exec(m, fuel, st, s) == ExecBlock(m, fuel, st.body, s)
  {
  }

  lemma SimArms<S>(m: Meaning<S>, fuel: nat, arms: seq<Arm>, scopes: seq<Scope>, n: nat, v: int, s: S, t: Tmps)
    requires FormedArms(arms) && OrderlyArms(arms)
    ensures Agree(m, scopes, IrArms(m, fuel, LowerArms(arms, scopes, n).arms, v, s, t), ExecArms(m, fuel, arms, v, s))
    decreases fuel, arms, 1
  {
    if arms != [] {
      var x := LowerBlock(arms[0].body, scopes, false, n);
      assert LowerArms(arms, scopes, n).arms[1..] == LowerArms(arms[1..], scopes, x.next).arms;
      SimBlock(m, fuel, arms[0].body, scopes, n, s, t);
      SimArms(m, fuel, arms[1..], scopes, x.next, v, s, t);
    }
  }

  /** The lowered body of a function runs exactly like its source, for every
      meaning of the operations, from every state and for every bound on the
      number of iterations. */
  lemma LoweringPreservesMeaning<S>(m: Meaning<S>, fuel: nat, body: seq<Stmt>, n: nat, s: S)
    requires FormedAll(body) && OrderlyAll(body)
    ensures IrRun(m, fuel, LowerBlock(body, [], false, n).code, s) == Run(m, fuel, body, s)
  {
    SimBlock(m, fuel, body, [], n, s, map[]);
    var o := ExecBlock(m, fuel, body, s);
    if o.Leaving? { assert RunAll(m, [], o.s) == o.s; }
  }
}
