/** The source language around `defer` and `?`, with the meaning a programmer
    expects: leaving a block, in whatever way, runs what the block registered.

    Expressions without `?`, assignments and deferred calls are uninterpreted
    operations on an arbitrary state, so whatever is proved holds for every
    meaning that they may have, call traces included. */
module DeferSource {
  /** `Read` is any expression without `?`, `Apply` an operation on one operand, `Both`
      one on two, and `Short` a logical operator. Operators evaluate the left operand
      first. The arguments of a call are evaluated from the last to the first, or those
      on the stack before those in registers: a call of several is `Both` in which the
      right one may come first, of pairs that are `Both` in turn. */
  datatype Expr =
    | Read(op: nat)
    | Apply(op: nat, arg: Expr)
    | Both(op: nat, rightFirst: bool, lhs: Expr, rhs: Expr)
    | Short(op: nat, isAnd: bool, lhs: Expr, rhs: Expr)
    | Try(arg: Expr)

  datatype Pattern = Default | Is(tag: int)

  datatype Arm = Arm(patterns: seq<Pattern>, body: seq<Stmt>)

  datatype Stmt =
    | Set(name: string, value: Expr)  // `let` and assignment
    | Expr(value: Expr)
    | If(cond: Expr, thenBody: seq<Stmt>, elseBody: seq<Stmt>)
    | While(cond: Expr, body: seq<Stmt>)
    | For(init: Stmt, cond: Expr, step: Stmt, body: seq<Stmt>)
    | Match(value: Expr, arms: seq<Arm>)
    | Break
    | Continue
    | Return(value: Expr)
    | Unsafe(body: seq<Stmt>)
    | Defer(call: nat)

  datatype Meaning<!S> = Meaning(
    read: (nat, S) -> (int, S),
    apply: (nat, int, S) -> (int, S),
    both: (nat, int, int, S) -> (int, S),
    store: (string, int, S) -> S,
    isErr: int -> bool,
    valueOr: int -> int)

  predicate Hits(arm: Arm, v: int) {
    exists p :: p in arm.patterns && (p.Default? || p.tag == v)
  }

  predicate NoTry(e: Expr) {
    match e
    case Read(_) => true
    case Apply(_, a) => NoTry(a)
    case Both(_, _, a, b) => NoTry(a) && NoTry(b)
    case Short(_, _, a, b) => NoTry(a) && NoTry(b)
    case Try(_) => false
  }

  /** Every `?` stands where it can be decided before the whole expression: nothing that
      comes before it is left to be computed, and no operator may skip it. */
  predicate Kept(e: Expr) {
    match e
    case Read(_) => true
    case Apply(_, a) => Kept(a)
    case Both(_, rightFirst, a, b) =>
      Kept(a) && Kept(b) && if rightFirst then NoTry(a) else NoTry(b) || a.Try?
    case Short(_, _, a, b) => Kept(a) && NoTry(b)
    case Try(a) => Kept(a)
  }

  lemma {:induction false} PureIsKept(e: Expr)
    requires NoTry(e)
    ensures Kept(e)
  {
    match e
    case Read(_) =>
    case Apply(_, a) => PureIsKept(a);
    case Both(_, _, a, b) =>
      PureIsKept(a);
      PureIsKept(b);
    case Short(_, _, a, b) => PureIsKept(a);
  }

  /** The left operand of `&&` or `||` decides. */
  predicate Skips(isAnd: bool, v: int) {
    isAnd == (v == 0)
  }

  /** What an expression comes to: a value, or an error that `?` passes on. */
  datatype Evaluated<S> = Got(v: int, s: S) | Propagated(v: int, s: S)

  function Eval<S>(m: Meaning<S>, e: Expr, s: S): Evaluated<S> {
    match e
    case Read(op) =>
      var r := m.read(op, s);
      Got(r.0, r.1)
    case Apply(op, a) =>
      var r := Eval(m, a, s);
      if r.Propagated? then r else
      var q := m.apply(op, r.v, r.s);
      Got(q.0, q.1)
    case Both(op, rightFirst, a, b) =>
      var r := Eval(m, if rightFirst then b else a, s);
      if r.Propagated? then r else
      var q := Eval(m, if rightFirst then a else b, r.s);
      if q.Propagated? then q else
      var x := if rightFirst then m.both(op, q.v, r.v, q.s) else m.both(op, r.v, q.v, q.s);
      Got(x.0, x.1)
    case Short(op, isAnd, a, b) =>
      var r := Eval(m, a, s);
      if r.Propagated? then r else
      var q := if Skips(isAnd, r.v) then r else Eval(m, b, r.s);
      if q.Propagated? then q else
      var x := m.apply(op, q.v, q.s);
      Got(x.0, x.1)
    case Try(a) =>
      var r := Eval(m, a, s);
      if r.Propagated? then r
      else if m.isErr(r.v) then Propagated(r.v, r.s)
      else Got(m.valueOr(r.v), r.s)
  }

  /** The rest of a return expression. A `?` in it is decided at once; what is left
      then is computed when all cleanup has run. */
  datatype Rest =
    | Done(v: int)
    | Start(op: nat)
    | Then(op: nat, rest: Rest)
    | Pair(op: nat, rightFirst: bool, lhs: Rest, rhs: Rest)
    | Choice(op: nat, isAnd: bool, lhs: Rest, rhs: Rest)

  function Finish<S>(m: Meaning<S>, rest: Rest, s: S): (int, S) {
    match rest
    case Done(v) => (v, s)
    case Start(op) => m.read(op, s)
    case Then(op, r) =>
      var q := Finish(m, r, s);
      m.apply(op, q.0, q.1)
    case Pair(op, rightFirst, a, b) =>
      var r := Finish(m, if rightFirst then b else a, s);
      var q := Finish(m, if rightFirst then a else b, r.1);
      if rightFirst then m.both(op, q.0, r.0, q.1) else m.both(op, r.0, q.0, q.1)
    case Choice(op, isAnd, a, b) =>
      var r := Finish(m, a, s);
      var q := if Skips(isAnd, r.0) then r else Finish(m, b, r.1);
      m.apply(op, q.0, q.1)
  }

  datatype Suspended<S> = Pending(rest: Rest, s: S) | Failed(v: int, s: S)

  function Suspend<S>(m: Meaning<S>, e: Expr, s: S): Suspended<S> {
    match e
    case Read(op) => Pending(Start(op), s)
    case Apply(op, a) =>
      var r := Suspend(m, a, s);
      if r.Failed? then r else Pending(Then(op, r.rest), r.s)
    case Both(op, rightFirst, a, b) =>
      var r := Suspend(m, a, s);
      if r.Failed? then r else
      var q := Suspend(m, b, r.s);
      if q.Failed? then q else Pending(Pair(op, rightFirst, r.rest, q.rest), q.s)
    case Short(op, isAnd, a, b) =>
      var r := Suspend(m, a, s);
      if r.Failed? then r else
      var q := Suspend(m, b, r.s);
      if q.Failed? then q else Pending(Choice(op, isAnd, r.rest, q.rest), q.s)
    case Try(a) =>
      var r := Suspend(m, a, s);
      if r.Failed? then r else
      var q := Finish(m, r.rest, r.s);
      if m.isErr(q.0) then Failed(q.0, q.1) else Pending(Done(m.valueOr(q.0)), q.1)
  }

  /** Without `?` all of the expression is the rest. */
  function Whole(e: Expr): Rest
    requires NoTry(e)
  {
    match e
    case Read(op) => Start(op)
    case Apply(op, a) => Then(op, Whole(a))
    case Both(op, rightFirst, a, b) => Pair(op, rightFirst, Whole(a), Whole(b))
    case Short(op, isAnd, a, b) => Choice(op, isAnd, Whole(a), Whole(b))
  }

  lemma {:induction false} SuspendPure<S>(m: Meaning<S>, e: Expr, s: S)
    requires NoTry(e)
    ensures Suspend(m, e, s) == Pending(Whole(e), s)
  {
    match e
    case Read(_) =>
    case Apply(_, a) => SuspendPure(m, a, s);
    case Both(_, _, a, b) =>
      SuspendPure(m, a, s);
      SuspendPure(m, b, s);
    case Short(_, _, a, b) =>
      SuspendPure(m, a, s);
      SuspendPure(m, b, s);
  }

  /** Where every `?` can be decided first, evaluating is suspending and finishing
      without cleanup in between. */
  lemma {:induction false} SuspendFinish<S>(m: Meaning<S>, e: Expr, s: S)
    requires Kept(e)
    ensures var r := Suspend(m, e, s);
      Eval(m, e, s) == if r.Failed? then Propagated(r.v, r.s)
                       else Got(Finish(m, r.rest, r.s).0, Finish(m, r.rest, r.s).1)
  {
    match e
    case Read(_) =>
    case Apply(_, a) => SuspendFinish(m, a, s);
    case Both(_, true, a, b) =>
      SuspendPure(m, a, s);
      SuspendFinish(m, b, s);
      var r := Suspend(m, b, s);
      if r.Pending? {
        var s1 := Finish(m, r.rest, r.s).1;
        SuspendFinish(m, a, s1);
        PureBehind(m, a, s, s1);
      }
    case Both(_, false, a, b) =>
      SuspendFinish(m, a, s);
      var r := Suspend(m, a, s);
      if r.Pending? {
        var s1 := Finish(m, r.rest, r.s).1;
        SuspendFinish(m, b, s1);
        if NoTry(b) { PureBehind(m, b, r.s, s1); }
      }
    case Short(_, isAnd, a, b) =>
      SuspendFinish(m, a, s);
      var r := Suspend(m, a, s);
      if r.Pending? {
        var s1 := Finish(m, r.rest, r.s).1;
        PureIsKept(b);
        SuspendFinish(m, b, s1);
        PureBehind(m, b, r.s, s1);
      }
    case Try(a) => SuspendFinish(m, a, s);
  }

  lemma PureBehind<S>(m: Meaning<S>, e: Expr, s: S, s': S)
    requires NoTry(e)
    ensures Suspend(m, e, s) == Pending(Whole(e), s) && Suspend(m, e, s') == Pending(Whole(e), s')
  {
    SuspendPure(m, e, s);
    SuspendPure(m, e, s');
  }

  /** How a statement or block ends. */
  datatype Outcome<S> =
    | Next(s: S)
    | Broke(s: S)
    | Continued(s: S)
    | Leaving(rest: Rest, s: S)
    | OutOfFuel

  /** Runs a deferred call on the way out, whichever way that is. */
  function Finally<S>(m: Meaning<S>, call: nat, o: Outcome<S>): Outcome<S> {
    if o.OutOfFuel? then o else o.(s := m.read(call, o.s).1)
  }

  function Propagate<S>(r: Evaluated<S>): Outcome<S>
    requires r.Propagated?
  {
    Leaving(Done(r.v), r.s)
  }

  function Exec<S>(m: Meaning<S>, fuel: nat, st: Stmt, s: S): Outcome<S>
    decreases fuel, st, 2
  {
    match st
    case Set(name, e) =>
      var r := Eval(m, e, s);
      if r.Propagated? then Propagate(r) else Next(m.store(name, r.v, r.s))
    case Expr(e) =>
      var r := Eval(m, e, s);
      if r.Propagated? then Propagate(r) else Next(r.s)
    case If(c, a, b) =>
      var r := Eval(m, c, s);
      if r.Propagated? then Propagate(r)
      else if r.v != 0 then ExecBlock(m, fuel, a, r.s)
      else ExecBlock(m, fuel, b, r.s)
    case While(_, _) => ExecLoop(m, fuel, st, s)
    case For(init, _, _, _) =>
      var o := Exec(m, fuel, init, s);
      if o.Next? then ExecLoop(m, fuel, st, o.s) else o
    case Match(e, arms) =>
      var r := Eval(m, e, s);
      if r.Propagated? then Propagate(r) else ExecArms(m, fuel, arms, r.v, r.s)
    case Break => Broke(s)
    case Continue => Continued(s)
    case Return(e) =>
      var r := Suspend(m, e, s);
      if r.Failed? then Leaving(Done(r.v), r.s) else Leaving(r.rest, r.s)
    case Unsafe(body) => ExecBlock(m, fuel, body, s)
    case Defer(_) => Next(s)  // has no effect where it stands: see ExecBlock
  }

  /** A block. Its `defer` statements guard the statements behind them. */
  function ExecBlock<S>(m: Meaning<S>, fuel: nat, body: seq<Stmt>, s: S): Outcome<S>
    decreases fuel, body, 1
  {
    if body == [] then Next(s)
    else if body[0].Defer? then Finally(m, body[0].call, ExecBlock(m, fuel, body[1..], s))
    else
      var o := Exec(m, fuel, body[0], s);
      if o.Next? then ExecBlock(m, fuel, body[1..], o.s) else o
  }

  function ExecArms<S>(m: Meaning<S>, fuel: nat, arms: seq<Arm>, v: int, s: S): Outcome<S>
    decreases fuel, arms, 1
  {
    if arms == [] then Next(s)
    else if Hits(arms[0], v) then ExecBlock(m, fuel, arms[0].body, s)
    else ExecArms(m, fuel, arms[1..], v, s)
  }

  /** The iterations of a loop. Fuel bounds their number. */
  function ExecLoop<S>(m: Meaning<S>, fuel: nat, st: Stmt, s: S): Outcome<S>
    requires st.While? || st.For?
    decreases fuel, st, 1
  {
    if fuel == 0 then OutOfFuel else
    var r := Eval(m, st.cond, s);
    if r.Propagated? then Propagate(r)
    else if r.v == 0 then Next(r.s)
    else
      var o := ExecBlock(m, fuel - 1, st.body, r.s);
      match o
      case Broke(s1) => Next(s1)
      case Leaving(_, _) => o
      case OutOfFuel => o
      case _ =>
        if st.While? then ExecLoop(m, fuel - 1, st, o.s) else
        var q := Exec(m, fuel - 1, st.step, o.s);
        if q.Next? then ExecLoop(m, fuel - 1, st, q.s) else q
  }

  /** A function body: what it returns and the final state. Falling off the end
      and a stray loop exit return nothing. */
  datatype Result<S> = Returned(v: int, s: S) | FellOff(s: S) | Stray(s: S) | NoResult

  function Run<S>(m: Meaning<S>, fuel: nat, body: seq<Stmt>, s: S): Result<S> {
    match ExecBlock(m, fuel, body, s)
    case Next(s1) => FellOff(s1)
    case Leaving(rest, s1) => Returned(Finish(m, rest, s1).0, Finish(m, rest, s1).1)
    case Broke(s1) => Stray(s1)
    case Continued(s1) => Stray(s1)
    case OutOfFuel => NoResult
  }
}
