/** Where lowering changes the meaning: exactly where a `?` is decided before something
    that should come first, or decided once instead of every time. */
module DeferExact {
  import opened DeferSource
  import opened DeferIr
  import opened DeferLowering
  import opened DeferCorrect

  // ---- `?` behind other operands ----

  /** No `?` in the right operand of `&&` or `||`. */
  predicate Unskipped(e: Expr) {
    match e
    case Read(_) => true
    case Apply(_, a) => Unskipped(a)
    case Both(_, _, a, b) => Unskipped(a) && Unskipped(b)
    case Short(_, _, a, b) => Unskipped(a) && NoTry(b)
    case Try(a) => Unskipped(a)
  }

  /** An operation and the operands it got; a value says which operation yielded it. */
  datatype Event = Event(v: int, w: int)

  type History = seq<Event>

  /** Operations do nothing but leave a record, and no test fails. */
  function Recording(): Meaning<History> {
    Meaning((op, s) => (|s| + 1, s + [Event(0, 0)]), (op, v, s) => (|s| + 1, s + [Event(v, 0)]),
            (op, v, w, s) => (|s| + 1, s + [Event(v, w)]), (x, v, s) => s, v => false, v => v)
  }

  /** The operations that evaluation makes, if no value is zero. */
  function Ops(e: Expr): nat {
    match e
    case Read(_) => 1
    case Apply(_, a) => Ops(a) + 1
    case Both(_, _, a, b) => Ops(a) + Ops(b) + 1
    case Short(_, isAnd, a, b) => Ops(a) + (if isAnd then Ops(b) else 0) + 1
    case Try(a) => Ops(a)
  }

  /** Those that are moved in front of the statement. */
  function Hoisted(e: Expr): nat {
    match e
    case Read(_) => 0
    case Apply(_, a) => Hoisted(a)
    case Both(_, _, a, b) => Hoisted(a) + Hoisted(b)
    case Short(_, _, a, b) => Hoisted(a) + Hoisted(b)
    case Try(a) => Ops(a)
  }

  lemma {:induction false} HoistedBounds(e: Expr)
    requires Unskipped(e)
    ensures Ops(e) >= 1 && (NoTry(e) <==> Hoisted(e) == 0)
    ensures if e.Try? then Hoisted(e) == Ops(e) else Hoisted(e) < Ops(e)
  {
    match e
    case Read(_) =>
    case Apply(_, a) => HoistedBounds(a);
    case Both(_, _, a, b) =>
      HoistedBounds(a);
      HoistedBounds(b);
    case Short(_, _, a, b) =>
      HoistedBounds(a);
      PureIsUnskipped(b);
      HoistedBounds(b);
    case Try(a) => HoistedBounds(a);
  }

  lemma {:induction false} PureIsUnskipped(e: Expr)
    requires NoTry(e)
    ensures Unskipped(e)
  {
    match e
    case Read(_) =>
    case Apply(_, a) => PureIsUnskipped(a);
    case Both(_, _, a, b) =>
      PureIsUnskipped(a);
      PureIsUnskipped(b);
    case Short(_, _, a, b) => PureIsUnskipped(a);
  }

  /** Where the recorded run of the source ends. */
  function Source(e: Expr, h: History): History {
    Eval(Recording(), e, h).s
  }

  /** Where the lowered one ends that is moved in front, and where all of it does. */
  function Front(e: Expr, h: History): History {
    Suspend(Recording(), e, h).s
  }

  function RestOf(e: Expr, h: History): Rest {
    var r := Suspend(Recording(), e, h);
    if r.Failed? then Done(0) else r.rest
  }

  function End(rest: Rest, h: History): History {
    Finish(Recording(), rest, h).1
  }

  function Lowered(e: Expr, h: History): History {
    End(RestOf(e, h), Front(e, h))
  }

  lemma {:induction false} SourceRecords(e: Expr, h: History)
    ensures Eval(Recording(), e, h) == Got(|Source(e, h)|, Source(e, h))
    ensures h <= Source(e, h) && |Source(e, h)| == |h| + Ops(e) && Ops(e) >= 1
  {
    match e
    case Read(_) =>
    case Apply(_, a) => SourceRecords(a, h);
    case Both(_, rightFirst, a, b) =>
      var first, second := if rightFirst then b else a, if rightFirst then a else b;
      SourceRecords(first, h);
      SourceRecords(second, Source(first, h));
    case Short(_, _, a, b) =>
      SourceRecords(a, h);
      SourceRecords(b, Source(a, h));
    case Try(a) => SourceRecords(a, h);
  }

  /** How many operations are left, and what the value will be. */
  ghost predicate Leaves(rest: Rest, n: int) {
    if rest.Done? then n == 0 && rest.v >= 1
    else forall h: History :: var q := Finish(Recording(), rest, h);
      h <= q.1 && |q.1| == |h| + n && q.0 == |q.1| && n >= 1
  }

  lemma {:induction false} FrontRecords(e: Expr, h: History)
    requires Unskipped(e)
    ensures var r := Suspend(Recording(), e, h);
      && r == Pending(RestOf(e, h), Front(e, h)) && h <= r.s && |r.s| == |h| + Hoisted(e)
      && Leaves(r.rest, Ops(e) - Hoisted(e)) && (e.Try? <==> r.rest.Done?) && (e.Try? ==> r.rest.v == |r.s|)
    decreases e, 1
  {
    HoistedBounds(e);
    match e
    case Read(_) =>
    case Apply(_, a) =>
      FrontRecords(a, h);
      ThenLeaves(e, RestOf(a, h), Ops(a) - Hoisted(a));
    case Both(_, _, _, _) => OperandsRecord(e, h);
    case Short(_, _, _, _) => OperandsRecord(e, h);
    case Try(a) =>
      FrontRecords(a, h);
      HoistedBounds(a);
      EndIs(RestOf(a, h), Ops(a) - Hoisted(a), Front(a, h));
  }

  lemma EndIs(rest: Rest, n: int, h: History)
    requires Leaves(rest, n)
    ensures var q := Finish(Recording(), rest, h);
      && h <= q.1 && |q.1| == |h| + n && q.1 == End(rest, h)
      && q.0 == (if rest.Done? then rest.v else |q.1|) && q.0 >= 1
  {
  }

  lemma ThenLeaves(e: Expr, rest: Rest, n: int)
    requires e.Apply? && Leaves(rest, n)
    ensures Leaves(Then(e.op, rest), n + 1)
  {
    forall h: History
      ensures var q := Finish(Recording(), Then(e.op, rest), h);
        h <= q.1 && |q.1| == |h| + n + 1 && q.0 == |q.1|
    {
      EndIs(rest, n, h);
    }
  }

  lemma OperandsRecord(e: Expr, h: History)
    requires (e.Both? || e.Short?) && Unskipped(e)
    ensures var r := Suspend(Recording(), e, h);
      && r == Pending(RestOf(e, h), Front(e, h)) && h <= r.s && |r.s| == |h| + Hoisted(e)
      && Leaves(r.rest, Ops(e) - Hoisted(e)) && !r.rest.Done?
    decreases e, 0
  {
    hide Leaves;
    var a, b := e.lhs, e.rhs;
    if e.Short? { PureIsUnskipped(b); }
    HoistedBounds(a);
    HoistedBounds(b);
    FrontRecords(a, h);
    FrontRecords(b, Front(a, h));
    var x, y, k, n := RestOf(a, h), RestOf(b, Front(a, h)), Ops(a) - Hoisted(a), Ops(b) - Hoisted(b);
    if e.Both? { PairLeaves(e.op, e.rightFirst, x, k, y, n); } else { ChoiceLeaves(e.op, e.isAnd, x, k, y, n); }
  }

  lemma PairLeaves(op: nat, rightFirst: bool, x: Rest, k: int, y: Rest, n: int)
    requires Leaves(x, k) && Leaves(y, n)
    ensures Leaves(Pair(op, rightFirst, x, y), k + n + 1)
  {
    EndIs(x, k, []);
    EndIs(y, n, []);
    forall h: History
      ensures var q := Finish(Recording(), Pair(op, rightFirst, x, y), h);
        h <= q.1 && |q.1| == |h| + (k + n + 1) && q.0 == |q.1|
    {
      hide Leaves;
      if rightFirst {
        EndIs(y, n, h);
        EndIs(x, k, End(y, h));
      } else {
        EndIs(x, k, h);
        EndIs(y, n, End(x, h));
      }
    }
  }

  lemma ChoiceLeaves(op: nat, isAnd: bool, x: Rest, k: int, y: Rest, n: int)
    requires Leaves(x, k) && Leaves(y, n)
    ensures Leaves(Choice(op, isAnd, x, y), k + (if isAnd then n else 0) + 1)
  {
    EndIs(x, k, []);
    EndIs(y, n, []);
    forall h: History
      ensures var q := Finish(Recording(), Choice(op, isAnd, x, y), h);
        h <= q.1 && |q.1| == |h| + (k + (if isAnd then n else 0) + 1) && q.0 == |q.1|
    {
      hide Leaves;
      EndIs(x, k, h);
      EndIs(y, n, End(x, h));
    }
  }

  /** Both runs make all operations. */
  lemma LoweredRecords(e: Expr, h: History)
    requires Unskipped(e)
    ensures h <= Front(e, h) <= Lowered(e, h) && |Lowered(e, h)| == |Source(e, h)| == |h| + Ops(e)
    ensures Kept(e) ==> Lowered(e, h) == Source(e, h)
  {
    hide Leaves;
    HoistedBounds(e);
    SourceRecords(e, h);
    FrontRecords(e, h);
    EndIs(RestOf(e, h), Ops(e) - Hoisted(e), Front(e, h));
    if Kept(e) { SuspendFinish(Recording(), e, h); }
  }

  /** An expression that is not kept leaves other records. */
  lemma {:induction false} Differs(e: Expr, h: History)
    requires Unskipped(e) && !Kept(e)
    ensures Lowered(e, h) != Source(e, h)
    decreases e, 2
  {
    hide Leaves;
    match e
    case Apply(_, a) =>
      Differs(a, h);
      FrontRecords(a, h);
      SourceRecords(a, h);
      LoweredRecords(a, h);
      LongerDiffer(Lowered(a, h), Source(a, h), Lowered(e, h), Source(e, h));
    case Both(_, _, _, _) => OperandsDiffer(e, h);
    case Short(_, _, _, _) => LogicDiffers(e, h);
    case Try(a) =>
      Differs(a, h);
      FrontRecords(a, h);
      SourceRecords(a, h);
  }

  /** Longer histories with beginnings that differ. */
  lemma LongerDiffer(a: History, b: History, c: History, d: History)
    requires |a| == |b| && a != b && a <= c && b <= d
    ensures c != d
  {
  }

  lemma LogicDiffers(e: Expr, h: History)
    requires e.Short? && Unskipped(e) && !Kept(e)
    ensures Lowered(e, h) != Source(e, h)
    decreases e, 0
  {
    hide Leaves;
    var a, b := e.lhs, e.rhs;
    Differs(a, h);
    PureIsUnskipped(b);
    FrontRecords(a, h);
    SourceRecords(a, h);
    LoweredRecords(a, h);
    SuspendPure(Recording(), b, Front(a, h));
    FrontRecords(b, Front(a, h));
    SourceRecords(b, Source(a, h));
    EndIs(RestOf(a, h), Ops(a) - Hoisted(a), Front(a, h));
    EndIs(RestOf(b, Front(a, h)), Ops(b) - Hoisted(b), Lowered(a, h));
    LongerDiffer(Lowered(a, h), Source(a, h), Lowered(e, h), Source(e, h));
  }

  lemma OperandsDiffer(e: Expr, h: History)
    requires e.Both? && Unskipped(e) && !Kept(e)
    ensures Lowered(e, h) != Source(e, h)
    decreases e, 1
  {
    hide Leaves, Kept;
    var a, b := e.lhs, e.rhs;
    KeptBoth(e);
    if e.rightFirst {
      if NoTry(a) { RightDiffers(e, h); } else { OrderDiffers(e, h); }
    } else if NoTry(b) {
      LeftDiffers(e, h);
    } else if a.Try? {
      if Kept(a) { SecondDiffers(e, h); } else { LeftDiffers(e, h); }
    } else {
      OrderDiffers(e, h);
    }
  }

  lemma KeptBoth(e: Expr)
    requires e.Both?
    ensures Kept(e) <==> Kept(e.lhs) && Kept(e.rhs) && if e.rightFirst then NoTry(e.lhs) else NoTry(e.rhs) || e.lhs.Try?
    ensures NoTry(e.lhs) ==> Kept(e.lhs)
    ensures NoTry(e.rhs) ==> Kept(e.rhs)
  {
    if NoTry(e.lhs) { PureIsKept(e.lhs); }
    if NoTry(e.rhs) { PureIsKept(e.rhs); }
  }

  /** The records of a pair of operands. */
  lemma PairRecords(e: Expr, h: History)
    requires e.Both? && Unskipped(e)
    ensures var a, b := e.lhs, e.rhs;
      var x, y := RestOf(a, h), RestOf(b, Front(a, h));
      var f := Front(b, Front(a, h));
      && Front(e, h) == f && RestOf(e, h) == Pair(e.op, e.rightFirst, x, y)
      && Lowered(e, h) == (if e.rightFirst then
           End(x, End(y, f)) + [Event(Finish(Recording(), x, End(y, f)).0, Finish(Recording(), y, f).0)]
         else
           End(y, End(x, f)) + [Event(Finish(Recording(), x, f).0, Finish(Recording(), y, End(x, f)).0)])
      && Source(e, h) == (if e.rightFirst then
           Source(a, Source(b, h)) + [Event(|Source(a, Source(b, h))|, |Source(b, h)|)]
         else
           Source(b, Source(a, h)) + [Event(|Source(a, h)|, |Source(b, Source(a, h))|)])
  {
    hide Leaves;
    FrontRecords(e.lhs, h);
    FrontRecords(e.rhs, Front(e.lhs, h));
    if e.rightFirst {
      SourceRecords(e.rhs, h);
      SourceRecords(e.lhs, Source(e.rhs, h));
    } else {
      SourceRecords(e.lhs, h);
      SourceRecords(e.rhs, Source(e.lhs, h));
    }
  }

  /** The counts behind the records. */
  lemma PairCounts(e: Expr, h: History)
    requires e.Both? && Unskipped(e)
    ensures var a, b := e.lhs, e.rhs;
      var f := Front(a, h);
      && h <= f && |f| == |h| + Hoisted(a) && |Front(b, f)| == |f| + Hoisted(b) && f <= Front(b, f)
      && Leaves(RestOf(a, h), Ops(a) - Hoisted(a)) && Leaves(RestOf(b, f), Ops(b) - Hoisted(b))
      && (a.Try? <==> RestOf(a, h).Done?) && (a.Try? ==> RestOf(a, h).v == |f|)
      && (b.Try? <==> RestOf(b, f).Done?) && (b.Try? ==> RestOf(b, f).v == |Front(b, f)|)
      && Ops(a) >= 1 && Ops(b) >= 1 && (NoTry(a) <==> Hoisted(a) == 0) && (NoTry(b) <==> Hoisted(b) == 0)
      && (a.Try? ==> Hoisted(a) == Ops(a)) && (!a.Try? ==> Hoisted(a) < Ops(a))
      && (b.Try? ==> Hoisted(b) == Ops(b)) && (!b.Try? ==> Hoisted(b) < Ops(b))
  {
    hide Leaves;
    HoistedBounds(e.lhs);
    HoistedBounds(e.rhs);
    FrontRecords(e.lhs, h);
    FrontRecords(e.rhs, Front(e.lhs, h));
  }

  /** With an operation in the wrong order the last one gets other operands. */
  lemma OrderDiffers(e: Expr, h: History)
    requires e.Both? && Unskipped(e)
    requires if e.rightFirst then !NoTry(e.lhs) else !NoTry(e.rhs) && !e.lhs.Try?
    ensures Lowered(e, h) != Source(e, h)
  {
    hide Leaves, Front, RestOf, End, Lowered, Source;
    var a, b := e.lhs, e.rhs;
    var x, y := RestOf(a, h), RestOf(b, Front(a, h));
    var f := Front(b, Front(a, h));
    PairRecords(e, h);
    PairCounts(e, h);
    var k, n := Ops(a) - Hoisted(a), Ops(b) - Hoisted(b);
    if e.rightFirst {
      EndIs(y, n, f);
      EndIs(x, k, End(y, f));
      SourceRecords(b, h);
      SourceRecords(a, Source(b, h));
    } else {
      EndIs(x, k, f);
      EndIs(y, n, End(x, f));
      SourceRecords(a, h);
      SourceRecords(b, Source(a, h));
    }
    var l, m := Lowered(e, h), Source(e, h);
    assert l[|l| - 1] != m[|m| - 1];
  }

  /** The left operand comes first and is not kept. */
  lemma LeftDiffers(e: Expr, h: History)
    requires e.Both? && Unskipped(e) && !e.rightFirst && !Kept(e.lhs) && (NoTry(e.rhs) || e.lhs.Try?)
    ensures Lowered(e, h) != Source(e, h)
    decreases e, 0
  {
    hide Leaves, Source, Lowered, End, Kept;
    var a, b := e.lhs, e.rhs;
    var x, y := RestOf(a, h), RestOf(b, Front(a, h));
    var f := Front(b, Front(a, h));
    Differs(a, h);
    PairRecords(e, h);
    PairCounts(e, h);
    LoweredRecords(a, h);
    SourceRecords(b, Source(a, h));
    assert Lowered(a, h) == End(x, Front(a, h)) by { LoweredIs(a, h); }
    EndIs(x, Ops(a) - Hoisted(a), f);
    EndIs(y, Ops(b) - Hoisted(b), End(x, f));
    if NoTry(b) {
      assert f == Front(a, h);
    } else {
      EndIs(x, 0, Front(a, h));
    }
    assert Lowered(a, h) <= Lowered(e, h) && Source(a, h) <= Source(e, h);
    LongerDiffer(Lowered(a, h), Source(a, h), Lowered(e, h), Source(e, h));
  }

  lemma LoweredIs(e: Expr, h: History)
    ensures Lowered(e, h) == End(RestOf(e, h), Front(e, h))
  {
  }

  /** The left operand is over when the right one begins, which is not kept. */
  lemma SecondDiffers(e: Expr, h: History)
    requires e.Both? && Unskipped(e) && !e.rightFirst && e.lhs.Try? && Kept(e.lhs) && !Kept(e.rhs)
    ensures Lowered(e, h) != Source(e, h)
    decreases e, 0
  {
    hide Leaves, Source, Lowered, End, Kept;
    var a, b := e.lhs, e.rhs;
    var x, y := RestOf(a, h), RestOf(b, Front(a, h));
    var g := Front(a, h);
    PairRecords(e, h);
    PairCounts(e, h);
    LoweredRecords(a, h);
    LoweredIs(a, h);
    EndIs(x, 0, g);
    EndIs(x, 0, Front(b, g));
    assert Source(a, h) == g;
    Differs(b, g);
    LoweredRecords(b, g);
    LoweredIs(b, g);
    LongerDiffer(Lowered(b, g), Source(b, g), Lowered(e, h), Source(e, h));
  }

  /** The right operand comes first and is not kept. */
  lemma RightDiffers(e: Expr, h: History)
    requires e.Both? && Unskipped(e) && e.rightFirst && NoTry(e.lhs) && !Kept(e.rhs)
    ensures Lowered(e, h) != Source(e, h)
    decreases e, 0
  {
    hide Leaves, Source, Lowered, End, Kept;
    var a, b := e.lhs, e.rhs;
    PairRecords(e, h);
    PairCounts(e, h);
    assert Front(a, h) == h;
    Differs(b, h);
    LoweredRecords(b, h);
    LoweredIs(b, h);
    EndIs(RestOf(a, h), Ops(a) - Hoisted(a), Lowered(b, h));
    SourceRecords(a, Source(b, h));
    LongerDiffer(Lowered(b, h), Source(b, h), Lowered(e, h), Source(e, h));
  }

  // ---- statements ----

  /** The lowered statement and its source run alike whatever the operations mean, on
      states of this type. */
  ghost predicate KeepsMeaning<S(!new)>(st: Stmt)
    requires FormedAll([st])
  {
    forall m: Meaning<S>, fuel: nat, s: S ::
      IrRun(m, fuel, LowerBlock([st], [], false, 0).code, s) == Run(m, fuel, [st], s)
  }

  lemma ExprFormed(e: Expr)
    ensures FormedAll([Expr(e)]) && (Kept(e) ==> OrderlyAll([Expr(e)]))
  {
    var st := Expr(e);
    assert Formed(st) && (Kept(e) ==> Orderly(st));
    var body := [st];
    assert body[0] == st && body[1..] == [];
    assert FormedAll(body[1..]) && OrderlyAll(body[1..]);
    assert FormedAll(body);
    if Kept(e) { assert OrderlyAll(body); }
  }

  /** What the statement comes to where the lowered code meets an error that the source
      does not. */
  lemma OneFails(e: Expr, m: Meaning<nat>)
    requires FormedAll([Expr(e)]) && Suspend(m, e, 0).Failed? && Eval(m, e, 0).Got?
    ensures !KeepsMeaning<nat>(Expr(e))
  {
    LoweredFails(e, m);
    SourceEnds(e, m, 0);
    hide Suspend, Eval;
    assert IrRun(m, 0, LowerBlock([Expr(e)], [], false, 0).code, 0) != Run(m, 0, [Expr(e)], 0);
  }

  lemma LoweredFails(e: Expr, m: Meaning<nat>)
    requires FormedAll([Expr(e)]) && Suspend(m, e, 0).Failed?
    ensures IrRun(m, 0, LowerBlock([Expr(e)], [], false, 0).code, 0).Returned?
  {
    hide Suspend, IrExecAll, LowerExpr;
    var st, scopes, t: Tmps := Expr(e), [Scope([], false)], map[];
    var x := LowerStmt(st, scopes, 0);
    var y := LowerRest([], scopes, x.next);
    assert [] + scopes == scopes && [st][1..] == [];
    var code := (x.pre + [x.stmt]) + y.code;
    assert LowerBlock([st], [], false, 0).code == code;
    HoistExpr(m, 0, e, scopes, 0, 0, t);
    PreThen(m, 0, x.pre, x.stmt, 0, t);
    IrExecCat(m, 0, x.pre + [x.stmt], y.code, 0, t);
    assert IrExecAll(m, 0, x.pre, 0, t).IReturned?;
    assert IrExecAll(m, 0, code, 0, t).IReturned?;
    hide LowerStmt, LowerRest, LowerBlock;
  }

  lemma SourceEnds<S>(e: Expr, m: Meaning<S>, s: S)
    requires Eval(m, e, s).Got?
    ensures Run(m, 0, [Expr(e)], s) == FellOff(Eval(m, e, s).s)
  {
    hide Eval;
    assert [Expr(e)][1..] == [];
    assert ExecBlock(m, 0, [Expr(e)], s) == Next(Eval(m, e, s).s);
  }

  lemma ExprKeeps<S(!new)>(e: Expr)
    requires Kept(e) && FormedAll([Expr(e)]) && OrderlyAll([Expr(e)])
    ensures KeepsMeaning<S>(Expr(e))
  {
    forall m: Meaning<S>, fuel: nat, s: S
      ensures IrRun(m, fuel, LowerBlock([Expr(e)], [], false, 0).code, s) == Run(m, fuel, [Expr(e)], s)
    {
      LoweringPreservesMeaning(m, fuel, [Expr(e)], 0, s);
    }
  }

  // ---- `?` under `&&` and `||` ----

  /** How many operations there have been, or zero after operation `z`. */
  function Mark(z: nat, count: nat): int {
    if count == z then 0 else count
  }

  /** Every operation yields its number, operation `z` yields zero, and the value of
      operation `bad` is the only error. */
  function Marked(z: nat, bad: nat): Meaning<nat> {
    Meaning((op, s) => (Mark(z, s + 1), s + 1), (op, v, s) => (Mark(z, s + 1), s + 1),
            (op, v, w, s) => (Mark(z, s + 1), s + 1), (x, v, s) => s, v => v == Mark(z, bad), v => v)
  }

  /** A run in which no test fails: how many operations there were at the end, and
      behind which of them there was a test. */
  datatype Trace = Trace(s: nat, tests: set<nat>)

  function Clean(z: nat): Meaning<nat> {
    Marked(z, 0).(isErr := v => false)
  }

  function SourceTrace(z: nat, e: Expr, s: nat): Trace {
    match e
    case Read(_) => Trace(s + 1, {})
    case Apply(_, a) =>
      var r := SourceTrace(z, a, s);
      Trace(r.s + 1, r.tests)
    case Both(_, rightFirst, a, b) =>
      var r := SourceTrace(z, if rightFirst then b else a, s);
      var q := SourceTrace(z, if rightFirst then a else b, r.s);
      Trace(q.s + 1, r.tests + q.tests)
    case Short(_, isAnd, a, b) =>
      var r := SourceTrace(z, a, s);
      if Skips(isAnd, Mark(z, r.s)) then Trace(r.s + 1, r.tests) else
      var q := SourceTrace(z, b, r.s);
      Trace(q.s + 1, r.tests + q.tests)
    case Try(a) =>
      var r := SourceTrace(z, a, s);
      Trace(r.s, r.tests + {r.s})
  }

  /** Behind which operations the lowered code tests, in front of the statement. */
  function LoweredTests(z: nat, e: Expr, s: nat): set<nat> {
    match e
    case Read(_) => {}
    case Apply(_, a) => LoweredTests(z, a, s)
    case Both(_, _, a, b) => LoweredTests(z, a, s) + LoweredTests(z, b, Suspend<nat>(Clean(z), a, s).s)
    case Short(_, _, a, b) => LoweredTests(z, a, s) + LoweredTests(z, b, Suspend<nat>(Clean(z), a, s).s)
    case Try(a) =>
      var r := Suspend<nat>(Clean(z), a, s);
      LoweredTests(z, a, s) + if r.Failed? then {} else {Finish<nat>(Clean(z), r.rest, r.s).1}
  }

  /** The tests in the expression; a test of a test is the same test again. */
  function Tests(e: Expr): nat {
    match e
    case Read(_) => 0
    case Apply(_, a) => Tests(a)
    case Both(_, _, a, b) => Tests(a) + Tests(b)
    case Short(_, _, a, b) => Tests(a) + Tests(b)
    case Try(a) => Tests(a) + if a.Try? then 0 else 1
  }

  lemma {:induction false} SomeTest(e: Expr)
    ensures Tests(e) == 0 <==> NoTry(e)
  {
    match e
    case Read(_) =>
    case Apply(_, a) => SomeTest(a);
    case Both(_, _, a, b) =>
      SomeTest(a);
      SomeTest(b);
    case Short(_, _, a, b) =>
      SomeTest(a);
      SomeTest(b);
    case Try(a) => SomeTest(a);
  }

  lemma {:induction false} SourceGrows(z: nat, e: Expr, s: nat)
    ensures var r := SourceTrace(z, e, s); r.s > s && (e.Try? ==> r.s in r.tests)
  {
    match e
    case Read(_) =>
    case Apply(_, a) => SourceGrows(z, a, s);
    case Both(_, rightFirst, a, b) =>
      var first, second := if rightFirst then b else a, if rightFirst then a else b;
      SourceGrows(z, first, s);
      SourceGrows(z, second, SourceTrace(z, first, s).s);
    case Short(_, _, a, b) =>
      SourceGrows(z, a, s);
      SourceGrows(z, b, SourceTrace(z, a, s).s);
    case Try(a) => SourceGrows(z, a, s);
  }

  /** An error that is never tested does no harm. */
  lemma {:induction false} SourceRuns(z: nat, bad: nat, e: Expr, s: nat)
    requires bad > 0 && bad !in SourceTrace(z, e, s).tests
    ensures var r := SourceTrace(z, e, s); Eval<nat>(Marked(z, bad), e, s) == Got(Mark(z, r.s), r.s)
  {
    match e
    case Read(_) =>
    case Apply(_, a) => SourceRuns(z, bad, a, s);
    case Both(_, rightFirst, a, b) =>
      var first, second := if rightFirst then b else a, if rightFirst then a else b;
      SourceRuns(z, bad, first, s);
      SourceRuns(z, bad, second, SourceTrace(z, first, s).s);
    case Short(_, isAnd, a, b) =>
      SourceRuns(z, bad, a, s);
      var r := SourceTrace(z, a, s);
      if !Skips(isAnd, Mark(z, r.s)) { SourceRuns(z, bad, b, r.s); }
    case Try(a) =>
      SourceGrows(z, a, s);
      SourceRuns(z, bad, a, s);
  }

  lemma UnionSize(a: set<nat>, b: set<nat>)
    ensures |a + b| <= |a| + |b| && (a !! b ==> |a + b| == |a| + |b|)
  {
    assert a + b == a + (b - a) && |a + (b - a)| == |a| + |b - a|;
    Smaller(b - a, b);
    if a !! b { assert b - a == b; }
  }

  lemma Smaller(a: set<nat>, b: set<nat>)
    requires a <= b
    ensures |a| <= |b|
  {
    assert b == a + (b - a) && |b| == |a| + |b - a|;
  }

  /** The source makes every test at most once. */
  lemma {:induction false} SourceTestsAtMost(z: nat, e: Expr, s: nat)
    ensures |SourceTrace(z, e, s).tests| <= Tests(e)
  {
    match e
    case Read(_) =>
    case Apply(_, a) => SourceTestsAtMost(z, a, s);
    case Both(_, rightFirst, a, b) =>
      var first, second := if rightFirst then b else a, if rightFirst then a else b;
      var r := SourceTrace(z, first, s);
      SourceTestsAtMost(z, first, s);
      SourceTestsAtMost(z, second, r.s);
      UnionSize(r.tests, SourceTrace(z, second, r.s).tests);
    case Short(_, _, a, b) =>
      var r := SourceTrace(z, a, s);
      SourceTestsAtMost(z, a, s);
      SourceTestsAtMost(z, b, r.s);
      UnionSize(r.tests, SourceTrace(z, b, r.s).tests);
    case Try(a) =>
      SourceTestsAtMost(z, a, s);
      TestOnce(z, a, s);
  }

  lemma TestOnce(z: nat, a: Expr, s: nat)
    ensures var r := SourceTrace(z, a, s); |r.tests + {r.s}| <= |r.tests| + if a.Try? then 0 else 1
  {
    var r := SourceTrace(z, a, s);
    SourceGrows(z, a, s);
    UnionSize(r.tests, {r.s});
    if a.Try? { assert r.tests + {r.s} == r.tests; }
  }

  /** An operator looks at its left operand before the last operation. */
  lemma {:induction false} LateZero(z: nat, e: Expr, s: nat)
    requires z >= SourceTrace(0, e, s).s
    ensures SourceTrace(z, e, s) == SourceTrace(0, e, s)
  {
    match e
    case Read(_) =>
    case Apply(_, a) => LateZero(z, a, s);
    case Both(_, rightFirst, a, b) =>
      var first, second := if rightFirst then b else a, if rightFirst then a else b;
      var r := SourceTrace(0, first, s);
      SourceGrows(0, second, r.s);
      LateZero(z, first, s);
      LateZero(z, second, r.s);
    case Short(_, isAnd, a, b) =>
      var r := SourceTrace(0, a, s);
      SourceGrows(0, a, s);
      SourceGrows(0, b, r.s);
      LateZero(z, a, s);
      if !Skips(isAnd, Mark(0, r.s)) { LateZero(z, b, r.s); }
    case Try(a) => LateZero(z, a, s);
  }

  /** Where an operator can skip a test, some operation makes one do so when it yields
      zero, or none need yield zero. */
  lemma {:induction false} SomeSkip(e: Expr, s: nat) returns (z: nat)
    requires !Unskipped(e)
    ensures (z == 0 || z > s) && |SourceTrace(z, e, s).tests| < Tests(e)
    decreases e, 1
  {
    match e
    case Apply(_, a) => z := SomeSkip(a, s);
    case Both(_, _, _, _) => z := OperandSkips(e, s);
    case Short(_, isAnd, a, b) =>
      if NoTry(b) {
        z := OperandSkips(e, s);
      } else {
        z := if isAnd then SourceTrace(0, a, s).s else 0;
        SourceGrows(0, a, s);
        if isAnd { LateZero(z, a, s); }
        SourceTestsAtMost(z, a, s);
        SomeTest(b);
      }
    case Try(a) =>
      z := SomeSkip(a, s);
      TestOnce(z, a, s);
  }

  lemma OperandSkips(e: Expr, s: nat) returns (z: nat)
    requires (e.Both? && !Unskipped(e)) || (e.Short? && !Unskipped(e.lhs))
    ensures (z == 0 || z > s) && |SourceTrace(z, e, s).tests| < Tests(e)
    decreases e, 0
  {
    var rightFirst := e.Both? && e.rightFirst;
    var a, b := if rightFirst then e.rhs else e.lhs, if rightFirst then e.lhs else e.rhs;
    var r := SourceTrace(0, a, s);
    if Unskipped(a) {
      SourceGrows(0, a, s);
      z := SomeSkip(b, r.s);
      if z > 0 { LateZero(z, a, s); }
      SourceTestsAtMost(z, a, s);
    } else {
      z := SomeSkip(a, s);
      SourceTestsAtMost(z, b, SourceTrace(z, a, s).s);
    }
    var r' := SourceTrace(z, a, s);
    UnionSize(r'.tests, SourceTrace(z, b, r'.s).tests);
  }

  lemma {:induction false} FinishGrows(z: nat, rest: Rest, s: nat)
    ensures var q := Finish<nat>(Clean(z), rest, s);
      if rest.Done? then q == (rest.v, s) else q.1 > s && q.0 == Mark(z, q.1)
  {
    match rest
    case Done(_) =>
    case Start(_) =>
    case Then(_, r) => FinishGrows(z, r, s);
    case Pair(_, rightFirst, a, b) =>
      var first, second := if rightFirst then b else a, if rightFirst then a else b;
      FinishGrows(z, first, s);
      FinishGrows(z, second, Finish<nat>(Clean(z), first, s).1);
    case Choice(_, _, a, b) =>
      FinishGrows(z, a, s);
      FinishGrows(z, b, Finish<nat>(Clean(z), a, s).1);
  }

  /** Every test that is moved in front is made once. */
  lemma {:induction false} LoweredTestsAll(z: nat, e: Expr, s: nat)
    ensures var r := Suspend<nat>(Clean(z), e, s);
      && r.Pending? && r.s >= s && (if e.Try? then r.rest == Done(Mark(z, r.s)) && r.s in LoweredTests(z, e, s)
                                    else !r.rest.Done?)
      && (forall k :: k in LoweredTests(z, e, s) ==> s < k <= r.s) && |LoweredTests(z, e, s)| == Tests(e)
    decreases e, 1
  {
    match e
    case Read(_) =>
    case Apply(_, a) => LoweredTestsAll(z, a, s);
    case Both(_, _, _, _) => OperandTests(z, e, s);
    case Short(_, _, _, _) => OperandTests(z, e, s);
    case Try(a) =>
      LoweredTestsAll(z, a, s);
      LastTest(z, a, s);
  }

  lemma LastTest(z: nat, a: Expr, s: nat)
    requires var r := Suspend<nat>(Clean(z), a, s);
      r.Pending? && (if a.Try? then r.rest == Done(Mark(z, r.s)) && r.s in LoweredTests(z, a, s) else !r.rest.Done?)
    requires forall k :: k in LoweredTests(z, a, s) ==> k <= Suspend<nat>(Clean(z), a, s).s
    ensures var r := Suspend<nat>(Clean(z), a, s);
      var q := Finish<nat>(Clean(z), r.rest, r.s);
      && q.1 >= r.s && (!a.Try? ==> q.1 > r.s) && q.0 == Mark(z, q.1)
      && |LoweredTests(z, a, s) + {q.1}| == |LoweredTests(z, a, s)| + if a.Try? then 0 else 1
  {
    hide LoweredTests, Suspend;
    var r := Suspend<nat>(Clean(z), a, s);
    FinishGrows(z, r.rest, r.s);
    var last := Finish<nat>(Clean(z), r.rest, r.s).1;
    if a.Try? {
      assert LoweredTests(z, a, s) + {last} == LoweredTests(z, a, s);
    } else {
      UnionSize(LoweredTests(z, a, s), {last});
    }
  }

  lemma OperandTests(z: nat, e: Expr, s: nat)
    requires e.Both? || e.Short?
    ensures var r := Suspend<nat>(Clean(z), e.lhs, s);
      var q := Suspend<nat>(Clean(z), e.rhs, r.s);
      var tests := LoweredTests(z, e.lhs, s) + LoweredTests(z, e.rhs, r.s);
      && r.Pending? && r.s >= s && q.Pending? && q.s >= r.s
      && (forall k :: k in tests ==> s < k <= q.s) && |tests| == Tests(e.lhs) + Tests(e.rhs)
    decreases e, 0
  {
    LoweredTestsAll(z, e.lhs, s);
    var r := Suspend<nat>(Clean(z), e.lhs, s);
    LoweredTestsAll(z, e.rhs, r.s);
    UnionSize(LoweredTests(z, e.lhs, s), LoweredTests(z, e.rhs, r.s));
  }

  lemma {:induction false} FinishAlike(z: nat, bad: nat, rest: Rest, s: nat)
    ensures Finish<nat>(Marked(z, bad), rest, s) == Finish<nat>(Clean(z), rest, s)
  {
    match rest
    case Done(_) =>
    case Start(_) =>
    case Then(_, r) => FinishAlike(z, bad, r, s);
    case Pair(_, rightFirst, a, b) =>
      var first, second := if rightFirst then b else a, if rightFirst then a else b;
      FinishAlike(z, bad, first, s);
      FinishAlike(z, bad, second, Finish<nat>(Clean(z), first, s).1);
    case Choice(_, _, a, b) =>
      FinishAlike(z, bad, a, s);
      FinishAlike(z, bad, b, Finish<nat>(Clean(z), a, s).1);
  }

  /** The lowered code fails exactly with an error that it tests. */
  lemma {:induction false} LoweredRuns(z: nat, bad: nat, e: Expr, s: nat)
    requires bad > 0
    ensures var r := Suspend<nat>(Marked(z, bad), e, s);
      if bad in LoweredTests(z, e, s) then r.Failed? else r == Suspend<nat>(Clean(z), e, s)
  {
    match e
    case Read(_) =>
    case Apply(_, a) => LoweredRuns(z, bad, a, s);
    case Both(_, _, a, b) =>
      LoweredRuns(z, bad, a, s);
      LoweredTestsAll(z, a, s);
      LoweredRuns(z, bad, b, Suspend<nat>(Clean(z), a, s).s);
    case Short(_, _, a, b) =>
      LoweredRuns(z, bad, a, s);
      LoweredTestsAll(z, a, s);
      LoweredRuns(z, bad, b, Suspend<nat>(Clean(z), a, s).s);
    case Try(a) =>
      LoweredRuns(z, bad, a, s);
      LoweredTestsAll(z, a, s);
      var r := Suspend<nat>(Clean(z), a, s);
      FinishAlike(z, bad, r.rest, r.s);
      FinishGrows(z, r.rest, r.s);
  }

  /** An expression in which a test can be skipped has one that fails in the lowered code
      when the source skips it. */
  lemma SkippedFails(e: Expr)
    requires FormedAll([Expr(e)]) && !Unskipped(e)
    ensures !KeepsMeaning<nat>(Expr(e))
  {
    hide KeepsMeaning;
    var z := SomeSkip(e, 0);
    var made, moved := SourceTrace(z, e, 0).tests, LoweredTests(z, e, 0);
    LoweredTestsAll(z, e, 0);
    if moved <= made { Smaller(moved, made); }
    var bad :| bad in moved && bad !in made;
    SourceRuns(z, bad, e, 0);
    LoweredRuns(z, bad, e, 0);
    OneFails(e, Marked(z, bad));
  }

  /** Lowering keeps the meaning of an expression statement, for any states, if in front of
      every `?` nothing is left to be computed, and no operator can skip one. Otherwise
      it fails for numbers or for histories. */
  lemma ExpressionOrder<S(!new)>(e: Expr)
    requires FormedAll([Expr(e)])
    ensures Kept(e) ==> KeepsMeaning<S>(Expr(e))
    ensures KeepsMeaning<nat>(Expr(e)) && KeepsMeaning<History>(Expr(e)) <==> Kept(e)
  {
    hide KeepsMeaning;
    ExprFormed(e);
    if Kept(e) {
      ExprKeeps<S>(e);
      ExprKeeps<nat>(e);
      ExprKeeps<History>(e);
    } else if Unskipped(e) {
      RecordsDiffer(e);
    } else {
      SkippedFails(e);
    }
  }

  /** The states in which the two runs end, if no test fails. */
  lemma RecordsDiffer(e: Expr)
    requires FormedAll([Expr(e)]) && Unskipped(e) && !Kept(e)
    ensures !KeepsMeaning<History>(Expr(e))
  {
    hide Eval, Suspend, Leaves, Kept;
    Differs(e, []);
    FrontRecords(e, []);
    SourceRecords(e, []);
    LoweredEnds(e);
    SourceEnds(e, Recording(), []);
    assert IrRun(Recording(), 0, LowerBlock([Expr(e)], [], false, 0).code, []) != Run(Recording(), 0, [Expr(e)], []);
  }

  lemma LoweredEnds(e: Expr)
    requires FormedAll([Expr(e)]) && Suspend(Recording(), e, []).Pending?
    ensures IrRun(Recording(), 0, LowerBlock([Expr(e)], [], false, 0).code, []) == FellOff(Lowered(e, []))
  {
    hide Suspend, IrExecAll, LowerExpr, IrEval, Finish;
    var m, st, scopes, t: Tmps := Recording(), Expr(e), [Scope([], false)], map[];
    var x := LowerStmt(st, scopes, 0);
    OneStatement(e);
    HoistExpr(m, 0, e, scopes, 0, [], t);
    PreThen(m, 0, x.pre, x.stmt, [], t);
    var o := IrExecAll(m, 0, x.pre, [], t);
    DenotesFinish(m, x.stmt.value, o.t, RestOf(e, []), o.s);
    IrExecCat(m, 0, x.pre + [x.stmt], [], [], t);
    assert (x.pre + [x.stmt]) + [] == x.pre + [x.stmt];
  }

  lemma OneStatement(e: Expr)
    requires FormedAll([Expr(e)])
    ensures var x := LowerStmt(Expr(e), [Scope([], false)], 0);
      LowerBlock([Expr(e)], [], false, 0).code == x.pre + [x.stmt]
  {
    hide LowerStmt;
    var scopes := [Scope([], false)];
    assert [] + scopes == scopes && [Expr(e)][1..] == [];
    var x := LowerStmt(Expr(e), scopes, 0);
    assert LowerRest([], scopes, x.next).code == [];
    assert x.pre + ([x.stmt] + []) == x.pre + [x.stmt];
  }

  // ---- `?` in the head of a loop ----

  /** Statements that only compute, assign and register. */
  predicate Plain(body: seq<Stmt>) {
    forall i :: 0 <= i < |body| ==> body[i].Defer? || (Simple(body[i]) && NoTry(body[i].value))
  }

  lemma {:induction false} PlainIsFormed(body: seq<Stmt>)
    requires Plain(body)
    ensures FormedAll(body) && OrderlyAll(body)
    decreases |body|
  {
    if body != [] {
      if !body[0].Defer? { PureIsKept(body[0].value); }
      PlainIsFormed(body[1..]);
    }
  }

  lemma {:induction false} PlainRuns<S>(m: Meaning<S>, fuel: nat, body: seq<Stmt>, scopes: seq<Scope>, n: nat, s: S,
                                        t: Tmps)
    requires Plain(body) && scopes != [] && FormedAll(body)
    ensures IrExecAll(m, fuel, LowerRest(body, scopes, n).code, s, t).INext?
    decreases |body|
  {
    if body == [] {
      ScopeCleanupRuns(m, fuel, scopes[|scopes| - 1].calls, s, t);
    } else if body[0].Defer? {
      PlainRuns(m, fuel, body[1..], Register(scopes, body[0].call), n, s, t);
    } else {
      PureExpr(m, body[0].value, scopes, n, s, t);
      var x := LowerStmt(body[0], scopes, n);
      var rest := LowerRest(body[1..], scopes, x.next).code;
      assert LowerRest(body, scopes, n).code == [x.stmt] + rest;
      IrExecCat(m, fuel, [x.stmt], rest, s, t);
      IrExecOne(m, fuel, x.stmt, s, t);
      var o := IrExec(m, fuel, x.stmt, s, t);
      PlainRuns(m, fuel, body[1..], scopes, x.next, o.s, o.t);
    }
  }

  /** Every `read` yields how many there have been; more than `limit` is an error. */
  function Counting(limit: nat): Meaning<nat> {
    Meaning((op, s) => (s + 1, s + 1), (op, v, s) => (v, s), (op, v, w, s) => (v, s), (x, v, s) => s,
            v => v > limit, v => if v <= 0 then 1 else v)
  }

  function Reads(e: Expr): nat {
    match e
    case Read(_) => 1
    case Apply(_, a) => Reads(a)
    case Both(_, _, a, b) => Reads(a) + Reads(b)
    case Short(_, _, a, b) => Reads(a) + Reads(b)
    case Try(a) => Reads(a)
  }

  /** No value is zero, every evaluation counts, and from the limit on a `?` fails. */
  lemma {:induction false} CountedEval(limit: nat, e: Expr, s: nat)
    requires Kept(e)
    ensures var r := Eval<nat>(Counting(limit), e, s);
      && s < r.v <= r.s <= s + Reads(e) && (r.Propagated? ==> !NoTry(e) && s + Reads(e) > limit)
      && (!NoTry(e) && s >= limit ==> r.Propagated?)
  {
    match e
    case Read(_) =>
    case Apply(_, a) => CountedEval(limit, a, s);
    case Both(_, rightFirst, a, b) =>
      var first, second := if rightFirst then b else a, if rightFirst then a else b;
      CountedEval(limit, first, s);
      CountedEval(limit, second, Eval<nat>(Counting(limit), first, s).s);
    case Short(_, _, a, b) =>
      PureIsKept(b);
      CountedEval(limit, a, s);
      CountedEval(limit, b, Eval<nat>(Counting(limit), a, s).s);
    case Try(a) => CountedEval(limit, a, s);
  }

  /** Below the limit everything that is moved in front succeeds. */
  lemma CountedRest(limit: nat, e: Expr, s: nat)
    requires Kept(e) && s + Reads(e) <= limit
    ensures var r := Suspend<nat>(Counting(limit), e, s); r.Pending? && r.s <= s + Reads(e)
  {
    CountedEval(limit, e, s);
    SuspendFinish(Counting(limit), e, s);
    var r := Suspend<nat>(Counting(limit), e, s);
    if r.Pending? { FinishCounts(limit, r.rest, r.s); }
  }

  lemma {:induction false} FinishCounts(limit: nat, rest: Rest, s: nat)
    ensures Finish<nat>(Counting(limit), rest, s).1 >= s
  {
    match rest
    case Done(_) =>
    case Start(_) =>
    case Then(_, r) => FinishCounts(limit, r, s);
    case Pair(_, rightFirst, a, b) =>
      var first, second := if rightFirst then b else a, if rightFirst then a else b;
      FinishCounts(limit, first, s);
      FinishCounts(limit, second, Finish<nat>(Counting(limit), first, s).1);
    case Choice(_, _, a, b) =>
      FinishCounts(limit, a, s);
      FinishCounts(limit, b, Finish<nat>(Counting(limit), a, s).1);
  }

  /** No value is zero, so that a condition never ends a loop. */
  lemma {:induction false} CountedCondition(limit: nat, e: Expr, scopes: seq<Scope>, n: nat, s: nat, t: Tmps)
    ensures IrEval<nat>(Counting(limit), LowerExpr(e, scopes, n).value, s, t).0 >= 1
  {
    match e
    case Read(_) =>
    case Apply(_, a) => CountedCondition(limit, a, scopes, n, s, t);
    case Both(_, rightFirst, a, b) =>
      var r := LowerExpr(a, scopes, n);
      var q := LowerExpr(b, scopes, r.next);
      CountedCondition(limit, a, scopes, n, if rightFirst then IrEval<nat>(Counting(limit), q.value, s, t).1 else s, t);
    case Short(_, _, a, b) =>
      CountedCondition(limit, a, scopes, n, s, t);
      var r := LowerExpr(a, scopes, n);
      CountedCondition(limit, b, scopes, r.next, IrEval<nat>(Counting(limit), r.value, s, t).1, t);
    case Try(_) =>
  }

  lemma {:induction false} CountedBody(limit: nat, fuel: nat, body: seq<Stmt>, s: nat)
    requires Plain(body)
    ensures var o := ExecBlock<nat>(Counting(limit), fuel, body, s); o.Next? && o.s >= s
    decreases |body|
  {
    if body != [] {
      if body[0].Defer? {
        CountedBody(limit, fuel, body[1..], s);
      } else {
        PureIsKept(body[0].value);
        CountedEval(limit, body[0].value, s);
        var o := Exec<nat>(Counting(limit), fuel, body[0], s);
        CountedBody(limit, fuel, body[1..], o.s);
      }
    }
  }

  /** A loop over a body of plain statements, with head expressions that are lowered
      right by themselves. The initializer of a `for` may be any assignment or call. */
  predicate PlainLoop(st: Stmt) {
    && (st.While? || st.For?) && Plain(st.body) && Kept(st.cond)
    && (st.For? ==> Simple(st.init) && Kept(st.init.value) && Simple(st.step) && Kept(st.step.value))
  }

  predicate PureHead(st: Stmt)
    requires PlainLoop(st)
  {
    NoTry(st.cond) && (st.For? ==> NoTry(st.step.value))
  }

  lemma LoopFormed(st: Stmt)
    requires PlainLoop(st)
    ensures FormedAll([st]) && Formed(st) && (PureHead(st) ==> OrderlyAll([st]))
  {
    PlainIsFormed(st.body);
    assert Formed(st);
    assert PureHead(st) ==> Orderly(st);
    assert [st][1..] == [];
  }

  /** More than all reads of the head. */
  function Limit(st: Stmt): nat
    requires PlainLoop(st)
  {
    Reads(st.cond) + if st.For? then Reads(st.init.value) + Reads(st.step.value) else 0
  }

  /** For loops over plain bodies, lowering keeps the meaning exactly if there is no
      `?` in the condition, nor in the increment of a `for`: these are decided once
      instead of in every iteration. */
  lemma LoopHeadCondition(st: Stmt)
    requires PlainLoop(st) && FormedAll([st])
    ensures KeepsMeaning<nat>(st) <==> PureHead(st)
  {
    LoopFormed(st);
    if PureHead(st) {
      forall m: Meaning<nat>, fuel: nat, s: nat
        ensures IrRun(m, fuel, LowerBlock([st], [], false, 0).code, s) == Run(m, fuel, [st], s)
      {
        LoweringPreservesMeaning(m, fuel, [st], 0, s);
      }
    } else {
      var m, fuel := Counting(Limit(st)), Limit(st) + 1;
      SourceStops(st);
      LoweredGoesOn(st);
      assert Run<nat>(m, fuel, [st], 0) != NoResult;
      assert !KeepsMeaning<nat>(st);
    }
  }

  /** The source passes the limit in its head sooner or later. */
  lemma {:induction false} LoopStops(limit: nat, st: Stmt, fuel: nat, s: nat)
    requires PlainLoop(st) && !PureHead(st) && fuel >= 1 && fuel + s >= limit + 1
    ensures ExecLoop<nat>(Counting(limit), fuel, st, s).Leaving?
    decreases fuel
  {
    hide Eval, ExecBlock;
    CountedEval(limit, st.cond, s);
    var r := Eval<nat>(Counting(limit), st.cond, s);
    if r.Got? {
      CountedBody(limit, fuel - 1, st.body, r.s);
      var o := ExecBlock<nat>(Counting(limit), fuel - 1, st.body, r.s);
      if st.While? {
        LoopStops(limit, st, fuel - 1, o.s);
      } else {
        CountedEval(limit, st.step.value, o.s);
        var q := Eval<nat>(Counting(limit), st.step.value, o.s);
        if q.Got? { LoopStops(limit, st, fuel - 1, q.s); }
      }
    }
  }

  lemma SourceStops(st: Stmt)
    requires PlainLoop(st) && !PureHead(st)
    ensures Run<nat>(Counting(Limit(st)), Limit(st) + 1, [st], 0).Returned?
  {
    hide ExecLoop, Eval;
    var limit := Limit(st);
    if st.While? {
      LoopStops(limit, st, limit + 1, 0);
    } else {
      CountedEval(limit, st.init.value, 0);
      LoopStops(limit, st, limit + 1, Eval<nat>(Counting(limit), st.init.value, 0).s);
    }
    assert Exec<nat>(Counting(limit), limit + 1, st, 0).Leaving?;
    assert ExecBlock<nat>(Counting(limit), limit + 1, [st], 0).Leaving?;
  }

  /** Behind it, the lowered loop never meets another test. */
  lemma {:induction false} LoopGoesOn(limit: nat, st: Stmt, x: IrStmt, scopes: seq<Scope>, n: nat, k: nat, fuel: nat,
                                      s: nat, t: Tmps)
    requires PlainLoop(st) && Formed(st) && (x.IWhile? || x.IFor?)
    requires x.cond == LowerExpr(st.cond, scopes, n).value && x.body == LowerBlock(st.body, scopes, true, k).code
    requires x.IFor? ==> x.step.ISet? || x.step.IExpr?
    ensures IrLoop<nat>(Counting(limit), fuel, x, s, t) == IOutOfFuel
    decreases fuel
  {
    hide LowerExpr, LowerBlock, IrExecAll, IrEval;
    if fuel > 0 {
      CountedCondition(limit, st.cond, scopes, n, s, t);
      var r := IrEval<nat>(Counting(limit), x.cond, s, t);
      BodyRuns(limit, fuel - 1, st.body, scopes, k, r.1, t);
      var o := IrExecAll<nat>(Counting(limit), fuel - 1, x.body, r.1, t);
      if x.IWhile? {
        LoopGoesOn(limit, st, x, scopes, n, k, fuel - 1, o.s, o.t);
      } else {
        var q := IrExec<nat>(Counting(limit), fuel - 1, x.step, o.s, o.t);
        LoopGoesOn(limit, st, x, scopes, n, k, fuel - 1, q.s, q.t);
      }
    }
  }

  lemma BodyRuns(limit: nat, fuel: nat, body: seq<Stmt>, scopes: seq<Scope>, n: nat, s: nat, t: Tmps)
    requires Plain(body) && FormedAll(body)
    ensures IrExecAll<nat>(Counting(limit), fuel, LowerBlock(body, scopes, true, n).code, s, t).INext?
  {
    PlainRuns(Counting(limit), fuel, body, scopes + [Scope([], true)], n, s, t);
  }

  lemma PreRuns(limit: nat, e: Expr, scopes: seq<Scope>, n: nat, fuel: nat, s: nat, t: Tmps)
    requires Kept(e) && s + Reads(e) <= limit
    ensures var o := IrExecAll<nat>(Counting(limit), fuel, LowerExpr(e, scopes, n).pre, s, t);
      o.INext? && o.s <= s + Reads(e)
  {
    hide IrExecAll, LowerExpr;
    HoistExpr(Counting(limit), fuel, e, scopes, n, s, t);
    CountedRest(limit, e, s);
  }

  lemma SimplePre(st: Stmt, scopes: seq<Scope>, n: nat)
    requires Simple(st) && Formed(st)
    ensures var x, r := LowerStmt(st, scopes, n), LowerExpr(st.value, scopes, n); x.pre == r.pre && x.next == r.next
  {
  }

  lemma ForPreRuns(st: Stmt, scopes: seq<Scope>, n: nat, fuel: nat)
    requires st.For? && PlainLoop(st) && Formed(st)
    ensures IrExecAll<nat>(Counting(Limit(st)), fuel, LowerStmt(st, scopes, n).pre, 0, map[]).INext?
  {
    var limit := Limit(st);
    var m := Counting(limit);
    var i := LowerExpr(st.init.value, scopes, n);
    var r := LowerExpr(st.cond, scopes, i.next);
    var g := LowerExpr(st.step.value, scopes, r.next);
    SimplePre(st.init, scopes, n);
    SimplePre(st.step, scopes, r.next);
    assert LowerStmt(st, scopes, n).pre == i.pre + (r.pre + g.pre);
    hide LowerExpr, LowerStmt, IrExecAll;
    PreRuns(limit, st.init.value, scopes, n, fuel, 0, map[]);
    var o := IrExecAll<nat>(m, fuel, i.pre, 0, map[]);
    IrExecCat(m, fuel, i.pre, r.pre + g.pre, 0, map[]);
    PreRuns(limit, st.cond, scopes, i.next, fuel, o.s, o.t);
    var q := IrExecAll<nat>(m, fuel, r.pre, o.s, o.t);
    IrExecCat(m, fuel, r.pre, g.pre, o.s, o.t);
    PreRuns(limit, st.step.value, scopes, r.next, fuel, q.s, q.t);
  }

  lemma LoweredGoesOn(st: Stmt)
    requires PlainLoop(st) && FormedAll([st]) && Formed(st)
    ensures IrRun<nat>(Counting(Limit(st)), Limit(st) + 1, LowerBlock([st], [], false, 0).code, 0) == NoResult
  {
    var m, fuel, scopes := Counting(Limit(st)), Limit(st) + 1, [Scope([], false)];
    var x := LowerStmt(st, scopes, 0);
    var y := LowerRest([], scopes, x.next);
    assert [] + scopes == scopes && [st][1..] == [];
    assert LowerRest([st], scopes, 0).code == (x.pre + [x.stmt]) + y.code;
    IrExecCat(m, fuel, x.pre + [x.stmt], y.code, 0, map[]);
    PreThen(m, fuel, x.pre, x.stmt, 0, map[]);
    LoweredLoops(st, scopes, fuel);
  }

  lemma LoweredLoops(st: Stmt, scopes: seq<Scope>, fuel: nat)
    requires PlainLoop(st) && Formed(st)
    ensures var m, x := Counting(Limit(st)), LowerStmt(st, scopes, 0);
      var o := IrExecAll<nat>(m, fuel, x.pre, 0, map[]);
      o.INext? && IrExec<nat>(m, fuel, x.stmt, o.s, o.t) == IOutOfFuel
  {
    var limit, x := Limit(st), LowerStmt(st, scopes, 0);
    var m := Counting(limit);
    if st.While? {
      PreRuns(limit, st.cond, scopes, 0, fuel, 0, map[]);
      var o := IrExecAll<nat>(m, fuel, x.pre, 0, map[]);
      LoopGoesOn(limit, st, x.stmt, scopes, 0, LowerExpr(st.cond, scopes, 0).next, fuel, o.s, o.t);
    } else {
      ForPreRuns(st, scopes, 0, fuel);
      var o := IrExecAll<nat>(m, fuel, x.pre, 0, map[]);
      var i := LowerStmt(st.init, scopes, 0);
      var r := LowerExpr(st.cond, scopes, i.next);
      var g := LowerStmt(st.step, scopes, r.next);
      var q := IrExec<nat>(m, fuel, i.stmt, o.s, o.t);
      LoopGoesOn(limit, st, x.stmt, scopes, i.next, g.next, fuel, q.s, q.t);
    }
  }
}
