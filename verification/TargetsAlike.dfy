/** Programs of words go the same way on all three targets: the same tests in the same
    order, the same calls, the same exits. */
module TargetsAlike {
  import opened Frames
  import opened Calls
  import opened StackCode
  import opened SourceFlow
  import opened Placement

  type Stmt = StackCode.Stmt

  type Arm = StackCode.Arm

  /** No value of more than a word, and no struct or enum that is built or taken apart. */
  predicate OfWords(v: Value)
    decreases v, 0
  {
    v.size.Scalar? &&
    match v
    case Wrap(_, a) => OfWords(a)
    case Binary(_, a, b) => OfWords(a) && OfWords(b)
    case Logical(_, _, a, b) => OfWords(a) && OfWords(b)
    case Call(_, _, args) => AllOfWords(args)
    case Literal(_, _, _) => false
    case FieldOf(_, _, _) => false
    case _ => true
  }

  predicate AllOfWords(vs: seq<Value>)
    decreases vs, 0
  {
    vs == [] || (OfWords(vs[0]) && AllOfWords(vs[1..]))
  }

  predicate StmtOfWords(st: Stmt)
    decreases st, 1
  {
    match st
    case Let(v) => OfWords(v)
    case Assign(_, v) => OfWords(v)
    case Store(v, target) => OfWords(v) && OfWords(target)
    case Expr(v) => OfWords(v)
    case If(c, a, b) => OfWords(c) && BodyOfWords(a) && BodyOfWords(b)
    case While(c, body) => OfWords(c) && BodyOfWords(body)
    case For(init, c, step, body) => StmtOfWords(init) && OfWords(c) && StmtOfWords(step) && BodyOfWords(body)
    case Match(v, arms) => OfWords(v) && ArmsOfWords(arms)
    case Return(v) => OfWords(v)
    case _ => true
  }

  predicate BodyOfWords(body: seq<Stmt>)
    decreases body, 0
  {
    body == [] || (StmtOfWords(body[0]) && BodyOfWords(body[1..]))
  }

  predicate ArmsOfWords(arms: seq<Arm>)
    decreases arms, 0
  {
    arms == [] || (BodyOfWords(arms[0].body) && ArmsOfWords(arms[1..]))
  }

  lemma {:induction false} WordAt(vs: seq<Value>, i: nat)
    requires AllOfWords(vs) && i < |vs|
    ensures OfWords(vs[i])
    decreases |vs|
  {
    if i > 0 { WordAt(vs[1..], i - 1); }
  }

  // ---- arguments ----

  /** The arguments below `k` down to `low`, from the last to the first. */
  function Backwards(args: seq<Value>, k: nat, low: nat, cs: seq<bool>): (r: Run)
    requires k <= |args|
    ensures r.acc.Unknown? && (r.kind.Normal? || r.kind.Stopped?)
  {
    if k <= low then Done(cs) else
    var r := RunValue(I386, args[k - 1], cs);
    if r.kind.Normal? then Then(r, Backwards(args, k - 1, low, r.cs)) else Forget(r)
  }

  lemma {:induction false} BackwardsOn(args: seq<Value>, k: nat, low: nat, cs: seq<bool>)
    requires low <= k <= |args|
    ensures var r := Backwards(args, k, low, cs);
      Backwards(args, k, 0, cs) == if r.kind.Normal? then Then(r, Backwards(args, low, 0, r.cs)) else r
  {
    hide RunValue;
    if k > low {
      var r := RunValue(I386, args[k - 1], cs);
      if r.kind.Normal? {
        BackwardsOn(args, k - 1, low, r.cs);
        var q := Backwards(args, k - 1, low, r.cs);
        if q.kind.Normal? {
          var p := Backwards(args, low, 0, q.cs);
          assert (r.calls + q.calls) + p.calls == r.calls + (q.calls + p.calls);
        }
      }
    } else {
      var p := Backwards(args, low, 0, cs);
      assert [] + p.calls == p.calls;
    }
  }

  function InRegistersOf(t: Target): nat {
    match t
    case I386 => 0
    case X64 => 6
    case Arm64 => 8
  }

  function Least(a: nat, b: nat): nat {
    if a < b then a else b
  }

  lemma WordGoes(t: Target, args: seq<Value>, i: nat)
    requires AllOfWords(args) && i < |args|
    ensures InRegisters(t, ArgChunks(t, args), i) <==> i < InRegistersOf(t)
    ensures Chunks(t, args[i].size) == 1
  {
    hide InRegisters, Ahead;
    var ns := ArgChunks(t, args);
    forall k | 0 <= k < |ns| ensures ns[k] == 1 { WordAt(args, k); }
    WordsAhead(t, ns, i);
    TakesRegisters(t, ns, i);
  }

  lemma OneChunk(t: Target, v: Value, cs: seq<bool>)
    requires OfWords(v)
    ensures var r := Forget(RunValue(t, v, cs)); RunChunksDown(t, v, 1, cs) == r && RunChunksUp(t, v, 0, 1, cs) == r
  {
    hide RunValue;
    var r := RunValue(t, v, cs);
    assert r.calls + [] == r.calls;
    assert RunChunk(t, v, 0, cs) == r;
    assert RunChunksUp(t, v, 1, 1, r.cs) == Done(r.cs);
    assert RunChunksDown(t, v, 0, r.cs) == Done(r.cs);
  }

  ghost predicate Alike(t: Target, v: Value) {
    forall cs :: RunValue(t, v, cs) == RunValue(I386, v, cs)
  }

  /** Those on the stack from the last down to the first of them, those in registers
      from there on. */
  lemma {:induction false} ArgumentsAre(t: Target, args: seq<Value>, k: nat, inRegisters: bool, cs: seq<bool>)
    requires AllOfWords(args) && k <= |args| && forall i :: 0 <= i < |args| ==> Alike(t, args[i])
    ensures RunArguments(t, args, k, inRegisters, cs) ==
      if inRegisters then Backwards(args, Least(k, InRegistersOf(t)), 0, cs)
      else Backwards(args, k, InRegistersOf(t), cs)
    decreases k
  {
    hide RunValue, RunChunksDown, InRegisters, ArgChunks, Chunks;
    if k > 0 {
      WordGoes(t, args, k - 1);
      WordAt(args, k - 1);
      if (k - 1 < InRegistersOf(t)) != inRegisters {
        ArgumentsAre(t, args, k - 1, inRegisters, cs);
      } else {
        OneChunk(t, args[k - 1], cs);
        assert Alike(t, args[k - 1]);
        var r := RunValue(t, args[k - 1], cs);
        assert r == RunValue(I386, args[k - 1], cs);
        ArgumentsAre(t, args, k - 1, inRegisters, r.cs);
      }
    }
  }

  /** Whatever the target, the arguments run from the last to the first. */
  lemma CallIs(t: Target, v: Value, cs: seq<bool>)
    requires v.Call? && AllOfWords(v.args) && forall i :: 0 <= i < |v.args| ==> Alike(t, v.args[i])
    ensures var r := Backwards(v.args, |v.args|, 0, cs);
      RunCall(t, v, cs) == if r.kind.Normal? then Run(Normal, Unknown, r.cs, r.calls + [v.callee]) else r
  {
    hide RunArguments, Backwards, Alike;
    var n, low := |v.args|, InRegistersOf(t);
    var a := RunArguments(t, v.args, n, false, cs);
    ArgumentsAre(t, v.args, n, false, cs);
    if n <= low { NoneOnStack(v.args, n, low, cs); } else { BackwardsOn(v.args, n, low, cs); }
    if a.kind.Normal? {
      ArgumentsAre(t, v.args, n, true, a.cs);
      var b := RunArguments(t, v.args, n, true, a.cs);
      assert (a.calls + b.calls) + [v.callee] == a.calls + (b.calls + [v.callee]);
      assert [] + b.calls == b.calls;
    }
  }

  lemma NoneOnStack(args: seq<Value>, n: nat, low: nat, cs: seq<bool>)
    requires n == |args| && n <= low
    ensures Backwards(args, n, low, cs) == Done(cs)
  {
  }

  lemma {:induction false} ValueAlike(t: Target, v: Value)
    requires OfWords(v)
    ensures Alike(t, v)
    decreases v
  {
    hide RunCall, Alike;
    match v
    case Wrap(_, a) =>
      ValueAlike(t, a);
      WrapAlike(t, v);
    case Binary(_, a, b) =>
      ValueAlike(t, a);
      ValueAlike(t, b);
      BinaryAlike(t, v);
    case Logical(_, _, a, b) =>
      ValueAlike(t, a);
      ValueAlike(t, b);
      LogicalAlike(t, v);
    case Call(_, _, args) =>
      forall i | 0 <= i < |args| ensures Alike(t, args[i]) && Alike(I386, args[i]) {
        WordAt(args, i);
        ValueAlike(t, args[i]);
        SameAlike(args[i]);
      }
      CallAlike(t, v);
    case _ => LeafAlike(t, v);
  }

  lemma SameAlike(v: Value)
    ensures Alike(I386, v)
  {
  }

  lemma LeafAlike(t: Target, v: Value)
    requires v.StringLiteral? || v.Leaf? || v.Increment?
    ensures Alike(t, v)
  {
  }

  lemma WrapAlike(t: Target, v: Value)
    requires v.Wrap? && Alike(t, v.operand)
    ensures Alike(t, v)
  {
    forall cs ensures RunValue(t, v, cs) == RunValue(I386, v, cs) {
      assert RunValue(t, v.operand, cs) == RunValue(I386, v.operand, cs);
    }
  }

  lemma BinaryAlike(t: Target, v: Value)
    requires v.Binary? && Alike(t, v.lhs) && Alike(t, v.rhs)
    ensures Alike(t, v)
  {
    forall cs ensures RunValue(t, v, cs) == RunValue(I386, v, cs) {
      var r := RunValue(t, v.lhs, cs);
      assert r == RunValue(I386, v.lhs, cs);
      assert RunValue(t, v.rhs, r.cs) == RunValue(I386, v.rhs, r.cs);
    }
  }

  lemma LogicalAlike(t: Target, v: Value)
    requires v.Logical? && Alike(t, v.lhs) && Alike(t, v.rhs)
    ensures Alike(t, v)
  {
    forall cs ensures RunValue(t, v, cs) == RunValue(I386, v, cs) {
      assert RunValue(t, v.lhs, cs) == RunValue(I386, v.lhs, cs);
      var r := Decided(RunValue(t, v.lhs, cs));
      assert RunValue(t, v.rhs, r.cs) == RunValue(I386, v.rhs, r.cs);
    }
  }

  lemma CallAlike(t: Target, v: Value)
    requires v.Call? && AllOfWords(v.args)
    requires forall i :: 0 <= i < |v.args| ==> Alike(t, v.args[i]) && Alike(I386, v.args[i])
    ensures Alike(t, v)
  {
    hide RunCall, Backwards;
    forall cs ensures RunValue(t, v, cs) == RunValue(I386, v, cs) {
      CallIs(t, v, cs);
      CallIs(I386, v, cs);
    }
  }

  // ---- statements ----

  lemma WordValue(t: Target, v: Value, cs: seq<bool>)
    requires OfWords(v)
    ensures RunValue(t, v, cs) == RunValue(I386, v, cs) && Chunks(t, v.size) == Chunks(I386, v.size) == 1
    ensures RunChunksUp(t, v, 0, 1, cs) == RunChunksUp(I386, v, 0, 1, cs) == Forget(RunValue(I386, v, cs))
  {
    hide RunValue, RunChunksUp;
    ValueAlike(t, v);
    assert Alike(t, v);
    OneChunk(t, v, cs);
    OneChunk(I386, v, cs);
  }

  /** On all three targets a statement of words makes the same run. */
  lemma {:induction false} StmtAlike(t: Target, st: Stmt, cs: seq<bool>)
    requires StmtOfWords(st)
    ensures RunStmt(t, st, cs) == RunStmt(I386, st, cs)
    decreases |cs|, st, 2
  {
    hide RunValue, RunChunksUp, Choose, RunLoop, RunBody, Chunks, OfWords;
    match st
    case Let(v) => WordValue(t, v, cs);
    case Assign(_, v) => WordValue(t, v, cs);
    case Store(v, target) =>
      WordValue(t, v, cs);
      WordValue(t, target, RunValue(I386, v, cs).cs);
    case Expr(v) => WordValue(t, v, cs);
    case If(cond, a, b) =>
      WordValue(t, cond, cs);
      var r := Decided(RunValue(t, cond, cs));
      if r.kind.Normal? && r.acc.Known? { BodyAlike(t, if r.acc.value then a else b, r.cs); }
    case While(_, _) => LoopAlike(t, st, cs);
    case For(init, _, _, _) =>
      StmtAlike(t, init, cs);
      LoopAlike(t, st, RunStmt(I386, init, cs).cs);
    case Match(_, _) => MatchAlike(t, st, cs);
    case Return(v) => WordValue(t, v, cs);
    case _ =>
  }

  lemma {:induction false} ArmOfWords(arms: seq<Arm>, i: nat)
    requires ArmsOfWords(arms) && i < |arms|
    ensures BodyOfWords(arms[i].body)
    decreases |arms|
  {
    if i > 0 { ArmOfWords(arms[1..], i - 1); }
  }

  lemma MatchAlike(t: Target, st: Stmt, cs: seq<bool>)
    requires st.Match? && StmtOfWords(st)
    ensures RunStmt(t, st, cs) == RunStmt(I386, st, cs)
    decreases |cs|, st, 1
  {
    hide RunValue, RunChunksUp, Choose, RunBody, Chunks, OfWords, LastDefault;
    WordValue(t, st.value, cs);
    var r := RunToSlots(I386, st.value, cs);
    assert RunToSlots(t, st.value, cs) == r;
    var chosen := Choose(st.arms, r.cs);
    if !chosen.Out? {
      var arm := if chosen.Hit? then chosen.arm else LastDefault(st.arms);
      if arm < |st.arms| {
        ArmOfWords(st.arms, arm);
        BodyAlike(t, st.arms[arm].body, chosen.cs);
      }
    }
  }

  lemma BodyAlike(t: Target, body: seq<Stmt>, cs: seq<bool>)
    requires BodyOfWords(body)
    ensures RunBody(t, body, cs) == RunBody(I386, body, cs)
    decreases |cs|, body, 0
  {
    hide RunStmt, StmtOfWords;
    if body != [] {
      StmtAlike(t, body[0], cs);
      BodyAlike(t, body[1..], RunStmt(I386, body[0], cs).cs);
    }
  }

  lemma LoopAlike(t: Target, st: Stmt, cs: seq<bool>)
    requires (st.While? || st.For?) && StmtOfWords(st)
    ensures RunLoop(t, st, cs) == RunLoop(I386, st, cs)
    decreases |cs|, st, 1
  {
    hide RunValue, RunBody, RunStmt, OfWords, BodyOfWords;
    WordValue(t, st.cond, cs);
    var r := Decided(RunValue(I386, st.cond, cs));
    if !r.kind.Normal? || !r.acc.Known? || !r.acc.value { return; }
    ShorterLoop(st, cs);
    BodyAlike(t, st.body, r.cs);
    var b := RunBody(I386, st.body, r.cs);
    if st.While? {
      LoopAlike(t, st, b.cs);
    } else {
      StmtAlike(t, st.step, b.cs);
      LoopAlike(t, st, RunStmt(I386, st.step, b.cs).cs);
    }
  }

  lemma ShorterLoop(st: Stmt, cs: seq<bool>)
    requires st.While? || st.For?
    ensures var r := Decided(RunValue(I386, st.cond, cs)); r.kind.Normal? ==> |r.cs| < |cs|
  {
    hide RunValue;
  }
}
