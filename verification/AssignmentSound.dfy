/** The analysis is sound: a program without diagnostics reads no local before it
    has been assigned, in no prefix of any run. */
module AssignmentSound {
  import opened DefiniteAssignment

  // ---- divergence ----

  /** Every match whose arms all diverge is exhaustive. The divergence check
      presupposes this, but it is enforced for enums only. */
  predicate Honest(st: Stmt)
    decreases st, 1
  {
    match st
    case If(_, a, b) => HonestAll(a) && HonestAll(b)
    case Match(_, on, arms) => HonestArms(arms) && (Diverges(st) ==> Exhaustive(on, arms))
    case While(_, body) => HonestAll(body)
    case For(init, _, step, body) => Honest(init) && Honest(step) && HonestAll(body)
    case Unsafe(body) => HonestAll(body)
    case _ => true
  }

  predicate HonestAll(body: seq<Stmt>)
    decreases body, 0
  {
    body == [] || (Honest(body[0]) && HonestAll(body[1..]))
  }

  predicate HonestArms(arms: seq<Arm>)
    decreases arms, 0
  {
    arms == [] || (HonestAll(arms[0].body) && HonestArms(arms[1..]))
  }

  /** What the divergence check claims holds of honest statements. */
  lemma {:induction false} DivergingNeverCompletes(gl: set<string>, st: Stmt, env: Env, cs: seq<nat>)
    requires Diverges(st) && Honest(st)
    ensures !Exec(gl, st, env, cs).kind.Normal?
    decreases st, 1
  {
    match st
    case If(c, a, b) =>
      var r := Eval(gl, c, env, cs);
      if r.kind.Normal? && r.cs != [] {
        BodyNeverCompletes(gl, if r.cs[0] != 0 then a else b, env, r.cs[1..]);
      }
    case Match(e, on, arms) =>
      var r := Eval(gl, e, env, cs);
      if r.kind.Normal? && r.cs != [] && (on.Wide? || on.n != 0) {
        var v := if on.Wide? then r.cs[0] else r.cs[0] % on.n;
        ExhaustiveTakes(on, arms, v);
        ArmsNeverComplete(gl, arms, v, env, r.cs[1..]);
      }
    case Unsafe(body) => BodyNeverCompletes(gl, body, env, cs);
    case _ =>
  }

  lemma ExhaustiveTakes(on: Domain, arms: seq<Arm>, v: nat)
    requires Exhaustive(on, arms) && (on.Wide? || v < on.n)
    ensures Taken(arms, v)
  {
    if HasDefault(arms) {
      var i :| 0 <= i < |arms| && Default in arms[i].patterns;
      assert Hits(arms[i], v);
    }
  }

  lemma BodyNeverCompletes(gl: set<string>, body: seq<Stmt>, env: Env, cs: seq<nat>)
    requires BodyDiverges(body) && HonestAll(body)
    ensures !ExecBody(gl, body, env, cs).kind.Normal?
    decreases body, 0
  {
    if |body| == 1 {
      DivergingNeverCompletes(gl, body[0], env, cs);
    } else if body[0].Defer? {
      BodyNeverCompletes(gl, body[1..], env, cs);
    } else {
      var r := Exec(gl, body[0], env, cs);
      if r.kind.Normal? { BodyNeverCompletes(gl, body[1..], r.env, r.cs); }
    }
  }

  lemma ArmsNeverComplete(gl: set<string>, arms: seq<Arm>, v: nat, env: Env, cs: seq<nat>)
    requires ArmsDiverge(arms) && HonestArms(arms) && Taken(arms, v)
    ensures !ExecArms(gl, arms, v, env, cs).kind.Normal?
    decreases arms, 0
  {
    if Hits(arms[0], v) {
      BodyNeverCompletes(gl, arms[0].body, Bind(env, arms[0].bindings), cs);
    } else {
      var i :| 0 <= i < |arms| && Hits(arms[i], v);
      assert arms[1..][i - 1] == arms[i];
      ArmsNeverComplete(gl, arms[1..], v, env, cs);
    }
  }

  ghost predicate NeverCompletes(gl: set<string>, st: Stmt) {
    forall env: Env, cs: seq<nat> :: !Exec(gl, st, env, cs).kind.Normal?
  }

  ghost predicate CanComplete(gl: set<string>, e: Expr) {
    exists env: Env, cs: seq<nat> :: Eval(gl, e, env, cs).kind.Normal?
  }

  /** The evaluation completes and uses up just these choices. */
  ghost predicate Uses(gl: set<string>, e: Expr, env: Env, used: seq<nat>) {
    forall more :: Eval(gl, e, env, used + more) == Run(Normal, env, more)
  }

  ghost predicate UsesAll(gl: set<string>, args: seq<Expr>, env: Env, used: seq<nat>) {
    forall more :: EvalAll(gl, args, env, used + more) == Run(Normal, env, more)
  }

  lemma {:induction false} EvalUses(gl: set<string>, e: Expr, env: Env, cs: seq<nat>) returns (used: seq<nat>)
    requires Eval(gl, e, env, cs).kind.Normal?
    ensures Uses(gl, e, env, used)
    decreases e, 1
  {
    hide Uses, UsesAll;
    match e
    case Name(x) =>
      used := [];
      NameUses(gl, x, env, cs);
    case Node(args) =>
      used := EvalAllUses(gl, args, env, cs);
      NodeUses(gl, args, env, used);
    case Short(a, b) =>
      var first := EvalUses(gl, a, env, cs);
      var r := Eval(gl, a, env, cs).cs;
      var second := [];
      if r[0] != 0 { second := EvalUses(gl, b, env, r[1..]); }
      ShortUses(gl, a, b, env, first, r[0], second);
      used := first + ([r[0]] + second);
    case Try(a) =>
      var first := EvalUses(gl, a, env, cs);
      TryUses(gl, a, env, first);
      used := first + [1];
  }

  lemma EvalAllUses(gl: set<string>, args: seq<Expr>, env: Env, cs: seq<nat>) returns (used: seq<nat>)
    requires EvalAll(gl, args, env, cs).kind.Normal?
    ensures UsesAll(gl, args, env, used)
    decreases args, 0
  {
    hide Uses, UsesAll;
    if args == [] {
      used := [];
      NoneUses(gl, env);
    } else {
      var first := EvalUses(gl, args[0], env, cs);
      var rest := EvalAllUses(gl, args[1..], env, Eval(gl, args[0], env, cs).cs);
      MoreUses(gl, args, env, first, rest);
      used := first + rest;
    }
  }

  lemma UsesAt(gl: set<string>, e: Expr, env: Env, used: seq<nat>, more: seq<nat>)
    requires Uses(gl, e, env, used)
    ensures Eval(gl, e, env, used + more) == Run(Normal, env, more)
  {
    hide Eval;
  }

  lemma UsesAllAt(gl: set<string>, args: seq<Expr>, env: Env, used: seq<nat>, more: seq<nat>)
    requires UsesAll(gl, args, env, used)
    ensures EvalAll(gl, args, env, used + more) == Run(Normal, env, more)
  {
    hide EvalAll;
  }

  lemma NameUses(gl: set<string>, x: string, env: Env, cs: seq<nat>)
    requires Eval(gl, Name(x), env, cs).kind.Normal?
    ensures Uses(gl, Name(x), env, [])
  {
    forall more ensures Eval(gl, Name(x), env, [] + more) == Run(Normal, env, more) { assert [] + more == more; }
  }

  lemma NodeUses(gl: set<string>, args: seq<Expr>, env: Env, used: seq<nat>)
    requires UsesAll(gl, args, env, used)
    ensures Uses(gl, Node(args), env, used)
  {
    hide EvalAll;
  }

  lemma ShortAt(gl: set<string>, a: Expr, b: Expr, env: Env, first: seq<nat>, choice: nat, second: seq<nat>,
                more: seq<nat>)
    requires Uses(gl, a, env, first) && (if choice == 0 then second == [] else Uses(gl, b, env, second))
    ensures Eval(gl, Short(a, b), env, (first + ([choice] + second)) + more) == Run(Normal, env, more)
  {
    hide Uses;
    var rest := second + more;
    assert (first + ([choice] + second)) + more == first + ([choice] + rest) && ([choice] + rest)[1..] == rest;
    UsesAt(gl, a, env, first, [choice] + rest);
    if choice == 0 { assert rest == more; } else { UsesAt(gl, b, env, second, more); }
  }

  lemma ShortUses(gl: set<string>, a: Expr, b: Expr, env: Env, first: seq<nat>, choice: nat, second: seq<nat>)
    requires Uses(gl, a, env, first) && (if choice == 0 then second == [] else Uses(gl, b, env, second))
    ensures Uses(gl, Short(a, b), env, first + ([choice] + second))
  {
    hide Eval;
    forall more ensures Eval(gl, Short(a, b), env, (first + ([choice] + second)) + more) == Run(Normal, env, more) {
      ShortAt(gl, a, b, env, first, choice, second, more);
    }
  }

  lemma TryAt(gl: set<string>, a: Expr, env: Env, first: seq<nat>, more: seq<nat>)
    requires Uses(gl, a, env, first)
    ensures Eval(gl, Try(a), env, (first + [1]) + more) == Run(Normal, env, more)
  {
    hide Uses;
    assert (first + [1]) + more == first + ([1] + more) && ([1] + more)[1..] == more;
    UsesAt(gl, a, env, first, [1] + more);
  }

  lemma TryUses(gl: set<string>, a: Expr, env: Env, first: seq<nat>)
    requires Uses(gl, a, env, first)
    ensures Uses(gl, Try(a), env, first + [1])
  {
    hide Eval;
    forall more ensures Eval(gl, Try(a), env, (first + [1]) + more) == Run(Normal, env, more) {
      TryAt(gl, a, env, first, more);
    }
  }

  lemma NoneUses(gl: set<string>, env: Env)
    ensures UsesAll(gl, [], env, [])
  {
    forall more ensures EvalAll(gl, [], env, [] + more) == Run(Normal, env, more) { assert [] + more == more; }
  }

  lemma MoreAt(gl: set<string>, args: seq<Expr>, env: Env, first: seq<nat>, rest: seq<nat>, more: seq<nat>)
    requires args != [] && Uses(gl, args[0], env, first) && UsesAll(gl, args[1..], env, rest)
    ensures EvalAll(gl, args, env, (first + rest) + more) == Run(Normal, env, more)
  {
    hide Uses, UsesAll, Eval;
    assert (first + rest) + more == first + (rest + more);
    UsesAt(gl, args[0], env, first, rest + more);
    UsesAllAt(gl, args[1..], env, rest, more);
  }

  lemma MoreUses(gl: set<string>, args: seq<Expr>, env: Env, first: seq<nat>, rest: seq<nat>)
    requires args != [] && Uses(gl, args[0], env, first) && UsesAll(gl, args[1..], env, rest)
    ensures UsesAll(gl, args, env, first + rest)
  {
    hide Eval, EvalAll;
    forall more ensures EvalAll(gl, args, env, (first + rest) + more) == Run(Normal, env, more) {
      MoreAt(gl, args, env, first, rest, more);
    }
  }

  /** Exactly when the divergence check is right about a match whose arms it finds
      diverging: it is exhaustive, or its value cannot be computed to the end. */
  lemma MatchDivergence(gl: set<string>, st: Stmt)
    requires st.Match? && Diverges(st) && HonestArms(st.arms)
    requires !st.on.Wide? ==> st.on.n > 0
    ensures NeverCompletes(gl, st) <==> Exhaustive(st.on, st.arms) || !CanComplete(gl, st.value)
  {
    if Exhaustive(st.on, st.arms) {
      forall env: Env, cs: seq<nat> ensures !Exec(gl, st, env, cs).kind.Normal? {
        DivergingNeverCompletes(gl, st, env, cs);
      }
    } else if CanComplete(gl, st.value) {
      var env: Env, cs: seq<nat> :| Eval(gl, st.value, env, cs).kind.Normal?;
      PastTheArms(gl, st, env, cs);
    } else {
      forall env: Env, cs: seq<nat> ensures !Exec(gl, st, env, cs).kind.Normal? {
        assert !Eval(gl, st.value, env, cs).kind.Normal?;
      }
    }
  }

  lemma PastTheArms(gl: set<string>, st: Stmt, env: Env, cs: seq<nat>)
    requires st.Match? && Eval(gl, st.value, env, cs).kind.Normal?
    requires !Exhaustive(st.on, st.arms) && (!st.on.Wide? ==> st.on.n > 0)
    ensures !NeverCompletes(gl, st)
  {
    hide Uses, Exhaustive, Taken, Eval, Exec;
    var v := Uncovered(st.on, st.arms);
    var used := EvalUses(gl, st.value, env, cs);
    UsesAt(gl, st.value, env, used, [v]);
    PassesThrough(gl, st, env, used + [v], v);
  }

  lemma PassesThrough(gl: set<string>, st: Stmt, env: Env, cs: seq<nat>, v: nat)
    requires st.Match? && Eval(gl, st.value, env, cs) == Run(Normal, env, [v])
    requires !Taken(st.arms, v) && (st.on.Wide? || v < st.on.n)
    ensures Exec(gl, st, env, cs).kind.Normal?
  {
    hide Taken, Eval;
    NoneTaken(gl, st.arms, v, env, []);
    assert [v][1..] == [];
  }

  /** A value that falls past the arms. */
  lemma Uncovered(on: Domain, arms: seq<Arm>) returns (v: nat)
    requires !Exhaustive(on, arms)
    ensures !Taken(arms, v) && (on.Wide? || v < on.n)
  {
    if on.Wide? {
      v := AboveAllArms(arms);
      assert forall i :: 0 <= i < |arms| ==> !Hits(arms[i], v);
    } else {
      v :| v < on.n && !Taken(arms, v);
    }
  }

  lemma {:induction false} AbovePatterns(patterns: seq<Pattern>) returns (v: nat)
    ensures forall w :: w >= v ==> Tag(w) !in patterns
  {
    v := 0;
    if patterns != [] {
      v := AbovePatterns(patterns[1..]);
      if patterns[0].Tag? && patterns[0].tag >= v { v := patterns[0].tag + 1; }
      assert forall q :: q in patterns ==> q == patterns[0] || q in patterns[1..];
    }
  }

  lemma {:induction false} AboveAllArms(arms: seq<Arm>) returns (v: nat)
    ensures forall i, w :: 0 <= i < |arms| && w >= v ==> Tag(w) !in arms[i].patterns
  {
    v := 0;
    if arms != [] {
      v := AboveAllArms(arms[1..]);
      var u := AbovePatterns(arms[0].patterns);
      if u > v { v := u; }
      assert forall i :: 0 < i < |arms| ==> arms[i] == arms[1..][i - 1];
    }
  }

  lemma {:induction false} NoneTaken(gl: set<string>, arms: seq<Arm>, v: nat, env: Env, cs: seq<nat>)
    requires !Taken(arms, v)
    ensures ExecArms(gl, arms, v, env, cs) == Run(Normal, env, cs)
    decreases |arms|
  {
    if arms != [] {
      assert !Hits(arms[0], v);
      assert forall i :: 0 <= i < |arms[1..]| ==> arms[1..][i] == arms[i + 1];
      NoneTaken(gl, arms[1..], v, env, cs);
    }
  }

  // ---- the uninitialized bit only falls ----

  predicate Falls(locals: Locals, locals': Locals) {
    forall x :: x in locals ==> x in locals' && (locals'[x] ==> locals[x])
  }

  lemma {:induction false} UninitializedOnlyFalls(gl: set<string>, locals: Locals, st: Stmt, depth: nat)
    ensures Falls(locals, Analyze(gl, locals, st, depth).locals)
    decreases st, 1
  {
    match st
    case If(_, a, b) =>
      UninitializedOnlyFallsAll(gl, locals, a, depth);
      UninitializedOnlyFallsAll(gl, locals, b, depth);
    case Match(_, _, arms) => UninitializedOnlyFallsArms(gl, locals, arms, depth, false);
    case Unsafe(body) => UninitializedOnlyFallsAll(gl, locals, body, depth);
    case _ =>
  }

  lemma UninitializedOnlyFallsAll(gl: set<string>, locals: Locals, body: seq<Stmt>, depth: nat)
    ensures Falls(locals, AnalyzeAll(gl, locals, body, depth).locals)
    decreases body, 0
  {
    if body != [] {
      UninitializedOnlyFalls(gl, locals, body[0], depth);
      UninitializedOnlyFallsAll(gl, Analyze(gl, locals, body[0], depth).locals, body[1..], depth);
    }
  }

  lemma UninitializedOnlyFallsArms(gl: set<string>, locals: Locals, arms: seq<Arm>, depth: nat, saw: bool)
    ensures forall b :: b in AnalyzeArms(gl, locals, arms, depth, saw).branches ==> Falls(locals, b)
    decreases arms, 0
  {
    if arms != [] {
      var b := BindLocals(locals, arms[0].bindings);
      BindFalls(locals, arms[0].bindings);
      UninitializedOnlyFallsAll(gl, b.locals, arms[0].body, depth);
      UninitializedOnlyFallsArms(gl, locals, arms[1..], depth, saw || Default in arms[0].patterns);
    }
  }

  lemma {:induction false} BindFalls(locals: Locals, names: seq<string>)
    ensures Falls(locals, BindLocals(locals, names).locals)
    decreases |names|
  {
    if names != [] {
      var x := names[0];
      BindFalls(if x in locals then locals else locals[x := false], names[1..]);
    }
  }

  // ---- soundness ----

  /** Whatever the analysis takes to be initialized has been assigned. */
  predicate Below(locals: Locals, env: Env) {
    forall x :: x in locals ==> x in env && (!locals[x] ==> env[x])
  }

  predicate Sound(locals: Locals, env: Env) {
    locals.Keys == env.Keys && Below(locals, env)
  }

  /** Locals stay, and what has been assigned stays assigned. */
  predicate Grows(env: Env, env': Env) {
    forall x :: x in env ==> x in env' && (env[x] ==> env'[x])
  }

  function Names(e: Expr): set<string>
    decreases e, 1
  {
    match e
    case Name(x) => {x}
    case Node(args) => AllNames(args)
    case Short(a, b) => Names(a) + Names(b)
    case Try(a) => Names(a)
  }

  function AllNames(args: seq<Expr>): set<string>
    decreases args, 0
  {
    if args == [] then {} else Names(args[0]) + AllNames(args[1..])
  }

  /** Of these names no new local has come up that has no value. */
  predicate NoneUnset(names: set<string>, env: Env, env': Env) {
    forall x :: x in names && x in env' ==> x in env || env'[x]
  }

  /** An expression that was checked earlier may run later, as long as the names in it
      mean what they meant, or locals that have been assigned. */
  lemma {:induction false} EvalSafe(gl: set<string>, locals: Locals, e: Expr, env: Env, cs: seq<nat>)
    requires CheckExpr(gl, locals, e) == [] && Below(locals, env) && NoneUnset(Names(e), locals, env)
    ensures !Eval(gl, e, env, cs).kind.Violation?
    decreases e, 1
  {
    match e
    case Name(_) =>
    case Node(args) => EvalAllSafe(gl, locals, args, env, cs);
    case Short(a, b) =>
      EvalSafe(gl, locals, a, env, cs);
      var r := Eval(gl, a, env, cs);
      if r.cs != [] { EvalSafe(gl, locals, b, env, r.cs[1..]); }
    case Try(a) => EvalSafe(gl, locals, a, env, cs);
  }

  lemma EvalAllSafe(gl: set<string>, locals: Locals, args: seq<Expr>, env: Env, cs: seq<nat>)
    requires CheckAll(gl, locals, args) == [] && Below(locals, env) && NoneUnset(AllNames(args), locals, env)
    ensures !EvalAll(gl, args, env, cs).kind.Violation?
    decreases args, 0
  {
    if args != [] {
      EvalSafe(gl, locals, args[0], env, cs);
      var r := Eval(gl, args[0], env, cs);
      if r.kind.Normal? { EvalAllSafe(gl, locals, args[1..], env, r.cs); }
    }
  }

  /** What the calls that a statement registers mention. */
  function Deferred(st: Stmt): set<string> {
    if st.Defer? then Names(st.call) else {}
  }

  /** No local is declared without a value under a name that a registered deferred call
      mentions, and loop heads are simple statements. `p` holds the names in the calls
      that are registered where the statement stands. */
  predicate Formed(p: set<string>, st: Stmt)
    decreases st, 1
  {
    match st
    case Let(x, i) => i.None? ==> x !in p
    case If(_, a, b) => FormedAll(p, a) && FormedAll(p, b)
    case Match(_, _, arms) => FormedArms(p, arms)
    case While(_, body) => FormedAll(p, body)
    case For(init, _, step, body) =>
      (init.Let? || init.Assign?) && (step.Assign? || step.Expr?) && Formed(p, init) && FormedAll(p, body)
    case Unsafe(body) => FormedAll(p, body)
    case _ => true
  }

  predicate FormedAll(p: set<string>, body: seq<Stmt>)
    decreases body, 0
  {
    body == [] || (Formed(p, body[0]) && FormedAll(p + Deferred(body[0]), body[1..]))
  }

  predicate FormedArms(p: set<string>, arms: seq<Arm>)
    decreases arms, 0
  {
    arms == [] || (FormedAll(p, arms[0].body) && FormedArms(p, arms[1..]))
  }

  /** What holds of a run of code that was analyzed to `locals'`. */
  predicate Safe(p: set<string>, locals': Locals, env: Env, r: Run) {
    && !r.kind.Violation? && Grows(env, r.env) && NoneUnset(p, env, r.env)
    && (r.kind.Normal? ==> Sound(locals', r.env))
  }

  /** The same for code with a scope of its own, which leaves the names alone. */
  predicate SafeScoped(p: set<string>, locals': Locals, env: Env, r: Run) {
    Safe(p, locals', env, r) && (r.kind.Normal? ==> r.env.Keys == env.Keys)
  }

  lemma SoundGrows(locals: Locals, env: Env, env': Env)
    requires Sound(locals, env) && Grows(env, env')
    ensures Below(locals, env') && (env'.Keys == env.Keys ==> Sound(locals, env'))
  {
  }

  lemma GrowsTrans(a: Env, b: Env, c: Env)
    requires Grows(a, b) && Grows(b, c)
    ensures Grows(a, c)
    ensures forall p :: NoneUnset(p, a, b) && NoneUnset(p, b, c) ==> NoneUnset(p, a, c)
  {
  }

  lemma RestrictGrows(env: Env, env': Env)
    requires Grows(env, env')
    ensures Grows(env, Restrict(env', env.Keys)) && Restrict(env', env.Keys).Keys == env.Keys
  {
  }

  /** The end of one branch, seen behind the join. */
  lemma MergeSound(locals: Locals, branches: seq<Locals>, b: Locals, env: Env, env': Env)
    requires Sound(locals, env) && Grows(env, env') && Sound(b, env') && b in branches
    ensures Sound(Merge(locals, branches), Restrict(env', env.Keys))
  {
  }

  lemma {:induction false} SafeStmt(gl: set<string>, p: set<string>, locals: Locals, st: Stmt, depth: nat, env: Env,
                                    cs: seq<nat>)
    requires Analyze(gl, locals, st, depth).diags == [] && Honest(st) && Formed(p, st) && Sound(locals, env)
    ensures Safe(p, Analyze(gl, locals, st, depth).locals, env, Exec(gl, st, env, cs))
    decreases |cs|, st, 2
  {
    hide CheckExpr, Exhaustive;
    match st
    case Let(x, i) => if i.Some? { EvalSafe(gl, locals, i.value, env, cs); }
    case Assign(_, e) => EvalSafe(gl, locals, e, env, cs);
    case Expr(e) => EvalSafe(gl, locals, e, env, cs);
    case If(_, _, _) => SafeIf(gl, p, locals, st, depth, env, cs);
    case Match(_, _, _) => SafeMatch(gl, p, locals, st, depth, env, cs);
    case While(_, _) => SafeLoop(gl, p, locals, st, depth, env, cs);
    case For(_, _, _, _) => SafeFor(gl, p, locals, st, depth, env, cs);
    case Break =>
    case Continue =>
    case Return(e) => EvalSafe(gl, locals, e, env, cs);
    case Unsafe(body) => SafeBody(gl, p, locals, body, depth, env, cs);
    case Defer(_) =>
  }

  lemma SafeIf(gl: set<string>, p: set<string>, locals: Locals, st: Stmt, depth: nat, env: Env, cs: seq<nat>)
    requires st.If? && Analyze(gl, locals, st, depth).diags == [] && Honest(st) && Formed(p, st) && Sound(locals, env)
    ensures Safe(p, Analyze(gl, locals, st, depth).locals, env, Exec(gl, st, env, cs))
    decreases |cs|, st, 1
  {
    EvalSafe(gl, locals, st.cond, env, cs);
    var r := Eval(gl, st.cond, env, cs);
    if !r.kind.Normal? || r.cs == [] { return; }
    var body := if r.cs[0] != 0 then st.thenBody else st.elseBody;
    var first := AnalyzeAll(gl, locals, st.thenBody, depth).locals;
    var second := AnalyzeAll(gl, locals, st.elseBody, depth).locals;
    var branches :=
      (if BodyDiverges(st.thenBody) then [] else [first]) + (if BodyDiverges(st.elseBody) then [] else [second]);
    SafeBody(gl, p, locals, body, depth, env, r.cs[1..]);
    SafeBranch(gl, p, locals, branches, body, AnalyzeAll(gl, locals, body, depth).locals, env, env, r.cs[1..]);
  }

  /** One branch of several, run from `start` in a scope of its own. */
  lemma SafeBranch(gl: set<string>, p: set<string>, locals: Locals, branches: seq<Locals>, body: seq<Stmt>, end: Locals,
                   env: Env, start: Env, cs: seq<nat>)
    requires Sound(locals, env) && Grows(env, start) && NoneUnset(p, env, start) && HonestAll(body)
    requires Safe(p, end, start, ExecBody(gl, body, start, cs))
    requires BodyDiverges(body) || end in branches
    ensures SafeScoped(p, Merge(locals, branches), env, Scoped(ExecBody(gl, body, start, cs), env))
  {
    hide ExecBody, BodyDiverges, HonestAll, Merge;
    var r := ExecBody(gl, body, start, cs);
    GrowsTrans(env, start, r.env);
    RestrictGrows(env, r.env);
    if BodyDiverges(body) { BodyNeverCompletes(gl, body, start, cs); }
    if r.kind.Normal? { MergeSound(locals, branches, end, env, r.env); }
  }

  lemma SafeMatch(gl: set<string>, p: set<string>, locals: Locals, st: Stmt, depth: nat, env: Env, cs: seq<nat>)
    requires st.Match? && Analyze(gl, locals, st, depth).diags == [] && Honest(st) && Formed(p, st)
    requires Sound(locals, env)
    ensures Safe(p, Analyze(gl, locals, st, depth).locals, env, Exec(gl, st, env, cs))
    decreases |cs|, st, 1
  {
    EvalSafe(gl, locals, st.value, env, cs);
    var r := Eval(gl, st.value, env, cs);
    if !r.kind.Normal? || r.cs == [] || (!st.on.Wide? && st.on.n == 0) { return; }
    var v := if st.on.Wide? then r.cs[0] else r.cs[0] % st.on.n;
    var ends := AnalyzeArms(gl, locals, st.arms, depth, false).branches;
    var missing := if st.on.Enum? && !HasDefault(st.arms) then Missing(st.arms, st.on.n) else [];
    var exhaustive := HasDefault(st.arms) || (st.on.Enum? && missing == []);
    if exhaustive { TakenByCoverage(st.on, st.arms, v); }
    SafeArms(gl, p, locals, st.arms, ends + if exhaustive then [] else [locals], v, depth, false, env, r.cs[1..]);
  }

  lemma TakenByCoverage(on: Domain, arms: seq<Arm>, v: nat)
    requires HasDefault(arms) || (on.Enum? && v < on.n && Missing(arms, on.n) == [])
    ensures Taken(arms, v)
  {
    if HasDefault(arms) {
      var i :| 0 <= i < |arms| && Default in arms[i].patterns;
      assert Hits(arms[i], v);
    } else {
      assert Covered(arms, v);
      var i :| 0 <= i < |arms| && Tag(v) in arms[i].patterns;
      assert Hits(arms[i], v);
    }
  }

  lemma SafeArms(gl: set<string>, p: set<string>, locals: Locals, arms: seq<Arm>, branches: seq<Locals>, v: nat,
                 depth: nat, saw: bool, env: Env, cs: seq<nat>)
    requires AnalyzeArms(gl, locals, arms, depth, saw).diags == [] && HonestArms(arms) && FormedArms(p, arms)
    requires Sound(locals, env)
    requires forall b :: b in AnalyzeArms(gl, locals, arms, depth, saw).branches ==> b in branches
    requires locals in branches || Taken(arms, v)
    ensures SafeScoped(p, Merge(locals, branches), env, ExecArms(gl, arms, v, env, cs))
    decreases |cs|, arms, 1
  {
    if arms == [] {
      assert Restrict(env, env.Keys) == env;
      MergeSound(locals, branches, locals, env, env);
    } else {
      var b := BindLocals(locals, arms[0].bindings);
      var end := AnalyzeAll(gl, b.locals, arms[0].body, depth).locals;
      var saw' := saw || Default in arms[0].patterns;
      var rest := AnalyzeArms(gl, locals, arms[1..], depth, saw');
      if Hits(arms[0], v) {
        var start := Bind(env, arms[0].bindings);
        BindSound(p, locals, arms[0].bindings, env);
        SafeBody(gl, p, b.locals, arms[0].body, depth, start, cs);
        SafeBranch(gl, p, locals, branches, arms[0].body, end, env, start, cs);
      } else {
        if Taken(arms, v) {
          var i :| 0 <= i < |arms| && Hits(arms[i], v);
          assert arms[1..][i - 1] == arms[i];
        }
        SafeArms(gl, p, locals, arms[1..], branches, v, depth, saw', env, cs);
      }
    }
  }

  lemma {:induction false} BindSound(p: set<string>, locals: Locals, names: seq<string>, env: Env)
    requires Sound(locals, env) && BindLocals(locals, names).diags == []
    ensures Sound(BindLocals(locals, names).locals, Bind(env, names)) && Grows(env, Bind(env, names))
    ensures NoneUnset(p, env, Bind(env, names))
    decreases |names|
  {
    if names != [] {
      var x := names[0];
      BindSound(p, locals[x := false], names[1..], env[x := true]);
    }
  }

  lemma SafeFor(gl: set<string>, p: set<string>, locals: Locals, st: Stmt, depth: nat, env: Env, cs: seq<nat>)
    requires st.For? && Analyze(gl, locals, st, depth).diags == [] && Honest(st) && Formed(p, st) && Sound(locals, env)
    ensures Safe(p, Analyze(gl, locals, st, depth).locals, env, Exec(gl, st, env, cs))
    decreases |cs|, st, 1
  {
    hide ExecLoop, AnalyzeAll, CheckExpr, FormedAll, HonestAll;
    var i := Analyze(gl, locals, st.init, depth);
    SafeStmt(gl, p, locals, st.init, depth, env, cs);
    var r := Exec(gl, st.init, env, cs);
    RestrictGrows(env, r.env);
    if r.kind.Normal? {
      SafeLoop(gl, p, i.locals, st, depth, r.env, r.cs);
      var q := ExecLoop(gl, st, r.env, r.cs);
      GrowsTrans(env, r.env, q.env);
      RestrictGrows(env, q.env);
      SoundGrows(locals, env, Restrict(q.env, env.Keys));
    }
  }

  lemma StepKeepsNames(gl: set<string>, st: Stmt, env: Env, cs: seq<nat>)
    requires st.Assign? || st.Expr?
    ensures Exec(gl, st, env, cs).env.Keys == env.Keys
  {
  }

  /** The end of a loop body, and what is left of it at the head of the loop. */
  lemma BackToHead(p: set<string>, locals: Locals, locals': Locals, env: Env, r: Run)
    requires Sound(locals, env) && Safe(p, locals', env, r)
    ensures var b := Scoped(r, env);
      var back := Restrict(b.env, env.Keys);
      && b.kind == r.kind && b.cs == r.cs && Grows(env, b.env) && NoneUnset(p, env, b.env)
      && Sound(locals, back) && Grows(env, back) && NoneUnset(p, env, back) && back.Keys == env.Keys
  {
    RestrictGrows(env, r.env);
    RestrictGrows(env, Scoped(r, env).env);
    SoundGrows(locals, env, Restrict(Scoped(r, env).env, env.Keys));
  }

  /** Every iteration starts from at least what held before the loop. */
  lemma SafeLoop(gl: set<string>, p: set<string>, locals: Locals, st: Stmt, depth: nat, env: Env, cs: seq<nat>)
    requires (st.While? || st.For?) && Honest(st) && Formed(p, st) && Sound(locals, env)
    requires CheckExpr(gl, locals, st.cond) == [] && AnalyzeAll(gl, locals, st.body, depth + 1).diags == []
    requires st.For? ==> Analyze(gl, locals, st.step, depth).diags == []
    ensures SafeScoped(p, locals, env, ExecLoop(gl, st, env, cs))
    decreases |cs|, st, 0
  {
    hide CheckExpr, AnalyzeAll, FormedAll, HonestAll, ExecBody, Restrict, Scoped;
    EvalSafe(gl, locals, st.cond, env, cs);
    var r := Eval(gl, st.cond, env, cs);
    if !r.kind.Normal? || r.cs == [] || r.cs[0] == 0 { return; }
    SafeBody(gl, p, locals, st.body, depth + 1, env, r.cs[1..]);
    var b := ExecBlock(gl, st.body, env, r.cs[1..]);
    var back := Restrict(b.env, env.Keys);
    BackToHead(p, locals, AnalyzeAll(gl, locals, st.body, depth + 1).locals, env, ExecBody(gl, st.body, env,
               r.cs[1..]));
    if b.kind.Broke? || (!b.kind.Normal? && !b.kind.Continued?) { return; }
    var q := b.(env := back);
    if st.For? {
      SafeStmt(gl, p, locals, st.step, depth, back, b.cs);
      StepKeepsNames(gl, st.step, back, b.cs);
      q := Exec(gl, st.step, back, b.cs);
      GrowsTrans(env, back, q.env);
      SoundGrows(locals, env, q.env);
    }
    if st.While? || q.kind.Normal? {
      SafeLoop(gl, p, locals, st, depth, q.env, q.cs);
      GrowsTrans(env, q.env, ExecLoop(gl, st, q.env, q.cs).env);
    }
  }

  lemma SafeBody(gl: set<string>, p: set<string>, locals: Locals, body: seq<Stmt>, depth: nat, env: Env, cs: seq<nat>)
    requires AnalyzeAll(gl, locals, body, depth).diags == [] && HonestAll(body) && FormedAll(p, body)
    requires Sound(locals, env)
    ensures Safe(p, AnalyzeAll(gl, locals, body, depth).locals, env, ExecBody(gl, body, env, cs))
    decreases |cs|, body, 3
  {
    hide Analyze, Exec, CheckExpr, Names, Formed;
    if body == [] { return; }
    var a := Analyze(gl, locals, body[0], depth);
    if body[0].Defer? {
      var later := p + Names(body[0].call);
      DeferChecks(gl, locals, body[0], depth);
      SafeBody(gl, later, locals, body[1..], depth, env, cs);
      var r := ExecBody(gl, body[1..], env, cs);
      if r.kind.Stopped? || r.kind.Violation? { return; }
      SoundGrows(locals, env, r.env);
      assert NoneUnset(Names(body[0].call), locals, r.env);
      EvalSafe(gl, locals, body[0].call, r.env, r.cs);
    } else {
      assert p + Deferred(body[0]) == p;
      SafeStmt(gl, p, locals, body[0], depth, env, cs);
      var r := Exec(gl, body[0], env, cs);
      if r.kind.Normal? {
        SafeBody(gl, p, a.locals, body[1..], depth, r.env, r.cs);
        GrowsTrans(env, r.env, ExecBody(gl, body[1..], r.env, r.cs).env);
      }
    }
  }

  lemma DeferChecks(gl: set<string>, locals: Locals, st: Stmt, depth: nat)
    requires st.Defer?
    ensures Analyze(gl, locals, st, depth) == Checked(locals, CheckExpr(gl, locals, st.call))
  {
  }

  /** A function whose parameters are `params`. */
  function Entry(params: set<string>): Locals {
    map x | x in params :: false
  }

  function Start(params: set<string>): Env {
    map x | x in params :: true
  }

  /** No prefix of any run of a function without diagnostics reads a name that has
      no value. */
  lemma AcceptedNeverReadsUninitialized(gl: set<string>, params: set<string>, body: seq<Stmt>, cs: seq<nat>)
    requires AnalyzeAll(gl, Entry(params), body, 0).diags == []
    requires HonestAll(body) && FormedAll({}, body)
    ensures !ExecBody(gl, body, Start(params), cs).kind.Violation?
  {
    SafeBody(gl, {}, Entry(params), body, 0, Start(params), cs);
  }

  // ---- where the claim fails ----

  lemma BodyOfOne(gl: set<string>, st: Stmt, env: Env, cs: seq<nat>)
    ensures !st.Defer? ==> ExecBody(gl, [st], env, cs) == Exec(gl, st, env, cs)
  {
    hide Exec;
    if !st.Defer? {
      var r := Exec(gl, st, env, cs);
      assert ExecBody(gl, [], r.env, r.cs) == Run(Normal, r.env, r.cs);
    }
  }

  lemma AnalyzeOne(gl: set<string>, locals: Locals, st: Stmt, depth: nat)
    ensures AnalyzeAll(gl, locals, [st], depth) == Analyze(gl, locals, st, depth)
  {
    hide Analyze;
    var r := Analyze(gl, locals, st, depth);
    assert AnalyzeAll(gl, r.locals, [], depth) == Checked(r.locals, []);
  }

  function Nothing(): Expr {
    Node([])
  }

  /** A match on an integer whose only arm returns. */
  function PartialMatch(): Stmt {
    Match(Nothing(), Wide, [Arm([Tag(1)], [], [Return(Nothing())])])
  }

  function Conditional(): Stmt {
    If(Nothing(), [PartialMatch()], [Assign("x", Nothing())])
  }

  /** Without the condition on matches the claim is false: a match on an integer
      whose only arm returns counts as diverging, so the other branch alone
      decides that `x` is initialized. */
  lemma DishonestMatch()
    ensures var body := [Let("x", None), Conditional(), Return(Name("x"))];
      && AnalyzeAll({}, map[], body, 0).diags == []
      && ExecBody({}, body, map[], [1, 0]).kind == Violation("x")
  {
    hide *;
    var decl, last, rest := Let("x", None), Return(Name("x")), [Conditional(), Return(Name("x"))];
    var env: Env, l1: Locals, l0: Locals := map["x" := false], map["x" := true], map["x" := false];
    assert [decl, Conditional(), last] == [decl] + rest && rest == [Conditional()] + [last];
    DishonestRun();
    BodyOfOne({}, last, env, []);
    BodyCons({}, Conditional(), [last], env, [1, 0]);
    BodyCons({}, decl, rest, map[], [1, 0]);
    DeclareAndRead("x", map[], env);
    DishonestAnalysis();
    AnalyzeOne({}, l0, last, 0);
    AnalyzeCons({}, l1, Conditional(), [last], 0);
    AnalyzeCons({}, map[], decl, rest, 0);
  }

  lemma DeclareAndRead(x: string, env: Env, env': Env)
    requires env == map[] && env' == map[x := false]
    ensures Exec({}, Let(x, None), env, [1, 0]) == Run(Normal, env', [1, 0])
    ensures Exec({}, Return(Name(x)), env', []).kind == Violation(x)
    ensures Analyze({}, env, Let(x, None), 0) == Checked(map[x := true], [])
    ensures Analyze({}, env', Return(Name(x)), 0) == Checked(env', [])
  {
  }

  lemma BodyCons(gl: set<string>, st: Stmt, rest: seq<Stmt>, env: Env, cs: seq<nat>)
    requires !st.Defer?
    ensures var r := Exec(gl, st, env, cs);
      ExecBody(gl, [st] + rest, env, cs) == if r.kind.Normal? then ExecBody(gl, rest, r.env, r.cs) else r
  {
    assert ([st] + rest)[1..] == rest;
  }

  lemma AnalyzeCons(gl: set<string>, locals: Locals, st: Stmt, rest: seq<Stmt>, depth: nat)
    ensures var r := Analyze(gl, locals, st, depth);
      AnalyzeAll(gl, locals, [st] + rest, depth).diags == r.diags + AnalyzeAll(gl, r.locals, rest, depth).diags
  {
    assert ([st] + rest)[1..] == rest;
  }

  lemma DishonestRun()
    ensures Exec({}, Conditional(), map["x" := false], [1, 0]) == Run(Normal, map["x" := false], [])
    ensures !Conditional().Defer?
  {
    var env: Env, m := map["x" := false], PartialMatch();
    assert !Hits(m.arms[0], 0) && m.arms[1..] == [];
    assert ExecArms({}, m.arms, 0, env, []) == Run(Normal, env, []);
    assert Exec({}, m, env, [0]) == Run(Normal, env, []);
    BodyOfOne({}, m, env, [0]);
    assert Restrict(env, env.Keys) == env && [1, 0][1..] == [0];
  }

  lemma DishonestAnalysis()
    ensures Analyze({}, map["x" := true], Conditional(), 0) == Checked(map["x" := false], [])
  {
    hide AnalyzeArms, Merge, HasDefault;
    var l1: Locals, l0: Locals, m, a := map["x" := true], map["x" := false], PartialMatch(), Assign("x", Nothing());
    PartialAnalysis(l1);
    AnalyzeOne({}, l1, m, 0);
    assert Analyze({}, l1, a, 0) == Checked(l0, []);
    AnalyzeOne({}, l1, a, 0);
    assert BodyDiverges([m]) && !BodyDiverges([a]);
    MergeOne(l1, l0);
    var branches: seq<Locals> := [];
    assert branches + [l0] == [l0];
    assert CheckExpr({}, l1, Nothing()) == [];
  }

  lemma MergeOne(locals: Locals, branch: Locals)
    requires locals == map["x" := true] && branch == map["x" := false]
    ensures Merge(locals, [branch]) == branch
  {
  }

  /** No diagnostics for the match, which is taken to diverge. */
  lemma PartialAnalysis(l1: Locals)
    ensures Analyze({}, l1, PartialMatch(), 0).diags == [] && Diverges(PartialMatch())
  {
    hide Merge;
    var m := PartialMatch();
    assert m.arms[1..] == [] && !HasDefault(m.arms);
    assert Diverges(m);
    AnalyzeOne({}, l1, Return(Nothing()), 0);
    assert CheckPatterns(m.arms[0], 0, false) == [];
    assert AnalyzeArms({}, l1, m.arms, 0, false).diags == [];
  }

  /** Nor does it hold when a deferred call that was checked against a static meets a
      local of that name that came later: whenever such a call is reached, it fails if
      and only if there is such a local and it has no value. */
  lemma CaptureFails(gl: set<string>, x: string, body: seq<Stmt>, env: Env, cs: seq<nat>)
    requires x in gl && x !in env
    requires var k := ExecBody(gl, body, env, cs).kind; !k.Stopped? && !k.Violation?
    ensures var at := ExecBody(gl, body, env, cs).env;
      ExecBody(gl, [Defer(Name(x))] + body, env, cs).kind == Violation(x) <==> x in at && !at[x]
  {
    assert ([Defer(Name(x))] + body)[1..] == body;
  }

  /** Nothing in the statement gives `x` a value or declares it. */
  predicate LeavesAlone(x: string, st: Stmt)
    decreases st, 1
  {
    match st
    case Let(y, _) => y != x
    case Assign(y, _) => y != x
    case If(_, a, b) => AllLeaveAlone(x, a) && AllLeaveAlone(x, b)
    case Match(_, _, arms) => ArmsLeaveAlone(x, arms)
    case While(_, body) => AllLeaveAlone(x, body)
    case For(init, _, step, body) => LeavesAlone(x, init) && LeavesAlone(x, step) && AllLeaveAlone(x, body)
    case Unsafe(body) => AllLeaveAlone(x, body)
    case _ => true
  }

  predicate AllLeaveAlone(x: string, body: seq<Stmt>)
    decreases body, 0
  {
    body == [] || (LeavesAlone(x, body[0]) && AllLeaveAlone(x, body[1..]))
  }

  predicate ArmsLeaveAlone(x: string, arms: seq<Arm>)
    decreases arms, 0
  {
    arms == [] || (x !in arms[0].bindings && AllLeaveAlone(x, arms[0].body) && ArmsLeaveAlone(x, arms[1..]))
  }

  predicate Unset(x: string, env: Env) {
    x in env && !env[x]
  }

  /** A local that nothing gives a value has none, wherever control leaves. */
  lemma {:induction false} StaysUnset(gl: set<string>, x: string, st: Stmt, env: Env, cs: seq<nat>)
    requires LeavesAlone(x, st) && Unset(x, env)
    ensures Unset(x, Exec(gl, st, env, cs).env)
    decreases |cs|, st, 2
  {
    match st
    case If(c, a, b) =>
      var r := Eval(gl, c, env, cs);
      if r.kind.Normal? && r.cs != [] { BodyStaysUnset(gl, x, if r.cs[0] != 0 then a else b, env, r.cs[1..]); }
    case Match(e, on, arms) =>
      var r := Eval(gl, e, env, cs);
      if r.kind.Normal? && r.cs != [] && (on.Wide? || on.n != 0) {
        ArmsStayUnset(gl, x, arms, if on.Wide? then r.cs[0] else r.cs[0] % on.n, env, r.cs[1..]);
      }
    case While(_, _) => LoopStaysUnset(gl, x, st, env, cs);
    case For(init, _, _, _) =>
      StaysUnset(gl, x, init, env, cs);
      var r := Exec(gl, init, env, cs);
      if r.kind.Normal? { LoopStaysUnset(gl, x, st, r.env, r.cs); }
    case Unsafe(body) => BodyStaysUnset(gl, x, body, env, cs);
    case _ =>
  }

  lemma BodyStaysUnset(gl: set<string>, x: string, body: seq<Stmt>, env: Env, cs: seq<nat>)
    requires AllLeaveAlone(x, body) && Unset(x, env)
    ensures Unset(x, ExecBody(gl, body, env, cs).env)
    decreases |cs|, body, 0
  {
    if body == [] {
    } else if body[0].Defer? {
      BodyStaysUnset(gl, x, body[1..], env, cs);
    } else {
      StaysUnset(gl, x, body[0], env, cs);
      var r := Exec(gl, body[0], env, cs);
      if r.kind.Normal? { BodyStaysUnset(gl, x, body[1..], r.env, r.cs); }
    }
  }

  lemma ArmsStayUnset(gl: set<string>, x: string, arms: seq<Arm>, v: nat, env: Env, cs: seq<nat>)
    requires ArmsLeaveAlone(x, arms) && Unset(x, env)
    ensures Unset(x, ExecArms(gl, arms, v, env, cs).env)
    decreases |cs|, arms, 1
  {
    if arms == [] {
    } else if Hits(arms[0], v) {
      BindLeaves(x, arms[0].bindings, env);
      BodyStaysUnset(gl, x, arms[0].body, Bind(env, arms[0].bindings), cs);
    } else {
      ArmsStayUnset(gl, x, arms[1..], v, env, cs);
    }
  }

  lemma {:induction false} BindLeaves(x: string, names: seq<string>, env: Env)
    requires x !in names && Unset(x, env)
    ensures Unset(x, Bind(env, names))
    decreases |names|
  {
    if names != [] { BindLeaves(x, names[1..], env[names[0] := true]); }
  }

  lemma LoopStaysUnset(gl: set<string>, x: string, st: Stmt, env: Env, cs: seq<nat>)
    requires (st.While? || st.For?) && LeavesAlone(x, st) && Unset(x, env)
    ensures Unset(x, ExecLoop(gl, st, env, cs).env)
    decreases |cs|, st, 1
  {
    hide Eval;
    var r := Eval(gl, st.cond, env, cs);
    if !r.kind.Normal? || r.cs == [] || r.cs[0] == 0 { return; }
    BodyStaysUnset(gl, x, st.body, env, r.cs[1..]);
    var b := ExecBlock(gl, st.body, env, r.cs[1..]);
    var back := Restrict(b.env, env.Keys);
    if b.kind.Normal? || b.kind.Continued? {
      if st.For? {
        StaysUnset(gl, x, st.step, back, b.cs);
        var q := Exec(gl, st.step, back, b.cs);
        if q.kind.Normal? { LoopStaysUnset(gl, x, st, q.env, q.cs); }
      } else {
        LoopStaysUnset(gl, x, st, back, b.cs);
      }
    }
  }

  /** The converse of what `Formed` asks for: a local without a value under the name in a
      registered call makes every run fail that gets there and leaves the block again, if
      nothing behind it gives it a value. */
  lemma CapturedLetFails(gl: set<string>, x: string, pre: seq<Stmt>, post: seq<Stmt>, env: Env, cs: seq<nat>)
    requires x in gl && x !in env && (forall st :: st in pre ==> !st.Defer?) && AllLeaveAlone(x, post)
    requires ExecBody(gl, pre, env, cs).kind.Normal?
    requires var r := ExecBody(gl, pre, env, cs);
      var k := ExecBody(gl, post, r.env[x := false], r.cs).kind; !k.Stopped? && !k.Violation?
    ensures !FormedAll({}, [Defer(Name(x))] + (pre + ([Let(x, None)] + post)))
    ensures ExecBody(gl, [Defer(Name(x))] + (pre + ([Let(x, None)] + post)), env, cs).kind == Violation(x)
  {
    var r := ExecBody(gl, pre, env, cs);
    var rest := [Let(x, None)] + post;
    BodyAfter(gl, pre, rest, env, cs);
    BodyCons(gl, Let(x, None), post, r.env, r.cs);
    BodyStaysUnset(gl, x, post, r.env[x := false], r.cs);
    CaptureFails(gl, x, pre + rest, env, cs);
    var whole := [Defer(Name(x))] + (pre + rest);
    assert whole[0] == Defer(Name(x)) && whole[1..] == pre + rest && Deferred(whole[0]) == {x};
    NotFormed(x, {} + Deferred(whole[0]), pre, post);
  }

  lemma {:induction false} BodyAfter(gl: set<string>, pre: seq<Stmt>, rest: seq<Stmt>, env: Env, cs: seq<nat>)
    requires (forall st :: st in pre ==> !st.Defer?) && ExecBody(gl, pre, env, cs).kind.Normal?
    ensures var r := ExecBody(gl, pre, env, cs); ExecBody(gl, pre + rest, env, cs) == ExecBody(gl, rest, r.env, r.cs)
    decreases |pre|
  {
    if pre == [] {
      assert pre + rest == rest;
    } else {
      assert (pre + rest)[1..] == pre[1..] + rest;
      var r := Exec(gl, pre[0], env, cs);
      BodyAfter(gl, pre[1..], rest, r.env, r.cs);
    }
  }

  lemma {:induction false} NotFormed(x: string, p: set<string>, pre: seq<Stmt>, post: seq<Stmt>)
    requires x in p
    ensures !FormedAll(p, pre + ([Let(x, None)] + post))
    decreases |pre|
  {
    var body := pre + ([Let(x, None)] + post);
    if pre == [] {
      assert body[0] == Let(x, None) && !Formed(p, body[0]);
    } else {
      assert body[0] == pre[0];
      assert body[1..] == pre[1..] + ([Let(x, None)] + post);
      NotFormed(x, p + Deferred(pre[0]), pre[1..], post);
    }
  }

  /** A function without diagnostics in which it does, from inside a nested block. */
  lemma DeferredStaticCaptured()
    ensures var body := [Defer(Name("s")), If(Nothing(), [Let("s", None), Return(Nothing())], [])];
      && AnalyzeAll({"s"}, map[], body, 0).diags == []
      && ExecBody({"s"}, body, map[], [1]).kind == Violation("s")
  {
    var gl, env: Env := {"s"}, map["s" := false];
    var inner := [Let("s", None), Return(Nothing())];
    var branch := If(Nothing(), inner, []);
    assert inner == [Let("s", None)] + [Return(Nothing())] && inner[1..] == [Return(Nothing())];
    BodyOfOne(gl, Return(Nothing()), env, []);
    assert ExecBody(gl, inner, map[], []) == Run(Returned, env, []);
    assert [1][1..] == [];
    assert Exec(gl, branch, map[], [1]) == Run(Returned, env, []);
    BodyOfOne(gl, branch, map[], [1]);
    CaptureFails(gl, "s", [branch], map[], [1]);
    assert [Defer(Name("s"))] + [branch] == [Defer(Name("s")), branch];
    CapturedAnalysis();
  }

  lemma CapturedAnalysis()
    ensures var body := [Defer(Name("s")), If(Nothing(), [Let("s", None), Return(Nothing())], [])];
      AnalyzeAll({"s"}, map[], body, 0).diags == []
  {
    hide Analyze, AnalyzeAll;
    var gl, inner := {"s"}, [Let("s", None), Return(Nothing())];
    var branch := If(Nothing(), inner, []);
    CapturedSteps();
    assert inner == [Let("s", None)] + [Return(Nothing())];
    AnalyzeOne(gl, map["s" := true], Return(Nothing()), 0);
    AnalyzeCons(gl, map[], Let("s", None), [Return(Nothing())], 0);
    BranchAnalysis(gl, inner);
    AnalyzeOne(gl, map[], branch, 0);
    AnalyzeCons(gl, map[], Defer(Name("s")), [branch], 0);
    assert [Defer(Name("s"))] + [branch] == [Defer(Name("s")), branch];
  }

  lemma CapturedSteps()
    ensures Analyze({"s"}, map[], Let("s", None), 0) == Checked(map["s" := true], [])
    ensures Analyze({"s"}, map["s" := true], Return(Nothing()), 0) == Checked(map["s" := true], [])
    ensures Analyze({"s"}, map[], Defer(Name("s")), 0) == Checked(map[], [])
  {
  }

  lemma BranchAnalysis(gl: set<string>, body: seq<Stmt>)
    requires AnalyzeAll(gl, map[], body, 0).diags == []
    ensures Analyze(gl, map[], If(Nothing(), body, []), 0).diags == []
  {
  }
}
