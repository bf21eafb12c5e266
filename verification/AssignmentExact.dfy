/** The other half of the analysis: what it rejects does fail in some run, and what it
    takes to be possibly uninitialized is so behind some run, wherever all code can be
    reached and no loop head or deferred call comes in between. */
module AssignmentExact {
  import opened DefiniteAssignment
  import opened AssignmentSound
  import opened SemaStructure

  // ---- programs all of whose code can be reached ----

  /** The value is handled by this arm. */
  predicate First(arms: seq<Arm>, v: nat, i: nat)
    requires i < |arms|
  {
    Hits(arms[i], v) && forall j :: 0 <= j < i ==> !Hits(arms[j], v)
  }

  ghost predicate Feasible(on: Domain, arms: seq<Arm>, i: nat)
    requires i < |arms|
  {
    exists v: nat :: (on.Wide? || v < on.n) && First(arms, v, i)
  }

  /** Nothing stands behind a diverging statement, every arm is taken for some value, a
      match that is no match on an enum and has no default leaves a value out, loops
      declare their own variable and step by it, and no call is deferred. */
  ghost predicate Live(st: Stmt)
    decreases st, 1
  {
    match st
    case If(_, a, b) => LiveAll(a) && LiveAll(b)
    case Match(_, on, arms) =>
      && (on.Wide? || on.n > 0) && (forall i :: 0 <= i < |arms| ==> Feasible(on, arms, i)) && LiveArms(arms)
      && (on.Enum? || HasDefault(arms) || !Exhaustive(on, arms))
    case While(_, body) => LiveAll(body)
    case For(init, _, step, body) =>
      init.Let? && init.initial.Some? && StepsBy(step, init.name) && LiveAll(body)
    case Unsafe(body) => LiveAll(body)
    case Defer(_) => false
    case _ => true
  }

  predicate StepsBy(step: Stmt, x: string) {
    match step
    case Assign(y, e) => y == x && Names(e) <= {x}
    case Expr(e) => Names(e) <= {x}
    case _ => false
  }

  ghost predicate LiveAll(body: seq<Stmt>)
    decreases body, 0
  {
    body == [] || (Live(body[0]) && (|body| > 1 ==> !Diverges(body[0])) && LiveAll(body[1..]))
  }

  ghost predicate LiveArms(arms: seq<Arm>)
    decreases arms, 0
  {
    arms == [] || (LiveAll(arms[0].body) && LiveArms(arms[1..]))
  }

  lemma {:induction false} LiveFormed(st: Stmt)
    requires Live(st)
    ensures Formed({}, st)
    decreases st, 1
  {
    match st
    case If(_, a, b) =>
      LiveFormedAll(a);
      LiveFormedAll(b);
    case Match(_, _, arms) => LiveFormedArms(arms);
    case While(_, body) => LiveFormedAll(body);
    case For(_, _, _, body) => LiveFormedAll(body);
    case Unsafe(body) => LiveFormedAll(body);
    case _ =>
  }

  lemma LiveFormedAll(body: seq<Stmt>)
    requires LiveAll(body)
    ensures FormedAll({}, body)
    decreases body, 0
  {
    if body != [] {
      LiveFormed(body[0]);
      LiveFormedAll(body[1..]);
      assert {} + Deferred(body[0]) == {};
    }
  }

  lemma LiveFormedArms(arms: seq<Arm>)
    requires LiveArms(arms)
    ensures FormedArms({}, arms)
    decreases arms, 0
  {
    if arms != [] {
      LiveFormedAll(arms[0].body);
      LiveFormedArms(arms[1..]);
    }
  }

  lemma {:induction false} ArmIsLive(arms: seq<Arm>, i: nat)
    requires LiveArms(arms) && HonestArms(arms) && i < |arms|
    ensures LiveAll(arms[i].body) && HonestAll(arms[i].body)
    decreases |arms|
  {
    if i > 0 {
      ArmIsLive(arms[1..], i - 1);
      assert arms[1..][i - 1] == arms[i];
    }
  }

  // ---- runs with given choices ----

  /** The statement completes and uses up just these choices. */
  ghost predicate Reaches(gl: set<string>, st: Stmt, env: Env, used: seq<nat>, env': Env) {
    forall more :: Exec(gl, st, env, used + more) == Run(Normal, env', more)
  }

  ghost predicate ReachesAll(gl: set<string>, body: seq<Stmt>, env: Env, used: seq<nat>, env': Env) {
    forall more :: ExecBody(gl, body, env, used + more) == Run(Normal, env', more)
  }

  /** If the analysis has `x` down as possibly uninitialized, it is. */
  predicate Ready(x: string, locals: Locals, env: Env) {
    x in locals && locals[x] ==> Unset(x, env)
  }

  lemma {:induction false} EvalCompletes(gl: set<string>, locals: Locals, e: Expr, env: Env) returns (used: seq<nat>)
    requires CheckExpr(gl, locals, e) == [] && Sound(locals, env)
    ensures Uses(gl, e, env, used)
    decreases e, 1
  {
    hide Uses, UsesAll;
    match e
    case Name(x) =>
      used := [];
      NameUses(gl, x, env, []);
    case Node(args) =>
      used := EvalAllCompletes(gl, locals, args, env);
      NodeUses(gl, args, env, used);
    case Short(a, b) =>
      var first := EvalCompletes(gl, locals, a, env);
      ShortUses(gl, a, b, env, first, 0, []);
      used := first + ([0] + []);
    case Try(a) =>
      var first := EvalCompletes(gl, locals, a, env);
      TryUses(gl, a, env, first);
      used := first + [1];
  }

  lemma EvalAllCompletes(gl: set<string>, locals: Locals, args: seq<Expr>, env: Env) returns (used: seq<nat>)
    requires CheckAll(gl, locals, args) == [] && Sound(locals, env)
    ensures UsesAll(gl, args, env, used)
    decreases args, 0
  {
    hide Uses, UsesAll;
    if args == [] {
      used := [];
      NoneUses(gl, env);
    } else {
      var first := EvalCompletes(gl, locals, args[0], env);
      var rest := EvalAllCompletes(gl, locals, args[1..], env);
      MoreUses(gl, args, env, first, rest);
      used := first + rest;
    }
  }

  lemma SimpleReaches(gl: set<string>, st: Stmt, env: Env, used: seq<nat>)
    requires (st.Let? && st.initial.Some? && Uses(gl, st.initial.value, env, used))
      || (st.Assign? && (st.name in env || st.name in gl) && Uses(gl, st.value, env, used))
      || (st.Expr? && Uses(gl, st.value, env, used))
    ensures Reaches(gl, st, env, used, if st.Let? || (st.Assign? && st.name in env) then env[st.name := true] else env)
  {
    hide Uses, Eval;
    var env' := if st.Let? || (st.Assign? && st.name in env) then env[st.name := true] else env;
    forall more ensures Exec(gl, st, env, used + more) == Run(Normal, env', more) {
      UsesAt(gl, if st.Let? then st.initial.value else st.value, env, used, more);
    }
  }

  lemma DeclarationReaches(gl: set<string>, x: string, env: Env)
    ensures Reaches(gl, Let(x, None), env, [], env[x := false])
  {
    forall more ensures Exec(gl, Let(x, None), env, [] + more) == Run(Normal, env[x := false], more) {
      assert [] + more == more;
    }
  }

  lemma BranchReaches(gl: set<string>, st: Stmt, env: Env, first: seq<nat>, choice: nat, rest: seq<nat>, env': Env)
    requires st.If? && Uses(gl, st.cond, env, first)
    requires ReachesAll(gl, if choice != 0 then st.thenBody else st.elseBody, env, rest, env')
    ensures Reaches(gl, st, env, first + ([choice] + rest), Restrict(env', env.Keys))
  {
    hide Uses, Eval, ReachesAll, ExecBody;
    var body := if choice != 0 then st.thenBody else st.elseBody;
    forall more
      ensures Exec(gl, st, env, (first + ([choice] + rest)) + more) == Run(Normal, Restrict(env', env.Keys), more) {
      var tail := rest + more;
      assert (first + ([choice] + rest)) + more == first + ([choice] + tail) && ([choice] + tail)[1..] == tail;
      UsesAt(gl, st.cond, env, first, [choice] + tail);
      ReachesAllAt(gl, body, env, rest, env', more);
    }
  }

  lemma ReachesAt(gl: set<string>, st: Stmt, env: Env, used: seq<nat>, env': Env, more: seq<nat>)
    requires Reaches(gl, st, env, used, env')
    ensures Exec(gl, st, env, used + more) == Run(Normal, env', more)
  {
    hide Exec;
  }

  lemma ReachesAllAt(gl: set<string>, body: seq<Stmt>, env: Env, used: seq<nat>, env': Env, more: seq<nat>)
    requires ReachesAll(gl, body, env, used, env')
    ensures ExecBody(gl, body, env, used + more) == Run(Normal, env', more)
  {
    hide ExecBody;
  }

  lemma {:induction false} ArmRuns(gl: set<string>, arms: seq<Arm>, v: nat, i: nat, env: Env, cs: seq<nat>)
    requires i < |arms| && First(arms, v, i)
    ensures ExecArms(gl, arms, v, env, cs) ==
      Scoped(ExecBody(gl, arms[i].body, Bind(env, arms[i].bindings), cs), env)
    decreases |arms|
  {
    hide ExecBody, Hits;
    if i > 0 {
      assert !Hits(arms[0], v);
      assert forall j :: 0 <= j < |arms[1..]| ==> arms[1..][j] == arms[j + 1];
      ArmRuns(gl, arms[1..], v, i - 1, env, cs);
    }
  }

  lemma MatchRuns(gl: set<string>, st: Stmt, env: Env, first: seq<nat>, v: nat, cs: seq<nat>)
    requires st.Match? && Uses(gl, st.value, env, first) && (st.on.Wide? || v < st.on.n)
    ensures Exec(gl, st, env, first + ([v] + cs)) == ExecArms(gl, st.arms, v, env, cs)
  {
    hide Uses, Eval, ExecArms;
    UsesAt(gl, st.value, env, first, [v] + cs);
    assert ([v] + cs)[1..] == cs;
  }

  lemma ArmReaches(gl: set<string>, st: Stmt, env: Env, first: seq<nat>, v: nat, i: nat, rest: seq<nat>, env': Env)
    requires st.Match? && Uses(gl, st.value, env, first) && (st.on.Wide? || v < st.on.n)
    requires i < |st.arms| && First(st.arms, v, i)
    requires ReachesAll(gl, st.arms[i].body, Bind(env, st.arms[i].bindings), rest, env')
    ensures Reaches(gl, st, env, first + ([v] + rest), Restrict(env', env.Keys))
  {
    hide Uses, Eval, Exec, ExecArms, ReachesAll, ExecBody, First;
    forall more
      ensures Exec(gl, st, env, (first + ([v] + rest)) + more) == Run(Normal, Restrict(env', env.Keys), more) {
      assert (first + ([v] + rest)) + more == first + ([v] + (rest + more));
      MatchRuns(gl, st, env, first, v, rest + more);
      ArmRuns(gl, st.arms, v, i, env, rest + more);
      ReachesAllAt(gl, st.arms[i].body, Bind(env, st.arms[i].bindings), rest, env', more);
    }
  }

  lemma PassReaches(gl: set<string>, st: Stmt, env: Env, first: seq<nat>, v: nat)
    requires st.Match? && Uses(gl, st.value, env, first) && (st.on.Wide? || v < st.on.n) && !Taken(st.arms, v)
    ensures Reaches(gl, st, env, first + [v], env)
  {
    hide Uses, Eval, Exec, ExecArms, Taken;
    forall more ensures Exec(gl, st, env, (first + [v]) + more) == Run(Normal, env, more) {
      assert (first + [v]) + more == first + ([v] + more);
      MatchRuns(gl, st, env, first, v, more);
      NoneTaken(gl, st.arms, v, env, more);
    }
  }

  /** A loop whose condition is false at once. */
  lemma LoopReaches(gl: set<string>, st: Stmt, env: Env, first: seq<nat>)
    requires (st.While? || st.For?) && Uses(gl, st.cond, env, first)
    ensures forall more :: ExecLoop(gl, st, env, (first + [0]) + more) == Run(Normal, env, more)
  {
    hide Uses, Eval;
    forall more ensures ExecLoop(gl, st, env, (first + [0]) + more) == Run(Normal, env, more) {
      assert (first + [0]) + more == first + ([0] + more) && ([0] + more)[1..] == more;
      UsesAt(gl, st.cond, env, first, [0] + more);
    }
  }

  lemma WhileReaches(gl: set<string>, st: Stmt, env: Env, first: seq<nat>)
    requires st.While? && Uses(gl, st.cond, env, first)
    ensures Reaches(gl, st, env, first + [0], env)
  {
    hide Uses, Eval, ExecLoop;
    LoopReaches(gl, st, env, first);
    forall more ensures Exec(gl, st, env, (first + [0]) + more) == Run(Normal, env, more) {
      assert ExecLoop(gl, st, env, (first + [0]) + more) == Run(Normal, env, more);
    }
  }

  lemma ForReaches(gl: set<string>, st: Stmt, env: Env, first: seq<nat>, env': Env, second: seq<nat>)
    requires st.For? && Reaches(gl, st.init, env, first, env') && Uses(gl, st.cond, env', second)
    ensures Reaches(gl, st, env, first + (second + [0]), Restrict(env', env.Keys))
  {
    hide Uses, Eval, ExecLoop, Reaches;
    LoopReaches(gl, st, env', second);
    forall more
      ensures Exec(gl, st, env, (first + (second + [0])) + more) == Run(Normal, Restrict(env', env.Keys), more) {
      var tail := (second + [0]) + more;
      assert (first + (second + [0])) + more == first + tail;
      ReachesAt(gl, st.init, env, first, env', tail);
      assert ExecLoop(gl, st, env', tail) == Run(Normal, env', more);
      ForRuns(gl, st, env, first + tail, env', tail);
    }
    ReachesIs(gl, st, env, first + (second + [0]), Restrict(env', env.Keys));
  }

  lemma ForRuns(gl: set<string>, st: Stmt, env: Env, cs: seq<nat>, env': Env, rest: seq<nat>)
    requires st.For? && Exec(gl, st.init, env, cs) == Run(Normal, env', rest)
    ensures Exec(gl, st, env, cs) == Scoped(ExecLoop(gl, st, env', rest), env)
  {
    hide ExecLoop;
  }

  lemma ReachesIs(gl: set<string>, st: Stmt, env: Env, used: seq<nat>, env': Env)
    requires forall more :: Exec(gl, st, env, used + more) == Run(Normal, env', more)
    ensures Reaches(gl, st, env, used, env')
  {
    hide Exec;
  }

  lemma NoneReaches(gl: set<string>, env: Env)
    ensures ReachesAll(gl, [], env, [], env)
  {
    forall more ensures ExecBody(gl, [], env, [] + more) == Run(Normal, env, more) { assert [] + more == more; }
  }

  lemma MoreReaches(gl: set<string>, body: seq<Stmt>, env: Env, first: seq<nat>, mid: Env, rest: seq<nat>, env': Env)
    requires body != [] && !body[0].Defer?
    requires Reaches(gl, body[0], env, first, mid) && ReachesAll(gl, body[1..], mid, rest, env')
    ensures ReachesAll(gl, body, env, first + rest, env')
  {
    hide Reaches, Exec, ExecBody;
    forall more ensures ExecBody(gl, body, env, (first + rest) + more) == Run(Normal, env', more) {
      assert (first + rest) + more == first + (rest + more);
      ReachesAt(gl, body[0], env, first, mid, rest + more);
      ReachesAllAt(gl, body[1..], mid, rest, env', more);
      BodyRuns(gl, body, env, first + (rest + more));
    }
  }

  lemma BodyRuns(gl: set<string>, body: seq<Stmt>, env: Env, cs: seq<nat>)
    requires body != [] && !body[0].Defer?
    ensures var r := Exec(gl, body[0], env, cs);
      ExecBody(gl, body, env, cs) == if r.kind.Normal? then ExecBody(gl, body[1..], r.env, r.cs) else r
  {
    hide Exec;
  }

  // ---- code without diagnostics completes ----

  function ArmEnd(gl: set<string>, locals: Locals, arm: Arm, depth: nat): Locals {
    AnalyzeAll(gl, BindLocals(locals, arm.bindings).locals, arm.body, depth).locals
  }

  lemma {:induction false} BranchOf(gl: set<string>, locals: Locals, arms: seq<Arm>, depth: nat, saw: bool, b: Locals)
      returns (i: nat)
    requires b in AnalyzeArms(gl, locals, arms, depth, saw).branches
    ensures i < |arms| && !BodyDiverges(arms[i].body) && b == ArmEnd(gl, locals, arms[i], depth)
    decreases |arms|
  {
    hide AnalyzeAll, BodyDiverges, BindLocals;
    var next := saw || Default in arms[0].patterns;
    if b in AnalyzeArms(gl, locals, arms[1..], depth, next).branches {
      i := BranchOf(gl, locals, arms[1..], depth, next, b);
      assert arms[1..][i] == arms[i + 1];
      i := i + 1;
    } else {
      i := 0;
    }
  }

  lemma {:induction false} HasBranch(gl: set<string>, locals: Locals, arms: seq<Arm>, depth: nat, saw: bool)
    requires arms != [] && !ArmsDiverge(arms)
    ensures AnalyzeArms(gl, locals, arms, depth, saw).branches != []
    decreases |arms|
  {
    hide AnalyzeAll, BodyDiverges, BindLocals;
    if BodyDiverges(arms[0].body) {
      HasBranch(gl, locals, arms[1..], depth, saw || Default in arms[0].patterns);
    }
  }

  lemma {:induction false} ArmChecks(gl: set<string>, locals: Locals, arms: seq<Arm>, depth: nat, saw: bool, i: nat)
    requires i < |arms| && AnalyzeArms(gl, locals, arms, depth, saw).diags == []
    ensures var b := BindLocals(locals, arms[i].bindings);
      b.diags == [] && AnalyzeAll(gl, b.locals, arms[i].body, depth).diags == []
    decreases |arms|
  {
    hide AnalyzeAll, BodyDiverges, BindLocals;
    if i > 0 {
      ArmChecks(gl, locals, arms[1..], depth, saw || Default in arms[0].patterns, i - 1);
      assert arms[1..][i - 1] == arms[i];
    }
  }

  /** Behind a match: the arm that keeps `x` possibly uninitialized, or none of them. */
  lemma PickArm(gl: set<string>, locals: Locals, st: Stmt, depth: nat, x: string) returns (i: nat)
    requires Live(st) && Honest(st) && st.Match? && !Diverges(st) && Analyze(gl, locals, st, depth).diags == []
    ensures i <= |st.arms| && (i == |st.arms| ==> !Exhaustive(st.on, st.arms))
    ensures i < |st.arms| ==> !BodyDiverges(st.arms[i].body)
    ensures var end := Analyze(gl, locals, st, depth).locals;
      x in locals && end[x] ==>
        var b := if i == |st.arms| then locals else ArmEnd(gl, locals, st.arms[i], depth); x in b && b[x]
  {
    hide AnalyzeAll, AnalyzeArms, CheckExpr, BindLocals, BodyDiverges, Feasible, LiveArms, HonestArms, Covered, Taken,
      Missing, Exhaustive, HasDefault;
    var p := AnalyzeArms(gl, locals, st.arms, depth, false);
    var missing := if st.on.Enum? && !HasDefault(st.arms) then Missing(st.arms, st.on.n) else [];
    var exhaustive := HasDefault(st.arms) || (st.on.Enum? && missing == []);
    var branches := p.branches + if exhaustive then [] else [locals];
    assert missing == [];
    SeenExhaustive(st, exhaustive);
    if x in locals && Merge(locals, branches)[x] {
      if branches == [] {
        SomeArm(st);
        HasBranch(gl, locals, st.arms, depth, false);
      }
      var b :| b in branches && x in b && b[x];
      if b in p.branches { i := BranchOf(gl, locals, st.arms, depth, false, b); } else { i := |st.arms|; }
    } else if exhaustive {
      SomeArm(st);
      HasBranch(gl, locals, st.arms, depth, false);
      i := BranchOf(gl, locals, st.arms, depth, false, p.branches[0]);
    } else {
      i := |st.arms|;
    }
  }

  lemma SeenExhaustive(st: Stmt, exhaustive: bool)
    requires st.Match? && Live(st) && (st.on.Enum? && !HasDefault(st.arms) ==> Missing(st.arms, st.on.n) == [])
    requires exhaustive == (HasDefault(st.arms) || st.on.Enum?)
    ensures !exhaustive ==> !Exhaustive(st.on, st.arms)
    ensures exhaustive ==> st.arms != []
  {
    hide Feasible, LiveArms, Missing;
    assert !Covered([], 0);
    assert st.on.Enum? && !HasDefault(st.arms) ==> Covered(st.arms, 0);
  }

  lemma SomeArm(st: Stmt)
    requires st.Match? && !Diverges(st)
    ensures st.arms != [] ==> !ArmsDiverge(st.arms)
  {
  }

  lemma BindReady(x: string, locals: Locals, names: seq<string>, env: Env)
    requires Sound(locals, env) && BindLocals(locals, names).diags == [] && Ready(x, locals, env)
    ensures Ready(x, BindLocals(locals, names).locals, Bind(env, names))
    decreases names
  {
    if names != [] { BindReady(x, locals[names[0] := false], names[1..], env[names[0] := true]); }
  }

  /** A statement without diagnostics that does not diverge can complete. If the analysis
      has `x` down as possibly uninitialized behind it, it does so with `x` unassigned. */
  lemma {:induction false} Completes(gl: set<string>, locals: Locals, st: Stmt, depth: nat, env: Env, x: string)
      returns (used: seq<nat>, env': Env)
    requires Live(st) && Honest(st) && !Diverges(st) && Analyze(gl, locals, st, depth).diags == []
    requires Sound(locals, env) && Ready(x, locals, env)
    ensures Reaches(gl, st, env, used, env') && Ready(x, Analyze(gl, locals, st, depth).locals, env')
    decreases st, 1
  {
    hide Reaches, ReachesAll, Uses, CheckExpr, Exec, Feasible, Exhaustive, HasDefault, Missing, LiveAll, HonestAll;
    match st
    case Let(y, i) =>
      if i.Some? {
        used := EvalCompletes(gl, locals, i.value, env);
        SimpleReaches(gl, st, env, used);
        env' := env[y := true];
      } else {
        used, env' := [], env[y := false];
        DeclarationReaches(gl, y, env);
      }
    case Assign(y, e) =>
      used := EvalCompletes(gl, locals, e, env);
      SimpleReaches(gl, st, env, used);
      env' := if y in env then env[y := true] else env;
    case Expr(e) =>
      used := EvalCompletes(gl, locals, e, env);
      SimpleReaches(gl, st, env, used);
      env' := env;
    case If(_, _, _) => used, env' := IfCompletes(gl, locals, st, depth, env, x);
    case Match(_, _, _) => used, env' := MatchCompletes(gl, locals, st, depth, env, x);
    case While(c, _) =>
      var first := EvalCompletes(gl, locals, c, env);
      WhileReaches(gl, st, env, first);
      used, env' := first + [0], env;
    case For(_, _, _, _) => used, env' := ForCompletes(gl, locals, st, depth, env, x);
    case Unsafe(body) =>
      used, env' := AllComplete(gl, locals, body, depth, env, x);
      UnsafeReaches(gl, body, env, used, env');
  }

  lemma UnsafeReaches(gl: set<string>, body: seq<Stmt>, env: Env, used: seq<nat>, env': Env)
    requires ReachesAll(gl, body, env, used, env')
    ensures Reaches(gl, Unsafe(body), env, used, env')
  {
    hide ExecBody;
  }

  lemma IfCompletes(gl: set<string>, locals: Locals, st: Stmt, depth: nat, env: Env, x: string)
      returns (used: seq<nat>, env': Env)
    requires st.If?
    requires Live(st) && Honest(st) && !Diverges(st) && Analyze(gl, locals, st, depth).diags == []
    requires Sound(locals, env) && Ready(x, locals, env)
    ensures Reaches(gl, st, env, used, env') && Ready(x, Analyze(gl, locals, st, depth).locals, env')
    decreases st, 0
  {
    hide Reaches, ReachesAll, Uses, CheckExpr, AnalyzeAll, LiveAll, HonestAll, BodyDiverges;
    var first := EvalCompletes(gl, locals, st.cond, env);
    var p := AnalyzeAll(gl, locals, st.thenBody, depth);
    var q := AnalyzeAll(gl, locals, st.elseBody, depth);
    var branches := (if BodyDiverges(st.thenBody) then [] else [p.locals])
      + (if BodyDiverges(st.elseBody) then [] else [q.locals]);
    NothingFallsThrough();
    var bit := x in locals && Merge(locals, branches)[x];
    var choice := if !BodyDiverges(st.thenBody) && (BodyDiverges(st.elseBody) || (bit && x in p.locals && p.locals[x]))
      then 1 else 0;
    var body, end := if choice != 0 then st.thenBody else st.elseBody, if choice != 0 then p.locals else q.locals;
    assert !BodyDiverges(body);
    assert bit ==> x in end && end[x];
    var rest, env1 := AllComplete(gl, locals, body, depth, env, x);
    BranchReaches(gl, st, env, first, choice, rest, env1);
    used, env' := first + ([choice] + rest), Restrict(env1, env.Keys);
  }

  lemma NothingFallsThrough()
    ensures !BodyDiverges([])
  {
  }

  lemma MatchCompletes(gl: set<string>, locals: Locals, st: Stmt, depth: nat, env: Env, x: string)
      returns (used: seq<nat>, env': Env)
    requires st.Match?
    requires Live(st) && Honest(st) && !Diverges(st) && Analyze(gl, locals, st, depth).diags == []
    requires Sound(locals, env) && Ready(x, locals, env)
    ensures Reaches(gl, st, env, used, env') && Ready(x, Analyze(gl, locals, st, depth).locals, env')
    decreases st, 0
  {
    hide Reaches, ReachesAll, Uses, CheckExpr, AnalyzeAll, LiveAll, HonestAll, BodyDiverges, AnalyzeArms, Exhaustive,
      HasDefault, Missing, Taken, First, BindLocals, Bind, Merge;
    MergeKeys(locals);
    var end := Analyze(gl, locals, st, depth).locals;
    var first := EvalCompletes(gl, locals, st.value, env);
    var i := PickArm(gl, locals, st, depth, x);
    if i == |st.arms| {
      var v := Uncovered(st.on, st.arms);
      PassReaches(gl, st, env, first, v);
      used, env' := first + [v], env;
    } else {
      assert Feasible(st.on, st.arms, i);
      var v: nat :| (st.on.Wide? || v < st.on.n) && First(st.arms, v, i);
      var arm := st.arms[i];
      ArmIsLive(st.arms, i);
      ArmChecks(gl, locals, st.arms, depth, false, i);
      BindSound({}, locals, arm.bindings, env);
      BindReady(x, locals, arm.bindings, env);
      var rest, env1 := AllComplete(gl, BindLocals(locals, arm.bindings).locals, arm.body, depth,
                                    Bind(env, arm.bindings), x);
      ArmReaches(gl, st, env, first, v, i, rest, env1);
      used, env' := first + ([v] + rest), Restrict(env1, env.Keys);
    }
  }

  lemma ForCompletes(gl: set<string>, locals: Locals, st: Stmt, depth: nat, env: Env, x: string)
      returns (used: seq<nat>, env': Env)
    requires st.For?
    requires Live(st) && Honest(st) && Analyze(gl, locals, st, depth).diags == []
    requires Sound(locals, env) && Ready(x, locals, env)
    ensures Reaches(gl, st, env, used, env') && Ready(x, Analyze(gl, locals, st, depth).locals, env')
    decreases st, 0
  {
    hide Reaches, Uses, CheckExpr, AnalyzeAll, LiveAll, HonestAll;
    var i := Analyze(gl, locals, st.init, depth);
    var y := st.init.name;
    var first := EvalCompletes(gl, locals, st.init.initial.value, env);
    SimpleReaches(gl, st.init, env, first);
    var env1 := env[y := true];
    assert Sound(i.locals, env1);
    var second := EvalCompletes(gl, i.locals, st.cond, env1);
    ForReaches(gl, st, env, first, env1, second);
    used, env' := first + (second + [0]), Restrict(env1, env.Keys);
  }

  lemma AllComplete(gl: set<string>, locals: Locals, body: seq<Stmt>, depth: nat, env: Env, x: string)
      returns (used: seq<nat>, env': Env)
    requires LiveAll(body) && HonestAll(body) && !BodyDiverges(body)
    requires AnalyzeAll(gl, locals, body, depth).diags == []
    requires Sound(locals, env) && Ready(x, locals, env)
    ensures ReachesAll(gl, body, env, used, env') && Ready(x, AnalyzeAll(gl, locals, body, depth).locals, env')
    decreases body, 2
  {
    hide Reaches, ReachesAll, Analyze, Live, Honest, Diverges, Sound;
    if body == [] {
      used, env' := [], env;
      NoneReaches(gl, env);
    } else {
      var st, r := body[0], Analyze(gl, locals, body[0], depth);
      NotDeferred(st);
      var first, mid := Completes(gl, locals, st, depth, env, x);
      StaysSound(gl, locals, st, depth, env, first, mid);
      var rest, last := AllComplete(gl, r.locals, body[1..], depth, mid, x);
      MoreReaches(gl, body, env, first, mid, rest, last);
      used, env' := first + rest, last;
    }
  }

  lemma NotDeferred(st: Stmt)
    requires Live(st)
    ensures !st.Defer?
  {
  }

  lemma StaysSound(gl: set<string>, locals: Locals, st: Stmt, depth: nat, env: Env, used: seq<nat>, env': Env)
    requires Analyze(gl, locals, st, depth).diags == [] && Live(st) && Honest(st) && Sound(locals, env)
    requires Reaches(gl, st, env, used, env')
    ensures Sound(Analyze(gl, locals, st, depth).locals, env')
  {
    hide Analyze, Live, Honest, Reaches, Exec, Sound, Formed;
    LiveFormed(st);
    ReachesAt(gl, st, env, used, env', []);
    SafeStmt(gl, {}, locals, st, depth, env, used + []);
  }

  // ---- code with diagnostics fails ----

  ghost predicate Fails(gl: set<string>, st: Stmt, env: Env, x: string) {
    exists cs :: Exec(gl, st, env, cs).kind == Violation(x)
  }

  ghost predicate FailsAll(gl: set<string>, body: seq<Stmt>, env: Env, x: string) {
    exists cs :: ExecBody(gl, body, env, cs).kind == Violation(x)
  }

  ghost predicate FailsEval(gl: set<string>, e: Expr, env: Env, x: string) {
    exists cs :: Eval(gl, e, env, cs).kind == Violation(x)
  }

  /** From every state that the analysis allows here, some run fails at `x`. */
  ghost predicate Culprit(gl: set<string>, locals: Locals, st: Stmt, x: string) {
    forall env: Env {:trigger Sound(locals, env)} :: Sound(locals, env) && Ready(x, locals, env) ==>
      Fails(gl, st, env, x)
  }

  ghost predicate CulpritAll(gl: set<string>, locals: Locals, body: seq<Stmt>, x: string) {
    forall env: Env {:trigger Sound(locals, env)} :: Sound(locals, env) && Ready(x, locals, env) ==>
      FailsAll(gl, body, env, x)
  }

  predicate Blames(diags: seq<Diagnostic>, x: string) {
    Uninitialized(x) in diags || UnknownName(x) in diags
  }

  ghost predicate FailsArgs(gl: set<string>, args: seq<Expr>, env: Env, x: string) {
    exists cs :: EvalAll(gl, args, env, cs).kind == Violation(x)
  }

  /** The name in the first diagnostic of an expression. */
  lemma {:induction false} EvalOffends(gl: set<string>, locals: Locals, e: Expr) returns (x: string)
    requires CheckExpr(gl, locals, e) != []
    ensures Blames(CheckExpr(gl, locals, e), x)
    ensures forall env: Env {:trigger Sound(locals, env)} :: Sound(locals, env) && Ready(x, locals, env) ==>
      FailsEval(gl, e, env, x)
    decreases e, 1
  {
    hide FailsEval, FailsArgs, Uses;
    match e
    case Name(y) =>
      x := y;
      forall env: Env | Sound(locals, env) && Ready(x, locals, env) ensures FailsEval(gl, e, env, x) {
        NameFails(gl, x, env);
      }
    case Node(args) =>
      x := AllOffend(gl, locals, args);
      forall env: Env | Sound(locals, env) && Ready(x, locals, env) ensures FailsEval(gl, e, env, x) {
        NodeFails(gl, args, env, x);
      }
    case Short(a, b) =>
      if CheckExpr(gl, locals, a) != [] {
        x := EvalOffends(gl, locals, a);
        forall env: Env | Sound(locals, env) && Ready(x, locals, env) ensures FailsEval(gl, e, env, x) {
          LeftFails(gl, a, b, env, x);
        }
      } else {
        x := EvalOffends(gl, locals, b);
        forall env: Env | Sound(locals, env) && Ready(x, locals, env) ensures FailsEval(gl, e, env, x) {
          var first := EvalCompletes(gl, locals, a, env);
          RightFails(gl, a, b, env, first, x);
        }
      }
    case Try(a) =>
      x := EvalOffends(gl, locals, a);
      forall env: Env | Sound(locals, env) && Ready(x, locals, env) ensures FailsEval(gl, e, env, x) {
        TryFails(gl, a, env, x);
      }
  }

  lemma NameFails(gl: set<string>, x: string, env: Env)
    requires if x in env then !env[x] else x !in gl
    ensures FailsEval(gl, Name(x), env, x)
  {
    assert Eval(gl, Name(x), env, []).kind == Violation(x);
  }

  lemma NodeFails(gl: set<string>, args: seq<Expr>, env: Env, x: string)
    requires FailsArgs(gl, args, env, x)
    ensures FailsEval(gl, Node(args), env, x)
  {
    var cs :| EvalAll(gl, args, env, cs).kind == Violation(x);
    assert Eval(gl, Node(args), env, cs).kind == Violation(x);
  }

  lemma LeftFails(gl: set<string>, a: Expr, b: Expr, env: Env, x: string)
    requires FailsEval(gl, a, env, x)
    ensures FailsEval(gl, Short(a, b), env, x)
  {
    var cs :| Eval(gl, a, env, cs).kind == Violation(x);
    assert Eval(gl, Short(a, b), env, cs).kind == Violation(x);
  }

  lemma RightFails(gl: set<string>, a: Expr, b: Expr, env: Env, first: seq<nat>, x: string)
    requires Uses(gl, a, env, first) && FailsEval(gl, b, env, x)
    ensures FailsEval(gl, Short(a, b), env, x)
  {
    hide Uses;
    var cs :| Eval(gl, b, env, cs).kind == Violation(x);
    UsesAt(gl, a, env, first, [1] + cs);
    assert ([1] + cs)[1..] == cs;
    assert Eval(gl, Short(a, b), env, first + ([1] + cs)).kind == Violation(x);
  }

  lemma TryFails(gl: set<string>, a: Expr, env: Env, x: string)
    requires FailsEval(gl, a, env, x)
    ensures FailsEval(gl, Try(a), env, x)
  {
    var cs :| Eval(gl, a, env, cs).kind == Violation(x);
    assert Eval(gl, Try(a), env, cs).kind == Violation(x);
  }

  lemma AllOffend(gl: set<string>, locals: Locals, args: seq<Expr>) returns (x: string)
    requires CheckAll(gl, locals, args) != []
    ensures Blames(CheckAll(gl, locals, args), x)
    ensures forall env: Env {:trigger Sound(locals, env)} :: Sound(locals, env) && Ready(x, locals, env) ==>
      FailsArgs(gl, args, env, x)
    decreases args, 0
  {
    hide Uses, FailsEval, FailsArgs;
    if CheckExpr(gl, locals, args[0]) != [] {
      x := EvalOffends(gl, locals, args[0]);
      forall env: Env | Sound(locals, env) && Ready(x, locals, env) ensures FailsArgs(gl, args, env, x) {
        FirstFails(gl, args, env, x);
      }
    } else {
      x := AllOffend(gl, locals, args[1..]);
      forall env: Env | Sound(locals, env) && Ready(x, locals, env) ensures FailsArgs(gl, args, env, x) {
        var first := EvalCompletes(gl, locals, args[0], env);
        RestFails(gl, args, env, first, x);
      }
    }
  }

  lemma FirstFails(gl: set<string>, args: seq<Expr>, env: Env, x: string)
    requires args != [] && FailsEval(gl, args[0], env, x)
    ensures FailsArgs(gl, args, env, x)
  {
    var cs :| Eval(gl, args[0], env, cs).kind == Violation(x);
    assert EvalAll(gl, args, env, cs).kind == Violation(x);
  }

  lemma RestFails(gl: set<string>, args: seq<Expr>, env: Env, first: seq<nat>, x: string)
    requires args != [] && Uses(gl, args[0], env, first)
    requires FailsArgs(gl, args[1..], env, x)
    ensures FailsArgs(gl, args, env, x)
  {
    hide Uses, Eval;
    var cs :| EvalAll(gl, args[1..], env, cs).kind == Violation(x);
    UsesAt(gl, args[0], env, first, cs);
    assert EvalAll(gl, args, env, first + cs).kind == Violation(x);
  }

  /** A statement fails where the expression that it starts with does. */
  lemma HeadFails(gl: set<string>, st: Stmt, e: Expr, env: Env, x: string)
    requires FailsEval(gl, e, env, x)
    requires match st
      case Let(_, i) => i == Some(e)
      case Assign(_, v) => v == e
      case Expr(v) => v == e
      case If(c, _, _) => c == e
      case Match(v, _, _) => v == e
      case While(c, _) => c == e
      case Return(v) => v == e
      case _ => false
    ensures Fails(gl, st, env, x)
  {
    hide Eval;
    var cs :| Eval(gl, e, env, cs).kind == Violation(x);
    assert Exec(gl, st, env, cs).kind == Violation(x);
  }

  lemma HeadOffends(gl: set<string>, locals: Locals, st: Stmt, e: Expr) returns (x: string)
    requires CheckExpr(gl, locals, e) != []
    requires match st
      case Let(_, i) => i == Some(e)
      case Assign(_, v) => v == e
      case Expr(v) => v == e
      case If(c, _, _) => c == e
      case Match(v, _, _) => v == e
      case While(c, _) => c == e
      case Return(v) => v == e
      case _ => false
    ensures Culprit(gl, locals, st, x) && Blames(CheckExpr(gl, locals, e), x)
  {
    hide FailsEval, Fails;
    x := EvalOffends(gl, locals, e);
    forall env: Env | Sound(locals, env) && Ready(x, locals, env) ensures Fails(gl, st, env, x) {
      HeadFails(gl, st, e, env, x);
    }
  }

  lemma TargetFails(gl: set<string>, x: string, e: Expr, env: Env, first: seq<nat>)
    requires x !in env && x !in gl && Uses(gl, e, env, first)
    ensures Fails(gl, Assign(x, e), env, x)
  {
    hide Uses, Eval;
    UsesAt(gl, e, env, first, []);
    assert Exec(gl, Assign(x, e), env, first + []).kind == Violation(x);
  }

  lemma BranchFails(gl: set<string>, st: Stmt, env: Env, first: seq<nat>, choice: nat, x: string)
    requires st.If? && Uses(gl, st.cond, env, first)
    requires FailsAll(gl, if choice != 0 then st.thenBody else st.elseBody, env, x)
    ensures Fails(gl, st, env, x)
  {
    hide Uses, Eval, ExecBody;
    var cs :| ExecBody(gl, if choice != 0 then st.thenBody else st.elseBody, env, cs).kind == Violation(x);
    UsesAt(gl, st.cond, env, first, [choice] + cs);
    assert ([choice] + cs)[1..] == cs;
    assert Exec(gl, st, env, first + ([choice] + cs)).kind == Violation(x);
  }

  lemma ArmFails(gl: set<string>, st: Stmt, env: Env, first: seq<nat>, v: nat, i: nat, x: string)
    requires st.Match? && Uses(gl, st.value, env, first) && (st.on.Wide? || v < st.on.n)
    requires i < |st.arms| && First(st.arms, v, i)
    requires FailsAll(gl, st.arms[i].body, Bind(env, st.arms[i].bindings), x)
    ensures Fails(gl, st, env, x)
  {
    hide Uses, Exec, ExecArms, ExecBody, First;
    var cs :| ExecBody(gl, st.arms[i].body, Bind(env, st.arms[i].bindings), cs).kind == Violation(x);
    MatchRuns(gl, st, env, first, v, cs);
    ArmRuns(gl, st.arms, v, i, env, cs);
    assert Exec(gl, st, env, first + ([v] + cs)).kind == Violation(x);
  }

  lemma LoopFails(gl: set<string>, st: Stmt, env: Env, first: seq<nat>, x: string) returns (cs: seq<nat>)
    requires (st.While? || st.For?) && Uses(gl, st.cond, env, first) && FailsAll(gl, st.body, env, x)
    ensures ExecLoop(gl, st, env, cs).kind == Violation(x)
  {
    hide Uses, Eval, ExecBody;
    var inner :| ExecBody(gl, st.body, env, inner).kind == Violation(x);
    UsesAt(gl, st.cond, env, first, [1] + inner);
    assert ([1] + inner)[1..] == inner;
    cs := first + ([1] + inner);
  }

  lemma LoopHeadFails(gl: set<string>, st: Stmt, env: Env, x: string) returns (cs: seq<nat>)
    requires (st.While? || st.For?) && FailsEval(gl, st.cond, env, x)
    ensures ExecLoop(gl, st, env, cs).kind == Violation(x)
  {
    hide Eval;
    cs :| Eval(gl, st.cond, env, cs).kind == Violation(x);
  }

  lemma WhileFails(gl: set<string>, st: Stmt, env: Env, cs: seq<nat>, x: string)
    requires st.While? && ExecLoop(gl, st, env, cs).kind == Violation(x)
    ensures Fails(gl, st, env, x)
  {
    hide ExecLoop;
    assert Exec(gl, st, env, cs).kind == Violation(x);
  }

  lemma ForFails(gl: set<string>, st: Stmt, env: Env, first: seq<nat>, env': Env, cs: seq<nat>, x: string)
    requires st.For? && Reaches(gl, st.init, env, first, env') && ExecLoop(gl, st, env', cs).kind == Violation(x)
    ensures Fails(gl, st, env, x)
  {
    hide ExecLoop, Reaches, Exec;
    ReachesAt(gl, st.init, env, first, env', cs);
    ForRuns(gl, st, env, first + cs, env', cs);
    assert Exec(gl, st, env, first + cs).kind == Violation(x);
  }

  lemma ForHeadFails(gl: set<string>, st: Stmt, env: Env, x: string)
    requires st.For? && Fails(gl, st.init, env, x)
    ensures Fails(gl, st, env, x)
  {
    hide ExecLoop;
    var cs :| Exec(gl, st.init, env, cs).kind == Violation(x);
    assert Exec(gl, st, env, cs).kind == Violation(x);
  }

  /** Loops step by their own variable, which has a value. */
  lemma StepChecks(gl: set<string>, locals: Locals, st: Stmt, depth: nat, x: string)
    requires StepsBy(st, x) && x in locals && !locals[x]
    ensures Analyze(gl, locals, st, depth).diags == []
  {
    KnownChecks(gl, locals, if st.Assign? then st.value else st.value, x);
  }

  lemma {:induction false} KnownChecks(gl: set<string>, locals: Locals, e: Expr, x: string)
    requires Names(e) <= {x} && x in locals && !locals[x]
    ensures CheckExpr(gl, locals, e) == []
    decreases e, 1
  {
    match e
    case Name(y) => assert y in Names(e);
    case Node(args) => AllKnown(gl, locals, args, x);
    case Short(a, b) =>
      KnownChecks(gl, locals, a, x);
      KnownChecks(gl, locals, b, x);
    case Try(a) => KnownChecks(gl, locals, a, x);
  }

  lemma AllKnown(gl: set<string>, locals: Locals, args: seq<Expr>, x: string)
    requires AllNames(args) <= {x} && x in locals && !locals[x]
    ensures CheckAll(gl, locals, args) == []
    decreases args, 0
  {
    if args != [] {
      KnownChecks(gl, locals, args[0], x);
      AllKnown(gl, locals, args[1..], x);
    }
  }

  /** A statement in which only names are at fault: from every state that the analysis
      allows, some run of it fails at one of them. */
  lemma {:induction false} Offends(gl: set<string>, locals: Locals, st: Stmt, depth: nat) returns (x: string)
    requires Live(st) && Honest(st) && AllNamed(Analyze(gl, locals, st, depth).diags)
    requires Analyze(gl, locals, st, depth).diags != []
    ensures Culprit(gl, locals, st, x) && Blames(Analyze(gl, locals, st, depth).diags, x)
    decreases st, 1
  {
    hide Culprit, CheckExpr, Exec, Feasible, Exhaustive, HasDefault, Missing, LiveAll, HonestAll, AllNamed,
      AnalyzeAll, AnalyzeArms, Merge;
    NamedCat();
    SingleNamed();
    match st
    case Let(y, i) =>
      x := HeadOffends(gl, locals, st, i.value);
    case Assign(y, e) => x := AssignOffends(gl, locals, st, depth);
    case Expr(e) => x := HeadOffends(gl, locals, st, e);
    case If(_, _, _) => x := IfOffends(gl, locals, st, depth);
    case Match(_, _, _) => x := MatchOffends(gl, locals, st, depth);
    case While(_, _) => x := WhileOffends(gl, locals, st, depth);
    case For(_, _, _, _) => x := ForOffends(gl, locals, st, depth);
    case Return(e) => x := HeadOffends(gl, locals, st, e);
    case Unsafe(body) =>
      x := AllOffends(gl, locals, body, depth);
      UnsafeCulprit(gl, locals, body, x);
  }

  lemma UnsafeCulprit(gl: set<string>, locals: Locals, body: seq<Stmt>, x: string)
    requires CulpritAll(gl, locals, body, x)
    ensures Culprit(gl, locals, Unsafe(body), x)
  {
    forall env: Env | Sound(locals, env) && Ready(x, locals, env) ensures Fails(gl, Unsafe(body), env, x) {
      var cs :| ExecBody(gl, body, env, cs).kind == Violation(x);
      assert Exec(gl, Unsafe(body), env, cs).kind == Violation(x);
    }
  }

  lemma AssignOffends(gl: set<string>, locals: Locals, st: Stmt, depth: nat) returns (x: string)
    requires st.Assign? && Analyze(gl, locals, st, depth).diags != []
    ensures Culprit(gl, locals, st, x) && Blames(Analyze(gl, locals, st, depth).diags, x)
  {
    hide CheckExpr, Fails, Uses;
    if CheckExpr(gl, locals, st.value) != [] {
      x := HeadOffends(gl, locals, st, st.value);
    } else {
      x := st.name;
      forall env: Env | Sound(locals, env) && Ready(x, locals, env) ensures Fails(gl, st, env, x) {
        var first := EvalCompletes(gl, locals, st.value, env);
        TargetFails(gl, x, st.value, env, first);
      }
    }
  }

  lemma IfOffends(gl: set<string>, locals: Locals, st: Stmt, depth: nat) returns (x: string)
    requires st.If? && Live(st) && Honest(st) && AllNamed(Analyze(gl, locals, st, depth).diags)
    requires Analyze(gl, locals, st, depth).diags != []
    ensures Culprit(gl, locals, st, x) && Blames(Analyze(gl, locals, st, depth).diags, x)
    decreases st, 0
  {
    hide CheckExpr, Fails, FailsAll, Uses, AllNamed, AnalyzeAll, LiveAll, HonestAll, Merge, BodyDiverges;
    NamedCat();
    var d := CheckExpr(gl, locals, st.cond);
    var p, q := AnalyzeAll(gl, locals, st.thenBody, depth).diags, AnalyzeAll(gl, locals, st.elseBody, depth).diags;
    if d != [] {
      x := HeadOffends(gl, locals, st, st.cond);
    } else {
      var choice := if p != [] then 1 else 0;
      x := AllOffends(gl, locals, if choice != 0 then st.thenBody else st.elseBody, depth);
      forall env: Env | Sound(locals, env) && Ready(x, locals, env) ensures Fails(gl, st, env, x) {
        var first := EvalCompletes(gl, locals, st.cond, env);
        BranchFails(gl, st, env, first, choice, x);
      }
    }
  }

  lemma {:induction false} BindKinds(locals: Locals, names: seq<string>)
    ensures forall d :: d in BindLocals(locals, names).diags ==> !Named(d)
    decreases |names|
  {
    if names != [] { BindKinds(if names[0] in locals then locals else locals[names[0] := false], names[1..]); }
  }

  lemma NoOther(diags: seq<Diagnostic>)
    requires forall d :: d in diags ==> !Named(d)
    ensures AllNamed(diags) ==> diags == []
  {
    if diags != [] { assert diags[0] in diags; }
  }

  /** Arms in which only names are at fault: one of their bodies has a diagnostic. */
  lemma {:induction false} ArmAtFault(gl: set<string>, locals: Locals, arms: seq<Arm>, depth: nat, saw: bool)
      returns (i: nat)
    requires var p := AnalyzeArms(gl, locals, arms, depth, saw).diags; p != [] && AllNamed(p)
    ensures i < |arms| && BindLocals(locals, arms[i].bindings).diags == []
    ensures var p := AnalyzeAll(gl, BindLocals(locals, arms[i].bindings).locals, arms[i].body, depth).diags;
      p != [] && AllNamed(p) && forall d :: d in p ==> d in AnalyzeArms(gl, locals, arms, depth, saw).diags
    decreases |arms|
  {
    hide AllNamed, CheckPatterns, BindLocals, BodyDiverges, AnalyzeAll;
    NamedCat();
    var b := BindLocals(locals, arms[0].bindings);
    BindKinds(locals, arms[0].bindings);
    NoOther(b.diags);
    PatternsNamed(arms[0], 0, saw);
    if AnalyzeAll(gl, b.locals, arms[0].body, depth).diags != [] {
      i := 0;
    } else {
      i := ArmAtFault(gl, locals, arms[1..], depth, saw || Default in arms[0].patterns);
      assert arms[1..][i] == arms[i + 1];
      i := i + 1;
    }
  }

  lemma MatchOffends(gl: set<string>, locals: Locals, st: Stmt, depth: nat) returns (x: string)
    requires st.Match? && Live(st) && Honest(st) && AllNamed(Analyze(gl, locals, st, depth).diags)
    requires Analyze(gl, locals, st, depth).diags != []
    ensures Culprit(gl, locals, st, x) && Blames(Analyze(gl, locals, st, depth).diags, x)
    decreases st, 0
  {
    hide CheckExpr, Fails, FailsAll, Uses, AllNamed, AnalyzeAll, AnalyzeArms, LiveAll, HonestAll, Merge, HasDefault,
      Covered, Exhaustive, First, BindLocals, Bind;
    NamedCat();
    var d := CheckExpr(gl, locals, st.value);
    if st.on.Enum? && !HasDefault(st.arms) {
      MissingKind(st.arms, st.on.n);
      NoOther(Missing(st.arms, st.on.n));
    }
    if d != [] {
      x := HeadOffends(gl, locals, st, st.value);
    } else {
      var i := ArmAtFault(gl, locals, st.arms, depth, false);
      var arm := st.arms[i];
      var b := BindLocals(locals, arm.bindings).locals;
      ArmIsLive(st.arms, i);
      x := AllOffends(gl, b, arm.body, depth);
      assert Feasible(st.on, st.arms, i);
      var v: nat :| (st.on.Wide? || v < st.on.n) && First(st.arms, v, i);
      forall env: Env | Sound(locals, env) && Ready(x, locals, env) ensures Fails(gl, st, env, x) {
        var first := EvalCompletes(gl, locals, st.value, env);
        BindSound({}, locals, arm.bindings, env);
        BindReady(x, locals, arm.bindings, env);
        ArmFails(gl, st, env, first, v, i, x);
      }
    }
  }

  lemma WhileOffends(gl: set<string>, locals: Locals, st: Stmt, depth: nat) returns (x: string)
    requires st.While? && Live(st) && Honest(st) && AllNamed(Analyze(gl, locals, st, depth).diags)
    requires Analyze(gl, locals, st, depth).diags != []
    ensures Culprit(gl, locals, st, x) && Blames(Analyze(gl, locals, st, depth).diags, x)
    decreases st, 0
  {
    hide CheckExpr, Fails, FailsAll, Uses, AllNamed, AnalyzeAll, LiveAll, HonestAll, ExecLoop;
    NamedCat();
    if CheckExpr(gl, locals, st.cond) != [] {
      x := HeadOffends(gl, locals, st, st.cond);
    } else {
      x := AllOffends(gl, locals, st.body, depth + 1);
      forall env: Env | Sound(locals, env) && Ready(x, locals, env) ensures Fails(gl, st, env, x) {
        var first := EvalCompletes(gl, locals, st.cond, env);
        var cs := LoopFails(gl, st, env, first, x);
        WhileFails(gl, st, env, cs, x);
      }
    }
  }

  lemma ForOffends(gl: set<string>, locals: Locals, st: Stmt, depth: nat) returns (x: string)
    requires st.For? && Live(st) && Honest(st) && AllNamed(Analyze(gl, locals, st, depth).diags)
    requires Analyze(gl, locals, st, depth).diags != []
    ensures Culprit(gl, locals, st, x) && Blames(Analyze(gl, locals, st, depth).diags, x)
    decreases st, 0
  {
    hide CheckExpr, Fails, FailsAll, FailsEval, Uses, AllNamed, AnalyzeAll, LiveAll, HonestAll, ExecLoop, Reaches,
      Culprit, Exec;
    NamedCat();
    var init, y := st.init, st.init.name;
    var i := Analyze(gl, locals, init, depth);
    if CheckExpr(gl, locals, init.initial.value) != [] {
      x := HeadOffends(gl, locals, init, init.initial.value);
      ForHeadCulprit(gl, locals, st, x);
    } else {
      StartChecks(gl, locals, y, init.initial.value, depth);
      StepChecks(gl, i.locals, st.step, depth, y);
      if CheckExpr(gl, i.locals, st.cond) != [] {
        x := EvalOffends(gl, i.locals, st.cond);
        ForCondCulprit(gl, locals, st, depth, x);
      } else {
        x := AllOffends(gl, i.locals, st.body, depth + 1);
        ForBodyCulprit(gl, locals, st, depth, x);
      }
    }
  }

  lemma StartChecks(gl: set<string>, locals: Locals, y: string, e: Expr, depth: nat)
    requires CheckExpr(gl, locals, e) == [] && AllNamed(Analyze(gl, locals, Let(y, Some(e)), depth).diags)
    ensures Analyze(gl, locals, Let(y, Some(e)), depth) == Checked(locals[y := false], []) && y !in locals
  {
    hide CheckExpr;
    assert y in locals ==> Duplicate(y) in Analyze(gl, locals, Let(y, Some(e)), depth).diags;
  }

  lemma ForHeadCulprit(gl: set<string>, locals: Locals, st: Stmt, x: string)
    requires st.For? && Culprit(gl, locals, st.init, x)
    ensures Culprit(gl, locals, st, x)
  {
    hide Fails, Sound, Ready;
    forall env: Env | Sound(locals, env) && Ready(x, locals, env) ensures Fails(gl, st, env, x) {
      ForHeadFails(gl, st, env, x);
    }
  }

  lemma ForStart(gl: set<string>, locals: Locals, init: Stmt, env: Env, x: string) returns (first: seq<nat>, env': Env)
    requires init.Let? && init.initial.Some? && init.name !in locals
    requires CheckExpr(gl, locals, init.initial.value) == [] && Sound(locals, env) && Ready(x, locals, env)
    ensures Reaches(gl, init, env, first, env')
    ensures Sound(locals[init.name := false], env') && Ready(x, locals[init.name := false], env')
  {
    hide Reaches, Uses, CheckExpr;
    first := EvalCompletes(gl, locals, init.initial.value, env);
    SimpleReaches(gl, init, env, first);
    env' := env[init.name := true];
  }

  lemma ForCondCulprit(gl: set<string>, locals: Locals, st: Stmt, depth: nat, x: string)
    requires st.For? && st.init.Let? && st.init.initial.Some? && st.init.name !in locals
    requires CheckExpr(gl, locals, st.init.initial.value) == []
    requires var inner := locals[st.init.name := false];
      forall env: Env {:trigger Sound(inner, env)} :: Sound(inner, env) && Ready(x, inner, env) ==>
        FailsEval(gl, st.cond, env, x)
    ensures Culprit(gl, locals, st, x)
  {
    hide Fails, FailsEval, Sound, Ready, Reaches, CheckExpr, ExecLoop;
    forall env: Env | Sound(locals, env) && Ready(x, locals, env) ensures Fails(gl, st, env, x) {
      var first, env' := ForStart(gl, locals, st.init, env, x);
      var cs := LoopHeadFails(gl, st, env', x);
      ForFails(gl, st, env, first, env', cs, x);
    }
  }

  lemma ForBodyCulprit(gl: set<string>, locals: Locals, st: Stmt, depth: nat, x: string)
    requires st.For? && st.init.Let? && st.init.initial.Some? && st.init.name !in locals
    requires CheckExpr(gl, locals, st.init.initial.value) == []
    requires var inner := locals[st.init.name := false];
      CheckExpr(gl, inner, st.cond) == [] && CulpritAll(gl, inner, st.body, x)
    ensures Culprit(gl, locals, st, x)
  {
    hide Fails, FailsAll, Sound, Ready, Reaches, CheckExpr, ExecLoop, Uses;
    forall env: Env | Sound(locals, env) && Ready(x, locals, env) ensures Fails(gl, st, env, x) {
      var first, env' := ForStart(gl, locals, st.init, env, x);
      var second := EvalCompletes(gl, locals[st.init.name := false], st.cond, env');
      var cs := LoopFails(gl, st, env', second, x);
      ForFails(gl, st, env, first, env', cs, x);
    }
  }

  lemma AllOffends(gl: set<string>, locals: Locals, body: seq<Stmt>, depth: nat) returns (x: string)
    requires LiveAll(body) && HonestAll(body) && AllNamed(AnalyzeAll(gl, locals, body, depth).diags)
    requires AnalyzeAll(gl, locals, body, depth).diags != []
    ensures CulpritAll(gl, locals, body, x) && Blames(AnalyzeAll(gl, locals, body, depth).diags, x)
    decreases body, 2
  {
    hide AllNamed, Analyze, Live, Honest, Diverges, Sound, Ready, Fails, FailsAll, Reaches;
    NamedCat();
    var st, r := body[0], Analyze(gl, locals, body[0], depth);
    NotDeferred(st);
    if r.diags != [] {
      x := Offends(gl, locals, st, depth);
      forall env: Env | Sound(locals, env) && Ready(x, locals, env) ensures FailsAll(gl, body, env, x) {
        HereFails(gl, body, env, x);
      }
    } else {
      x := AllOffends(gl, r.locals, body[1..], depth);
      forall env: Env | Sound(locals, env) && Ready(x, locals, env) ensures FailsAll(gl, body, env, x) {
        var first, mid := Completes(gl, locals, st, depth, env, x);
        StaysSound(gl, locals, st, depth, env, first, mid);
        LaterFails(gl, body, env, first, mid, x);
      }
    }
  }

  lemma HereFails(gl: set<string>, body: seq<Stmt>, env: Env, x: string)
    requires body != [] && !body[0].Defer? && Fails(gl, body[0], env, x)
    ensures FailsAll(gl, body, env, x)
  {
    hide Exec, ExecBody;
    var cs :| Exec(gl, body[0], env, cs).kind == Violation(x);
    BodyRuns(gl, body, env, cs);
    assert ExecBody(gl, body, env, cs).kind == Violation(x);
  }

  lemma LaterFails(gl: set<string>, body: seq<Stmt>, env: Env, first: seq<nat>, mid: Env, x: string)
    requires body != [] && !body[0].Defer? && Reaches(gl, body[0], env, first, mid) && FailsAll(gl, body[1..], mid, x)
    ensures FailsAll(gl, body, env, x)
  {
    hide Exec, ExecBody, Reaches;
    var cs :| ExecBody(gl, body[1..], mid, cs).kind == Violation(x);
    ReachesAt(gl, body[0], env, first, mid, cs);
    BodyRuns(gl, body, env, first + cs);
    assert ExecBody(gl, body, env, first + cs).kind == Violation(x);
  }

  // ---- the analysis is exact ----

  /** Of the functions that are well structured and all of whose code can be reached, the
      analysis rejects just those that some run makes read a name without a value. */
  lemma RejectedExactly(gl: set<string>, params: set<string>, body: seq<Stmt>)
    requires LiveAll(body) && HonestAll(body) && StructuredAll(params, body, 0)
    ensures AnalyzeAll(gl, Entry(params), body, 0).diags == [] <==>
      forall cs :: !ExecBody(gl, body, Start(params), cs).kind.Violation?
  {
    hide ExecBody, AnalyzeAll, StructuredAll, LiveAll, HonestAll;
    var d := AnalyzeAll(gl, Entry(params), body, 0).diags;
    if d == [] {
      LiveFormedAll(body);
      forall cs ensures !ExecBody(gl, body, Start(params), cs).kind.Violation? {
        AcceptedNeverReadsUninitialized(gl, params, body, cs);
      }
    } else {
      var x, cs := RejectedFails(gl, params, body);
    }
  }

  /** A name that a diagnostic is about, and a run that reads it without a value. */
  lemma RejectedFails(gl: set<string>, params: set<string>, body: seq<Stmt>) returns (x: string, cs: seq<nat>)
    requires LiveAll(body) && HonestAll(body) && StructuredAll(params, body, 0)
    requires AnalyzeAll(gl, Entry(params), body, 0).diags != []
    ensures Blames(AnalyzeAll(gl, Entry(params), body, 0).diags, x)
    ensures ExecBody(gl, body, Start(params), cs).kind == Violation(x)
  {
    hide ExecBody, AnalyzeAll, StructuredAll, LiveAll, HonestAll, AllNamed, Blames;
    assert Entry(params).Keys == params;
    StructureDecidesAll(gl, Entry(params), body, 0);
    x := AllOffends(gl, Entry(params), body, 0);
    assert Sound(Entry(params), Start(params)) && Ready(x, Entry(params), Start(params));
    cs :| ExecBody(gl, body, Start(params), cs).kind == Violation(x);
  }

  /** Behind code without diagnostics a local is down as possibly uninitialized just if
      some run completes without giving it a value. */
  lemma BitIsExact(gl: set<string>, params: set<string>, body: seq<Stmt>, x: string)
    requires LiveAll(body) && HonestAll(body) && !BodyDiverges(body)
    requires AnalyzeAll(gl, Entry(params), body, 0).diags == [] && x in AnalyzeAll(gl, Entry(params), body, 0).locals
    ensures AnalyzeAll(gl, Entry(params), body, 0).locals[x] <==>
      exists cs :: ExecBody(gl, body, Start(params), cs).kind.Normal? &&
        Unset(x, ExecBody(gl, body, Start(params), cs).env)
  {
    hide ExecBody, AnalyzeAll, LiveAll, HonestAll, BodyDiverges;
    var locals, env := Entry(params), Start(params);
    var end := AnalyzeAll(gl, locals, body, 0).locals;
    assert Sound(locals, env) && Ready(x, locals, env);
    if end[x] {
      var used, env' := AllComplete(gl, locals, body, 0, env, x);
      ReachesAllAt(gl, body, env, used, env', []);
      assert ExecBody(gl, body, env, used + []) == Run(Normal, env', []);
    }
    if cs :| ExecBody(gl, body, env, cs).kind.Normal? && Unset(x, ExecBody(gl, body, env, cs).env) {
      LiveFormedAll(body);
      SafeBody(gl, {}, locals, body, 0, env, cs);
    }
  }

  // ---- what spoils it ----

  /** What stands behind a diverging statement makes no difference to any run. */
  lemma {:induction false} DeadCodeNeverRuns(gl: set<string>, pre: seq<Stmt>, st: Stmt, post: seq<Stmt>, env: Env,
                                             cs: seq<nat>)
    requires Diverges(st) && Honest(st)
    ensures ExecBody(gl, pre + ([st] + post), env, cs) == ExecBody(gl, pre + [st], env, cs)
    decreases |pre|
  {
    hide Exec, Diverges, Honest;
    var body, short := pre + ([st] + post), pre + [st];
    if pre == [] {
      assert body == [st] + post && short == [st];
      DivergesNotDeferred(st);
      BodyCons(gl, st, post, env, cs);
      BodyOfOne(gl, st, env, cs);
      DivergingNeverCompletes(gl, st, env, cs);
    } else {
      assert body[0] == pre[0] && short[0] == pre[0];
      assert body[1..] == pre[1..] + ([st] + post) && short[1..] == pre[1..] + [st];
      if pre[0].Defer? {
        DeadCodeNeverRuns(gl, pre[1..], st, post, env, cs);
      } else {
        var r := Exec(gl, pre[0], env, cs);
        DeadCodeNeverRuns(gl, pre[1..], st, post, r.env, r.cs);
      }
    }
  }

  lemma DivergesNotDeferred(st: Stmt)
    requires Diverges(st)
    ensures !st.Defer?
  {
  }

  /** Nor does the body of an arm that is first for no value. */
  lemma InfeasibleArmNeverRuns(gl: set<string>, st: Stmt, i: nat, other: seq<Stmt>, env: Env, cs: seq<nat>)
    requires st.Match? && i < |st.arms| && !Feasible(st.on, st.arms, i)
    ensures Exec(gl, st, env, cs) == Exec(gl, st.(arms := st.arms[i := st.arms[i].(body := other)]), env, cs)
  {
    hide Eval, ExecArms, First;
    var r := Eval(gl, st.value, env, cs);
    if r.kind.Normal? && r.cs != [] && (st.on.Wide? || st.on.n != 0) {
      var v := if st.on.Wide? then r.cs[0] else r.cs[0] % st.on.n;
      assert !First(st.arms, v, i);
      OtherArmRuns(gl, st.arms, i, other, v, env, r.cs[1..]);
    }
  }

  lemma {:induction false} OtherArmRuns(gl: set<string>, arms: seq<Arm>, i: nat, other: seq<Stmt>, v: nat, env: Env,
                                        cs: seq<nat>)
    requires i < |arms| && !First(arms, v, i)
    ensures ExecArms(gl, arms, v, env, cs) == ExecArms(gl, arms[i := arms[i].(body := other)], v, env, cs)
    decreases |arms|
  {
    hide ExecBody, Hits;
    assert Hits(arms[0], v) == Hits(arms[i := arms[i].(body := other)][0], v) by { SameHits(arms[i], other, v); }
    if i > 0 && !Hits(arms[0], v) {
      assert forall j :: 0 <= j < |arms[1..]| ==> arms[1..][j] == arms[j + 1];
      assert !First(arms[1..], v, i - 1) by {
        if First(arms[1..], v, i - 1) {
          forall j | 0 <= j < i ensures !Hits(arms[j], v) { if j > 0 { assert !Hits(arms[1..][j - 1], v); } }
          assert false;
        }
      }
      OtherArmRuns(gl, arms[1..], i - 1, other, v, env, cs);
      assert arms[i := arms[i].(body := other)][1..] == arms[1..][i - 1 := arms[1..][i - 1].(body := other)];
    } else if i == 0 {
      assert arms[i := arms[i].(body := other)][1..] == arms[1..];
    }
  }

  lemma SameHits(arm: Arm, other: seq<Stmt>, v: nat)
    ensures Hits(arm, v) == Hits(arm.(body := other), v)
  {
  }

  /** A match without a default on a type that is no enum keeps every bit. */
  lemma CoveredMatchKeepsBits(gl: set<string>, locals: Locals, st: Stmt, depth: nat, x: string)
    requires st.Match? && !st.on.Enum? && !HasDefault(st.arms) && x in locals
    ensures x in Analyze(gl, locals, st, depth).locals && Analyze(gl, locals, st, depth).locals[x] == locals[x]
  {
    hide AnalyzeArms, HasDefault, CheckExpr;
    UninitializedOnlyFalls(gl, locals, st, depth);
    var branches := AnalyzeArms(gl, locals, st.arms, depth, false).branches + [locals];
    assert locals in branches;
  }

  /** If its patterns list all values, the bit is right just if some arm that completes
      leaves the local without a value. */
  lemma CoveredMatchExactly(gl: set<string>, locals: Locals, st: Stmt, depth: nat, env: Env, x: string)
    requires st.Match? && st.on.Small? && st.on.n > 0 && !HasDefault(st.arms) && Exhaustive(st.on, st.arms)
    requires LiveArms(st.arms) && HonestArms(st.arms)
    requires forall i :: 0 <= i < |st.arms| ==> Feasible(st.on, st.arms, i)
    requires Analyze(gl, locals, st, depth).diags == [] && Sound(locals, env)
    requires x in locals && locals[x] && Unset(x, env)
    ensures (exists cs :: Exec(gl, st, env, cs).kind.Normal? && Unset(x, Exec(gl, st, env, cs).env)) <==>
      exists i :: 0 <= i < |st.arms| && LeavesUnset(gl, locals, st.arms[i], depth, x)
  {
    hide *;
    if i :| 0 <= i < |st.arms| && LeavesUnset(gl, locals, st.arms[i], depth, x) {
      var cs := ArmLeaves(gl, locals, st, depth, env, x, i);
    }
    if cs :| Exec(gl, st, env, cs).kind.Normal? && Unset(x, Exec(gl, st, env, cs).env) {
      var i := ArmLeft(gl, locals, st, depth, env, x, cs);
    }
  }

  predicate LeavesUnset(gl: set<string>, locals: Locals, arm: Arm, depth: nat, x: string) {
    var end := ArmEnd(gl, locals, arm, depth);
    !BodyDiverges(arm.body) && x in end && end[x]
  }

  lemma MatchChecks(gl: set<string>, locals: Locals, st: Stmt, depth: nat)
    requires st.Match? && Analyze(gl, locals, st, depth).diags == []
    ensures CheckExpr(gl, locals, st.value) == [] && AnalyzeArms(gl, locals, st.arms, depth, false).diags == []
  {
    hide CheckExpr, AnalyzeArms, Missing, HasDefault, Merge;
  }

  lemma ArmLeaves(gl: set<string>, locals: Locals, st: Stmt, depth: nat, env: Env, x: string, i: nat)
      returns (cs: seq<nat>)
    requires st.Match? && i < |st.arms| && LiveArms(st.arms) && HonestArms(st.arms) && Feasible(st.on, st.arms, i)
    requires Analyze(gl, locals, st, depth).diags == [] && Sound(locals, env)
    requires x in locals && locals[x] && Unset(x, env) && LeavesUnset(gl, locals, st.arms[i], depth, x)
    ensures Exec(gl, st, env, cs).kind.Normal? && Unset(x, Exec(gl, st, env, cs).env)
  {
    hide Reaches, ReachesAll, Uses, CheckExpr, AnalyzeAll, Analyze, LiveAll, LiveArms, HonestArms, HonestAll,
      BodyDiverges, AnalyzeArms, First, BindLocals, Bind, Exec;
    MatchChecks(gl, locals, st, depth);
    var first := EvalCompletes(gl, locals, st.value, env);
    var v: nat :| (st.on.Wide? || v < st.on.n) && First(st.arms, v, i);
    var arm := st.arms[i];
    ArmIsLive(st.arms, i);
    ArmChecks(gl, locals, st.arms, depth, false, i);
    BindSound({}, locals, arm.bindings, env);
    BindReady(x, locals, arm.bindings, env);
    var rest, env1 := AllComplete(gl, BindLocals(locals, arm.bindings).locals, arm.body, depth,
                                  Bind(env, arm.bindings), x);
    ArmReaches(gl, st, env, first, v, i, rest, env1);
    cs := first + ([v] + rest) + [];
    ReachesAt(gl, st, env, first + ([v] + rest), Restrict(env1, env.Keys), []);
  }

  lemma {:induction false} FirstTaken(arms: seq<Arm>, v: nat) returns (i: nat)
    requires Taken(arms, v)
    ensures i < |arms| && First(arms, v, i)
    decreases |arms|
  {
    hide Hits;
    if Hits(arms[0], v) { return 0; }
    var k :| 0 <= k < |arms| && Hits(arms[k], v);
    assert forall j :: 0 <= j < |arms[1..]| ==> arms[1..][j] == arms[j + 1];
    assert Hits(arms[1..][k - 1], v);
    var j := FirstTaken(arms[1..], v);
    i := j + 1;
    forall m | 0 <= m < i ensures !Hits(arms[m], v) { if m > 0 { assert !Hits(arms[1..][m - 1], v); } }
  }

  lemma ArmLeft(gl: set<string>, locals: Locals, st: Stmt, depth: nat, env: Env, x: string, cs: seq<nat>)
      returns (i: nat)
    requires st.Match? && Exhaustive(st.on, st.arms) && LiveArms(st.arms) && HonestArms(st.arms)
    requires Analyze(gl, locals, st, depth).diags == [] && Sound(locals, env) && x in locals
    requires Exec(gl, st, env, cs).kind.Normal? && Unset(x, Exec(gl, st, env, cs).env)
    ensures i < |st.arms| && LeavesUnset(gl, locals, st.arms[i], depth, x)
  {
    hide CheckExpr, AnalyzeAll, Analyze, LiveAll, LiveArms, HonestArms, HonestAll, BodyDiverges, AnalyzeArms, First,
      BindLocals, Bind, ExecArms, ExecBody, Taken, Exhaustive, Eval;
    MatchChecks(gl, locals, st, depth);
    var r := Eval(gl, st.value, env, cs);
    var v := if st.on.Wide? then r.cs[0] else r.cs[0] % st.on.n;
    ExhaustiveTakes(st.on, st.arms, v);
    i := FirstTaken(st.arms, v);
    var arm := st.arms[i];
    ArmRuns(gl, st.arms, v, i, env, r.cs[1..]);
    ArmIsLive(st.arms, i);
    ArmChecks(gl, locals, st.arms, depth, false, i);
    BindSound({}, locals, arm.bindings, env);
    LiveFormedAll(arm.body);
    SafeBody(gl, {}, BindLocals(locals, arm.bindings).locals, arm.body, depth, Bind(env, arm.bindings), r.cs[1..]);
    if BodyDiverges(arm.body) { BodyNeverCompletes(gl, arm.body, Bind(env, arm.bindings), r.cs[1..]); }
  }

  /** The head of a loop gives a local its value in every run, and behind the loop it is
      still down as possibly uninitialized. */
  lemma LoopHeadForgets(gl: set<string>, p: set<string>, locals: Locals, st: Stmt, depth: nat, env: Env, cs: seq<nat>)
    requires st.For? && st.init.Assign? && st.init.name in locals && locals[st.init.name]
    requires Analyze(gl, locals, st, depth).diags == [] && Honest(st) && Formed(p, st) && Sound(locals, env)
    ensures Analyze(gl, locals, st, depth).locals[st.init.name]
    ensures Exec(gl, st, env, cs).kind.Normal? ==> !Unset(st.init.name, Exec(gl, st, env, cs).env)
  {
    hide ExecLoop, AnalyzeAll, CheckExpr, FormedAll, HonestAll, Eval;
    var i := Analyze(gl, locals, st.init, depth);
    SafeStmt(gl, p, locals, st.init, depth, env, cs);
    var r := Exec(gl, st.init, env, cs);
    if r.kind.Normal? { SafeLoop(gl, p, i.locals, st, depth, r.env, r.cs); }
  }

  /** A deferred call on a local that gets its value later: rejected, but it fails just if
      the value itself cannot be computed or the function is left in its midst. */
  lemma DeferredReadExactly(gl: set<string>, locals: Locals, x: string, e: Expr, depth: nat, env: Env, cs: seq<nat>)
    requires x in locals && locals[x] && Unset(x, env)
    ensures var body := [Defer(Name(x)), Assign(x, e)];
      && Uninitialized(x) in AnalyzeAll(gl, locals, body, depth).diags
      && (ExecBody(gl, body, env, cs).kind == Violation(x) <==>
          var k := Eval(gl, e, env, cs).kind; k == Violation(x) || k == Returned)
  {
    hide Eval, EvalAll;
    var body, rest := [Defer(Name(x)), Assign(x, e)], [Assign(x, e)];
    EvaluationStays(gl);
    assert body[1..] == rest;
    BodyOfOne(gl, Assign(x, e), env, cs);
    var r := Exec(gl, Assign(x, e), env, cs);
    NameEvaluates(gl, x, r.env, r.cs);
    assert AnalyzeAll(gl, locals, body, depth).diags ==
      Analyze(gl, locals, body[0], depth).diags + AnalyzeAll(gl, locals, rest, depth).diags;
  }

  lemma NameEvaluates(gl: set<string>, x: string, env: Env, cs: seq<nat>)
    requires x in env
    ensures Eval(gl, Name(x), env, cs) == Run(if env[x] then Normal else Violation(x), env, cs)
  {
  }

  function Gives(tag: nat): Arm {
    Arm([Tag(tag)], [], [Assign("x", Nothing())])
  }

  /** Two patterns, and both arms give `x` a value. */
  function BothGive(on: Domain): Stmt {
    Match(Nothing(), on, [Gives(0), Gives(1)])
  }

  function ReadBehind(on: Domain): seq<Stmt> {
    [Let("x", None)] + ([BothGive(on)] + [Return(Name("x"))])
  }

  /** A read behind it is accepted on an enum of two variants; on a type of two values
      that is no enum it is rejected, and fails in no run. */
  lemma BothGiveDecides()
    ensures AnalyzeAll({}, map[], ReadBehind(Enum(2)), 0).diags == []
    ensures AnalyzeAll({}, map[], ReadBehind(Small(2)), 0).diags == [Uninitialized("x")]
    ensures forall cs :: !ExecBody({}, ReadBehind(Small(2)), map[], cs).kind.Violation?
  {
    hide *;
    ReadAnalysis(Enum(2));
    ReadAnalysis(Small(2));
    forall cs ensures !ExecBody({}, ReadBehind(Small(2)), map[], cs).kind.Violation? { ReadRuns(cs); }
  }

  lemma ReadAnalysis(on: Domain)
    requires on == Enum(2) || on == Small(2)
    ensures AnalyzeAll({}, map[], ReadBehind(on), 0).diags == if on.Enum? then [] else [Uninitialized("x")]
  {
    hide Analyze, AnalyzeAll, Merge, AnalyzeArms, BothGive;
    var l1: Locals, l0: Locals := map["x" := true], map["x" := false];
    var last := Return(Name("x"));
    BothAnalysis(on);
    var l := if on.Enum? then l0 else l1;
    ReadAfter(l);
    AnalyzeOne({}, l, last, 0);
    AnalyzeCons({}, l1, BothGive(on), [last], 0);
    AnalyzeCons({}, map[], Let("x", None), [BothGive(on)] + [last], 0);
  }

  lemma ReadAfter(l: Locals)
    requires "x" in l
    ensures Analyze({}, l, Return(Name("x")), 0) == Checked(l, if l["x"] then [Uninitialized("x")] else [])
    ensures Analyze({}, map[], Let("x", None), 0) == Checked(map["x" := true], [])
  {
  }

  lemma BothAnalysis(on: Domain)
    requires on == Enum(2) || on == Small(2)
    ensures Analyze({}, map["x" := true], BothGive(on), 0) == Checked(map["x" := on.Small?], [])
  {
    hide AnalyzeArms, HasDefault, Missing, Merge;
    var l1: Locals, l0: Locals, arms := map["x" := true], map["x" := false], BothGive(on).arms;
    GivesAnalysis(l1, l0, arms);
    assert !HasDefault(arms) by { NoDefaults(arms); }
    assert Covered(arms, 0) && Covered(arms, 1) by { assert Tag(0) in arms[0].patterns && Tag(1) in arms[1].patterns; }
    assert Missing(arms, 2) == [];
    assert CheckExpr({}, l1, Nothing()) == [];
    MergeBoth(l1, l0);
  }

  lemma NoDefaults(arms: seq<Arm>)
    requires arms == [Gives(0), Gives(1)]
    ensures !HasDefault(arms)
  {
  }

  lemma MergeBoth(l1: Locals, l0: Locals)
    requires l1 == map["x" := true] && l0 == map["x" := false]
    ensures Merge(l1, [l0, l0] + []) == l0 && Merge(l1, [l0, l0] + [l1]) == l1
  {
    assert l0 in [l0, l0] + [] && l1 in [l0, l0] + [l1];
  }

  lemma GivesAnalysis(l1: Locals, l0: Locals, arms: seq<Arm>)
    requires l1 == map["x" := true] && l0 == map["x" := false] && arms == [Gives(0), Gives(1)]
    ensures AnalyzeArms({}, l1, arms, 0, false) == CheckedArms([l0, l0], [])
  {
    hide AnalyzeAll, Analyze;
    GiveAnalysis(l1, l0);
    assert arms[1..] == [Gives(1)] && arms[1..][1..] == [];
    assert CheckPatterns(Gives(0), 0, false) == [] && CheckPatterns(Gives(1), 0, false) == [];
    assert AnalyzeArms({}, l1, arms[1..], 0, false) == CheckedArms([l0], []);
  }

  lemma GiveAnalysis(l1: Locals, l0: Locals)
    requires l1 == map["x" := true] && l0 == map["x" := false]
    ensures AnalyzeAll({}, l1, [Assign("x", Nothing())], 0) == Checked(l0, [])
    ensures !BodyDiverges([Assign("x", Nothing())])
  {
    AnalyzeOne({}, l1, Assign("x", Nothing()), 0);
  }

  lemma ReadRuns(cs: seq<nat>)
    ensures !ExecBody({}, ReadBehind(Small(2)), map[], cs).kind.Violation?
  {
    hide ExecBody, ExecArms, BothGive;
    var env: Env, last := map["x" := false], Return(Name("x"));
    BodyCons({}, Let("x", None), [BothGive(Small(2))] + [last], map[], cs);
    BothRun(cs);
    var r := Exec({}, BothGive(Small(2)), env, cs);
    BodyCons({}, BothGive(Small(2)), [last], env, cs);
    BodyOfOne({}, last, r.env, r.cs);
  }

  lemma BothRun(cs: seq<nat>)
    ensures var r := Exec({}, BothGive(Small(2)), map["x" := false], cs);
      !r.kind.Violation? && (r.kind.Normal? ==> r.env == map["x" := true])
    ensures !BothGive(Small(2)).Defer?
  {
    hide ExecArms, ExecBody, Hits;
    var env: Env, on: Env, arms := map["x" := false], map["x" := true], [Gives(0), Gives(1)];
    if cs != [] {
      var v := cs[0] % 2;
      GivesFirst(arms, v);
      ArmRuns({}, arms, v, v, env, cs[1..]);
      assert arms[v].body == [Assign("x", Nothing())] && Bind(env, arms[v].bindings) == env;
      BodyOfOne({}, Assign("x", Nothing()), env, cs[1..]);
      assert env["x" := true] == on && Restrict(on, env.Keys) == on;
    }
  }

  lemma GivesFirst(arms: seq<Arm>, v: nat)
    requires arms == [Gives(0), Gives(1)] && v < 2
    ensures First(arms, v, v)
  {
    assert Hits(arms[v], v);
  }

  /** A loop that gives `y` a value in its body and steps by `y`. */
  function StepReads(): Stmt {
    For(Let("i", Some(Nothing())), Nothing(), Assign("i", Name("y")), [Assign("y", Nothing())])
  }

  /** Its step is checked against the state in front of the body: rejected, and no run fails. */
  lemma StepDecides(cs: seq<nat>)
    ensures Uninitialized("y") in Analyze({}, map["y" := true], StepReads(), 0).diags
    ensures !Exec({}, StepReads(), map["y" := false], cs).kind.Violation?
  {
    hide ExecLoop, AnalyzeAll;
    StepLoop(map["y" := false, "i" := true], cs);
  }

  lemma StepLoop(env: Env, cs: seq<nat>)
    requires env.Keys == {"i", "y"}
    ensures !ExecLoop({}, StepReads(), env, cs).kind.Violation?
    decreases |cs|
  {
    hide ExecBody, Exec;
    var st := StepReads();
    if cs != [] && cs[0] != 0 {
      BodyOfOne({}, st.body[0], env, cs[1..]);
      GivesY(env, cs[1..]);
      var given := env["y" := true];
      assert Restrict(given, env.Keys) == given && Restrict(Restrict(given, env.Keys), env.Keys) == given;
      StepLoop(given["i" := true], cs[1..]);
    }
  }

  lemma GivesY(env: Env, cs: seq<nat>)
    requires env.Keys == {"i", "y"}
    ensures Exec({}, Assign("y", Nothing()), env, cs) == Run(Normal, env["y" := true], cs)
    ensures Exec({}, Assign("i", Name("y")), env["y" := true], cs) ==
      Run(Normal, env["y" := true]["i" := true], cs)
  {
  }
}
