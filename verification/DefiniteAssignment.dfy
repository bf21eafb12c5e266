/** Definite assignment: what programs do to the initialized state of their
    locals, and the analysis that is to rule out every read of a local without a
    value. */
module DefiniteAssignment {
  /** `Short` may or may not evaluate its right operand, and `Try` may leave the
      function behind its operand. */
  datatype Expr = Name(name: string) | Node(args: seq<Expr>) | Short(lhs: Expr, rhs: Expr) | Try(arg: Expr)

  datatype Option<T> = None | Some(value: T)

  datatype Pattern = Default | Tag(tag: nat)

  datatype Arm = Arm(patterns: seq<Pattern>, bindings: seq<string>, body: seq<Stmt>)

  /** What is matched: an enum with so many variants, a type with so many values
      that is no enum, or one with more values than any match can list. */
  datatype Domain = Enum(n: nat) | Small(n: nat) | Wide

  datatype Stmt =
    | Let(name: string, initial: Option<Expr>)
    | Assign(name: string, value: Expr)
    | Expr(value: Expr)
    | If(cond: Expr, thenBody: seq<Stmt>, elseBody: seq<Stmt>)
    | Match(value: Expr, on: Domain, arms: seq<Arm>)
    | While(cond: Expr, body: seq<Stmt>)
    | For(init: Stmt, cond: Expr, step: Stmt, body: seq<Stmt>)
    | Break
    | Continue
    | Return(value: Expr)
    | Unsafe(body: seq<Stmt>)
    | Defer(call: Expr)

  predicate HasDefault(arms: seq<Arm>) {
    exists i :: 0 <= i < |arms| && Default in arms[i].patterns
  }

  predicate Hits(arm: Arm, v: nat) {
    Default in arm.patterns || Tag(v) in arm.patterns
  }

  /** No value falls past the arms. */
  predicate Exhaustive(on: Domain, arms: seq<Arm>) {
    HasDefault(arms) || (!on.Wide? && forall v: nat :: v < on.n ==> Taken(arms, v))
  }

  predicate Taken(arms: seq<Arm>, v: nat) {
    exists i :: 0 <= i < |arms| && Hits(arms[i], v)
  }

  // ---- execution ----

  /** The locals that exist, and whether each has been assigned. */
  type Env = map<string, bool>

  datatype Kind = Normal | Broke | Continued | Returned | Stopped | Violation(name: string)

  /** How a run goes on, with the choices that are left. A run that is out of
      choices has stopped: every prefix of every run is the run of some choices. */
  datatype Run = Run(kind: Kind, env: Env, cs: seq<nat>)

  function Restrict(env: Env, names: set<string>): Env {
    map x | x in env && x in names :: env[x]
  }

  /** A scope ends where control goes on behind it. An exit keeps the names of the place
      it starts from until it has arrived: cleanup on the way sees them. */
  function Scoped(r: Run, env: Env): Run {
    if r.kind.Normal? then r.(env := Restrict(r.env, env.Keys)) else r
  }

  /** Evaluation reads names: a local needs a value, and any other name must be
      that of a static. */
  function Eval(gl: set<string>, e: Expr, env: Env, cs: seq<nat>): (r: Run)
    ensures r.env == env && |r.cs| <= |cs|
    decreases e, 1
  {
    match e
    case Name(x) => Run(if (if x in env then env[x] else x in gl) then Normal else Violation(x), env, cs)
    case Node(args) => EvalAll(gl, args, env, cs)
    case Short(a, b) =>
      var r := Eval(gl, a, env, cs);
      if !r.kind.Normal? then r
      else if r.cs == [] then r.(kind := Stopped)
      else if r.cs[0] == 0 then r.(cs := r.cs[1..])
      else Eval(gl, b, env, r.cs[1..])
    case Try(a) =>
      var r := Eval(gl, a, env, cs);
      if !r.kind.Normal? then r
      else if r.cs == [] then r.(kind := Stopped)
      else Run(if r.cs[0] == 0 then Returned else Normal, env, r.cs[1..])
  }

  function EvalAll(gl: set<string>, args: seq<Expr>, env: Env, cs: seq<nat>): (r: Run)
    ensures r.env == env && |r.cs| <= |cs|
    decreases args, 0
  {
    if args == [] then Run(Normal, env, cs) else
    var r := Eval(gl, args[0], env, cs);
    if r.kind.Normal? then EvalAll(gl, args[1..], env, r.cs) else r
  }

  function Exec(gl: set<string>, st: Stmt, env: Env, cs: seq<nat>): (r: Run)
    ensures |r.cs| <= |cs|
    decreases |cs|, st, 2
  {
    match st
    case Let(x, init) =>
      if init.None? then Run(Normal, env[x := false], cs) else
      var r := Eval(gl, init.value, env, cs);
      if r.kind.Normal? then r.(env := env[x := true]) else r
    case Assign(x, e) =>
      var r := Eval(gl, e, env, cs);
      if !r.kind.Normal? then r
      else if x in env then r.(env := env[x := true])
      else if x in gl then r
      else r.(kind := Violation(x))
    case Expr(e) => Eval(gl, e, env, cs)
    case If(c, a, b) =>
      var r := Eval(gl, c, env, cs);
      if !r.kind.Normal? then r
      else if r.cs == [] then r.(kind := Stopped)
      else ExecBlock(gl, if r.cs[0] != 0 then a else b, env, r.cs[1..])
    case Match(e, on, arms) =>
      var r := Eval(gl, e, env, cs);
      if !r.kind.Normal? then r
      else if r.cs == [] || (!on.Wide? && on.n == 0) then r.(kind := Stopped)
      else ExecArms(gl, arms, if on.Wide? then r.cs[0] else r.cs[0] % on.n, env, r.cs[1..])
    case While(_, _) => ExecLoop(gl, st, env, cs)
    case For(init, _, _, _) =>
      var r := Exec(gl, init, env, cs);
      var q := if r.kind.Normal? then ExecLoop(gl, st, r.env, r.cs) else r;
      Scoped(q, env)
    case Break => Run(Broke, env, cs)
    case Continue => Run(Continued, env, cs)
    case Return(e) =>
      var r := Eval(gl, e, env, cs);
      if r.kind.Normal? then r.(kind := Returned) else r
    case Unsafe(body) => ExecBody(gl, body, env, cs)
    case Defer(_) => Run(Normal, env, cs)
  }

  /** A block with a scope of its own. */
  function ExecBlock(gl: set<string>, body: seq<Stmt>, env: Env, cs: seq<nat>): (r: Run)
    ensures |r.cs| <= |cs|
    decreases |cs|, body, 1
  {
    Scoped(ExecBody(gl, body, env, cs), env)
  }

  /** A statement list. Deferred calls run, with the names as they are then, when
      the list is left. */
  function ExecBody(gl: set<string>, body: seq<Stmt>, env: Env, cs: seq<nat>): (r: Run)
    ensures |r.cs| <= |cs|
    decreases |cs|, body, 0
  {
    if body == [] then Run(Normal, env, cs)
    else if body[0].Defer? then
      var r := ExecBody(gl, body[1..], env, cs);
      if r.kind.Stopped? || r.kind.Violation? then r else
      var q := Eval(gl, body[0].call, r.env, r.cs);
      if q.kind.Normal? then r.(cs := q.cs) else q
    else
      var r := Exec(gl, body[0], env, cs);
      if r.kind.Normal? then ExecBody(gl, body[1..], r.env, r.cs) else r
  }

  function ExecArms(gl: set<string>, arms: seq<Arm>, v: nat, env: Env, cs: seq<nat>): (r: Run)
    ensures |r.cs| <= |cs|
    decreases |cs|, arms, 1
  {
    if arms == [] then Run(Normal, env, cs)
    else if Hits(arms[0], v) then
      Scoped(ExecBody(gl, arms[0].body, Bind(env, arms[0].bindings), cs), env)
    else ExecArms(gl, arms[1..], v, env, cs)
  }

  function Bind(env: Env, names: seq<string>): Env
    decreases names
  {
    if names == [] then env else Bind(env[names[0] := true], names[1..])
  }

  function ExecLoop(gl: set<string>, st: Stmt, env: Env, cs: seq<nat>): (r: Run)
    requires st.While? || st.For?
    ensures |r.cs| <= |cs|
    decreases |cs|, st, 1
  {
    var r := Eval(gl, st.cond, env, cs);
    if !r.kind.Normal? then r
    else if r.cs == [] then r.(kind := Stopped)
    else if r.cs[0] == 0 then r.(cs := r.cs[1..])
    else
      var b := ExecBlock(gl, st.body, env, r.cs[1..]);
      var back := Restrict(b.env, env.Keys);
      if b.kind.Broke? then b.(kind := Normal, env := back)
      else if !b.kind.Normal? && !b.kind.Continued? then b
      else
        var q := if st.For? then Exec(gl, st.step, back, b.cs) else b.(env := back);
        if st.While? || q.kind.Normal? then ExecLoop(gl, st, q.env, q.cs) else q
  }

  // ---- the analysis ----

  /** For every local in scope, whether it is possibly uninitialized. */
  type Locals = map<string, bool>

  datatype Diagnostic =
    | UnknownName(name: string)
    | Uninitialized(name: string)
    | Duplicate(name: string)
    | MissingVariant(tag: nat)
    | DefaultNotLast
    | DefaultNotAlone
    | BindingNotAlone
    | OutsideLoop

  datatype Checked = Checked(locals: Locals, diags: seq<Diagnostic>)

  function CheckExpr(gl: set<string>, locals: Locals, e: Expr): seq<Diagnostic>
    decreases e, 1
  {
    match e
    case Name(x) =>
      if x in locals then (if locals[x] then [Uninitialized(x)] else [])
      else if x in gl then [] else [UnknownName(x)]
    case Node(args) => CheckAll(gl, locals, args)
    case Short(a, b) => CheckExpr(gl, locals, a) + CheckExpr(gl, locals, b)
    case Try(a) => CheckExpr(gl, locals, a)
  }

  function CheckAll(gl: set<string>, locals: Locals, args: seq<Expr>): seq<Diagnostic>
    decreases args, 0
  {
    if args == [] then [] else CheckExpr(gl, locals, args[0]) + CheckAll(gl, locals, args[1..])
  }

  /** Looks at the last statement only. */
  predicate BodyDiverges(body: seq<Stmt>)
    decreases body, 0
  {
    body != [] && Diverges(body[|body| - 1])
  }

  predicate Diverges(st: Stmt)
    decreases st, 1
  {
    match st
    case Return(_) => true
    case Break => true
    case Continue => true
    case If(_, a, b) => b != [] && BodyDiverges(a) && BodyDiverges(b)
    case Match(_, _, arms) => arms != [] && ArmsDiverge(arms)
    case Unsafe(body) => BodyDiverges(body)
    case _ => false
  }

  predicate ArmsDiverge(arms: seq<Arm>)
    decreases arms, 0
  {
    arms == [] || (BodyDiverges(arms[0].body) && ArmsDiverge(arms[1..]))
  }

  /** Possibly uninitialized behind a join: possibly uninitialized at the end of
      some branch that gets there. Without such a branch nothing changes. */
  function Merge(locals: Locals, branches: seq<Locals>): Locals {
    if branches == [] then locals
    else map x | x in locals :: exists b :: b in branches && x in b && b[x]
  }

  function Analyze(gl: set<string>, locals: Locals, st: Stmt, depth: nat): Checked
    decreases st, 1
  {
    match st
    case Let(x, init) =>
      var d := (if x in locals then [Duplicate(x)] else [])
        + (if init.Some? then CheckExpr(gl, locals, init.value) else []);
      Checked(if x in locals then locals else locals[x := init.None?], d)
    case Assign(x, e) =>
      var d := CheckExpr(gl, locals, e);
      if x in locals then Checked(locals[x := false], d)
      else Checked(locals, (if x in gl then [] else [UnknownName(x)]) + d)
    case Expr(e) => Checked(locals, CheckExpr(gl, locals, e))
    case If(c, a, b) =>
      var d := CheckExpr(gl, locals, c);
      var p := AnalyzeAll(gl, locals, a, depth);
      var q := AnalyzeAll(gl, locals, b, depth);
      var branches := (if BodyDiverges(a) then [] else [p.locals]) + (if BodyDiverges(b) then [] else [q.locals]);
      Checked(Merge(locals, branches), d + p.diags + q.diags)
    case Match(e, on, arms) =>
      var d := CheckExpr(gl, locals, e);
      var p := AnalyzeArms(gl, locals, arms, depth, false);
      var missing := if on.Enum? && !HasDefault(arms) then Missing(arms, on.n) else [];
      var exhaustive := HasDefault(arms) || (on.Enum? && missing == []);
      Checked(Merge(locals, p.branches + if exhaustive then [] else [locals]), d + p.diags + missing)
    case While(c, body) =>
      Checked(locals, CheckExpr(gl, locals, c) + AnalyzeAll(gl, locals, body, depth + 1).diags)
    case For(init, c, step, body) =>
      var i := Analyze(gl, locals, init, depth);
      var d := CheckExpr(gl, i.locals, c);
      var p := AnalyzeAll(gl, i.locals, body, depth + 1);
      var q := Analyze(gl, i.locals, step, depth);
      Checked(locals, i.diags + d + p.diags + q.diags)
    case Break => Checked(locals, if depth == 0 then [OutsideLoop] else [])
    case Continue => Checked(locals, if depth == 0 then [OutsideLoop] else [])
    case Return(e) => Checked(locals, CheckExpr(gl, locals, e))
    case Unsafe(body) => AnalyzeAll(gl, locals, body, depth)
    case Defer(e) => Checked(locals, CheckExpr(gl, locals, e))
  }

  function AnalyzeAll(gl: set<string>, locals: Locals, body: seq<Stmt>, depth: nat): Checked
    decreases body, 0
  {
    if body == [] then Checked(locals, []) else
    var r := Analyze(gl, locals, body[0], depth);
    var q := AnalyzeAll(gl, r.locals, body[1..], depth);
    Checked(q.locals, r.diags + q.diags)
  }

  datatype CheckedArms = CheckedArms(branches: seq<Locals>, diags: seq<Diagnostic>)

  /** The states at the ends of the arms that do not diverge. `saw` tells whether there was
      a default pattern before. */
  function AnalyzeArms(gl: set<string>, locals: Locals, arms: seq<Arm>, depth: nat, saw: bool): CheckedArms
    decreases arms, 0
  {
    if arms == [] then CheckedArms([], []) else
    var b := BindLocals(locals, arms[0].bindings);
    var p := AnalyzeAll(gl, b.locals, arms[0].body, depth);
    var q := AnalyzeArms(gl, locals, arms[1..], depth, saw || Default in arms[0].patterns);
    CheckedArms((if BodyDiverges(arms[0].body) then [] else [p.locals]) + q.branches,
                CheckPatterns(arms[0], 0, saw) + b.diags + p.diags + q.diags)
  }

  /** The default pattern stands alone in the last arm, and so do patterns with bindings
      in theirs. */
  function CheckPatterns(arm: Arm, k: nat, saw: bool): seq<Diagnostic>
    decreases |arm.patterns| - k
  {
    if k >= |arm.patterns| then (if arm.bindings != [] && |arm.patterns| != 1 then [BindingNotAlone] else []) else
    CheckPattern(arm, k, saw) + CheckPatterns(arm, k + 1, saw || arm.patterns[k].Default?)
  }

  function CheckPattern(arm: Arm, k: nat, saw: bool): seq<Diagnostic>
    requires k < |arm.patterns|
  {
    (if saw then [DefaultNotLast] else [])
    + (if arm.patterns[k].Default? && |arm.patterns| != 1 then [DefaultNotAlone] else [])
  }

  /** No pattern of the arms draws a diagnostic; grammatically every arm has one. */
  predicate Placed(arms: seq<Arm>, saw: bool)
    decreases |arms|
  {
    arms == [] ||
    (arms[0].patterns != [] && CheckPatterns(arms[0], 0, saw) == [] &&
     Placed(arms[1..], saw || Default in arms[0].patterns))
  }

  lemma {:induction false} NoneAfter(arm: Arm, k: nat, saw: bool)
    requires k <= |arm.patterns| && CheckPatterns(arm, k, saw) == []
    ensures saw ==> k == |arm.patterns|
    ensures Default in arm.patterns[k..] ==> |arm.patterns| == 1
    decreases |arm.patterns| - k
  {
    if k < |arm.patterns| {
      NoneAfter(arm, k + 1, saw || arm.patterns[k].Default?);
      assert arm.patterns[k..] == [arm.patterns[k]] + arm.patterns[k + 1..];
    }
  }

  /** So the default pattern stands alone in the last arm. */
  lemma {:induction false} DefaultIsLast(arms: seq<Arm>, saw: bool, i: nat)
    requires Placed(arms, saw) && i < |arms|
    ensures !saw && (Default in arms[i].patterns ==> i == |arms| - 1 && arms[i].patterns == [Default])
    decreases |arms|
  {
    NoneAfter(arms[0], 0, saw);
    assert arms[0].patterns[0..] == arms[0].patterns;
    if |arms| > 1 { DefaultIsLast(arms[1..], saw || Default in arms[0].patterns, if i == 0 then 0 else i - 1); }
  }

  lemma {:induction false} AcceptedPlaced(gl: set<string>, locals: Locals, arms: seq<Arm>, depth: nat, saw: bool)
    requires AnalyzeArms(gl, locals, arms, depth, saw).diags == [] && forall arm :: arm in arms ==> arm.patterns != []
    ensures Placed(arms, saw)
    decreases |arms|
  {
    if arms != [] {
      AcceptedPlaced(gl, locals, arms[1..], depth, saw || Default in arms[0].patterns);
    }
  }

  function BindLocals(locals: Locals, names: seq<string>): Checked
    decreases names
  {
    if names == [] then Checked(locals, []) else
    var x := names[0];
    var r := BindLocals(if x in locals then locals else locals[x := false], names[1..]);
    Checked(r.locals, (if x in locals then [Duplicate(x)] else []) + r.diags)
  }

  /** One diagnostic for every variant below `n` that no arm names. */
  function Missing(arms: seq<Arm>, n: nat): (d: seq<Diagnostic>)
    ensures d == [] <==> forall v: nat :: v < n ==> Covered(arms, v)
  {
    if n == 0 then [] else Missing(arms, n - 1) + if Covered(arms, n - 1) then [] else [MissingVariant(n - 1)]
  }

  predicate Covered(arms: seq<Arm>, v: nat) {
    exists i :: 0 <= i < |arms| && Tag(v) in arms[i].patterns
  }
}
