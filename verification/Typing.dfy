/** Type safety of the IR: a module that meets the rules the front end checks is
    never `Wrong`, whatever its arguments and however much fuel it gets. */
module Typing {
  import opened Words
  import opened Ir
  import opened IrSemantics

  type Context = map<string, Type>

  datatype Signature = Signature(params: seq<Type>, ret: Type)

  type Signatures = map<string, Signature>

  /** Values: what semantic analysis demands of each kind of expression. */
  predicate TypedValue(sig: Signatures, g: Context, e: Value)
    decreases e, 1
  {
    match e
    case IntLit(ty, n) => InRange(ty, n)
    case BoolLit(_) => true
    case Local(name, ty) => name in g && g[name] == ty
    case Global(_, ty) => ty != Bool
    case Neg(a) => TypedValue(sig, g, a) && TypeOf(a) == I32
    case Not(a) => TypedValue(sig, g, a) && TypeOf(a) == Bool
    case Incr(_, _, isLocal, name, ty) => ty != Bool && (isLocal ==> name in g && g[name] == ty)
    case Binary(op, a, b, ty) =>
      && TypedValue(sig, g, a) && TypedValue(sig, g, b)
      && TypeOf(a) != Bool && TypeOf(b) == TypeOf(a)
      && ty == if IsComparison(op) then Bool else TypeOf(a)
    case And(a, b) => TypedValue(sig, g, a) && TypedValue(sig, g, b) && TypeOf(a) == Bool && TypeOf(b) == Bool
    case Or(a, b) => TypedValue(sig, g, a) && TypedValue(sig, g, b) && TypeOf(a) == Bool && TypeOf(b) == Bool
    case Cast(a, ty) => TypedValue(sig, g, a) && (ty == Bool ==> TypeOf(a) == Bool)
    case Call(f, args, ty) =>
      && TypedArgs(sig, g, args) && f in sig && sig[f].ret == ty && |args| == |sig[f].params|
      && forall i :: 0 <= i < |args| ==> TypeOf(args[i]) == sig[f].params[i]
  }

  predicate TypedArgs(sig: Signatures, g: Context, args: seq<Value>)
    decreases args, 0
  {
    args == [] || (TypedValue(sig, g, args[0]) && TypedArgs(sig, g, args[1..]))
  }

  /** The context behind a statement: only `let` adds a name. */
  function After(s: Stmt, g: Context): Context {
    if s.Let? then g[s.name := TypeOf(s.value)] else g
  }

  predicate TypedStmt(sig: Signatures, g: Context, s: Stmt, ret: Type, inLoop: bool)
    decreases s, 1
  {
    match s
    case Let(_, name, e) => TypedValue(sig, g, e) && name !in g
    case Assign(name, e) => TypedValue(sig, g, e) && (name in g ==> g[name] == TypeOf(e))
    case Expr(e) => TypedValue(sig, g, e)
    case Return(e) => TypedValue(sig, g, e) && TypeOf(e) == ret
    case If(c, a, b) =>
      && TypedValue(sig, g, c) && TypeOf(c) == Bool
      && TypedBody(sig, g, a, ret, inLoop) && TypedBody(sig, g, b, ret, inLoop)
    case While(c, body) => TypedValue(sig, g, c) && TypeOf(c) == Bool && TypedBody(sig, g, body, ret, true)
    case For(init, c, step, body) =>
      && IsStep(step) && TypedStmt(sig, g, init, ret, inLoop)
      && TypedValue(sig, After(init, g), c) && TypeOf(c) == Bool
      && TypedStmt(sig, After(init, g), step, ret, inLoop)
      && TypedBody(sig, After(init, g), body, ret, true)
    case Match(_, e, arms) =>
      TypedValue(sig, g, e) && PatternsFit(arms, TypeOf(e)) && TypedArms(sig, g, arms, ret, inLoop)
    case Break => inLoop
    case Continue => inLoop
  }

  predicate TypedBody(sig: Signatures, g: Context, body: seq<Stmt>, ret: Type, inLoop: bool)
    decreases body, 0
  {
    body == [] ||
    (TypedStmt(sig, g, body[0], ret, inLoop) && TypedBody(sig, After(body[0], g), body[1..], ret, inLoop))
  }

  predicate TypedArms(sig: Signatures, g: Context, arms: seq<Arm>, ret: Type, inLoop: bool)
    decreases arms, 0
  {
    arms == [] || (TypedBody(sig, g, arms[0].body, ret, inLoop) && TypedArms(sig, g, arms[1..], ret, inLoop))
  }

  /** Every path through the statements ends in a `return`. */
  predicate MustReturn(body: seq<Stmt>)
    decreases body, 1
  {
    body != [] && StmtReturns(body[|body| - 1])
  }

  predicate StmtReturns(s: Stmt)
    decreases s, 0
  {
    match s
    case Return(_) => true
    case If(_, a, b) => MustReturn(a) && MustReturn(b)
    case Match(_, _, arms) => arms != [] && Default in arms[|arms| - 1].patterns && ArmsReturn(arms)
    case _ => false
  }

  predicate ArmsReturn(arms: seq<Arm>)
    decreases arms, 2
  {
    arms == [] || (MustReturn(arms[0].body) && ArmsReturn(arms[1..]))
  }

  function ParamContext(params: seq<Param>): Context {
    if params == [] then map[]
    else ParamContext(params[..|params| - 1])[params[|params| - 1].name := params[|params| - 1].ty]
  }

  function ParamTypes(params: seq<Param>): (ts: seq<Type>)
    ensures |ts| == |params| && forall i :: 0 <= i < |params| ==> ts[i] == params[i].ty
  {
    seq(|params|, i requires 0 <= i < |params| => params[i].ty)
  }

  predicate TypedFunction(sig: Signatures, f: Function) {
    && (forall i, j :: 0 <= i < j < |f.params| ==> f.params[i].name != f.params[j].name)
    && TypedBody(sig, ParamContext(f.params), f.body, f.ret, false)
    && MustReturn(f.body)
    && f.name in sig && sig[f.name] == Signature(ParamTypes(f.params), f.ret)
  }

  /** The functions of the module are well typed, and every other function with a
      signature is an extern of that arity that returns a proper bool where its
      signature says `bool`. */
  ghost predicate TypedModule(sig: Signatures, m: Module, x: Externs) {
    && (forall i :: 0 <= i < |m.functions| ==> TypedFunction(sig, m.functions[i]))
    && (forall f :: f in sig && !m.Defines(f) ==> f in x.arity && x.arity[f] == |sig[f].params|)
    && (forall f, args, w :: f in sig && !m.Defines(f) && sig[f].ret == Bool ==> ExternResult(x, f, args, w) <= 1)
  }

  predicate EnvFits(g: Context, env: Env) {
    g.Keys == env.Keys && forall y :: y in g ==> HasType(env[y], g[y])
  }

  /** The names of an outer context still hold values of their types. */
  predicate EnvCovers(g: Context, env: Env) {
    g.Keys <= env.Keys && forall y :: y in g ==> HasType(env[y], g[y])
  }

  predicate ValuesFit(vs: seq<Val>, ts: seq<Type>) {
    |vs| == |ts| && forall i :: 0 <= i < |vs| ==> HasType(vs[i], ts[i])
  }

  predicate ValueOk(g: Context, ty: Type, r: Res<Val>) {
    !r.Wrong? && (r.Ok? ==> HasType(r.v, ty) && EnvFits(g, r.env))
  }

  lemma WrapFits(ty: Type, n: int)
    requires ty != Bool
    ensures InRange(ty, Wrap(ty, n))
  {
    SignedOfWord(n);
  }

  /** A quotient that fits leaves a remainder that fits. */
  lemma RemFits(ty: Type, a: int, b: int)
    requires InRange(ty, a) && InRange(ty, b) && b != 0
    ensures InRange(ty, TruncRem(a, b))
  {
    TruncDivRem(a, b);
  }

  lemma ApplyFits(op: BinOp, ty: Type, a: int, b: int)
    requires InRange(ty, a) && InRange(ty, b)
    ensures Apply(op, ty, a, b).Value? ==> HasType(Apply(op, ty, a, b).v, if IsComparison(op) then Bool else ty)
  {
    WrapFits(ty, a + b);
    WrapFits(ty, a - b);
    WrapFits(ty, a * b);
    if op.Rem? && b != 0 { RemFits(ty, a, b); }
  }

  lemma {:induction false} ValueSafe(sig: Signatures, m: Module, x: Externs, fuel: nat, g: Context, e: Value, env: Env,
                                     w: World)
    requires TypedModule(sig, m, x) && TypedValue(sig, g, e) && EnvFits(g, env)
    ensures ValueOk(g, TypeOf(e), Eval(m, x, fuel, e, env, w))
    decreases fuel, e, 2
  {
    hide EvalBinary, EvalLogical, EvalCall, TypedModule, TypedArgs;
    match e
    case Neg(a) =>
      ValueSafe(sig, m, x, fuel, g, a, env, w);
      var r := Eval(m, x, fuel, a, env, w);
      if r.Ok? { WrapFits(I32, -r.v.n); }
    case Not(a) => ValueSafe(sig, m, x, fuel, g, a, env, w);
    case Incr(_, _, _, _, _) => IncrSafe(g, e, env, w);
    case Binary(_, _, _, _) => BinarySafe(sig, m, x, fuel, g, e, env, w);
    case And(_, _) => LogicalSafe(sig, m, x, fuel, g, e, env, w);
    case Or(_, _) => LogicalSafe(sig, m, x, fuel, g, e, env, w);
    case Cast(a, ty) =>
      ValueSafe(sig, m, x, fuel, g, a, env, w);
      var r := Eval(m, x, fuel, a, env, w);
      if r.Ok? && r.v.Num? { WrapFits(ty, r.v.n); }
    case Call(_, _, _) => CallSafe(sig, m, x, fuel, g, e, env, w);
    case Global(name, ty) => WordOfSigned(StaticWord(w, name));
    case _ =>
  }

  lemma IncrSafe(g: Context, e: Value, env: Env, w: World)
    requires e.Incr? && e.ty != Bool && (e.isLocal ==> e.name in g && g[e.name] == e.ty) && EnvFits(g, env)
    ensures ValueOk(g, e.ty, EvalIncr(e, env, w))
  {
    var before := if e.isLocal then env[e.name] else Dec(e.ty, StaticWord(w, e.name)).value;
    WrapFits(e.ty, if e.up then before.n + 1 else before.n - 1);
  }

  lemma BinarySafe(sig: Signatures, m: Module, x: Externs, fuel: nat, g: Context, e: Value, env: Env, w: World)
    requires e.Binary? && TypedModule(sig, m, x) && TypedValue(sig, g, e) && EnvFits(g, env)
    ensures ValueOk(g, e.ty, EvalBinary(m, x, fuel, e, env, w))
    decreases fuel, e, 1
  {
    hide Eval, TypedModule, Apply, EnvFits;
    ValueSafe(sig, m, x, fuel, g, e.lhs, env, w);
    var r := Eval(m, x, fuel, e.lhs, env, w);
    if !r.Ok? { return; }
    ValueSafe(sig, m, x, fuel, g, e.rhs, r.env, r.w);
    var s := Eval(m, x, fuel, e.rhs, r.env, r.w);
    if s.Ok? { ApplyFits(e.op, TypeOf(e.lhs), r.v.n, s.v.n); }
  }

  lemma LogicalSafe(sig: Signatures, m: Module, x: Externs, fuel: nat, g: Context, e: Value, env: Env, w: World)
    requires (e.And? || e.Or?) && TypedModule(sig, m, x) && TypedValue(sig, g, e) && EnvFits(g, env)
    ensures ValueOk(g, Bool, EvalLogical(m, x, fuel, e, env, w))
    decreases fuel, e, 1
  {
    hide Eval, TypedModule, EnvFits;
    ValueSafe(sig, m, x, fuel, g, e.lhs, env, w);
    var r := Eval(m, x, fuel, e.lhs, env, w);
    if r.Ok? { ValueSafe(sig, m, x, fuel, g, e.rhs, r.env, r.w); }
  }

  lemma CallSafe(sig: Signatures, m: Module, x: Externs, fuel: nat, g: Context, e: Value, env: Env, w: World)
    requires e.Call? && TypedModule(sig, m, x) && TypedValue(sig, g, e) && EnvFits(g, env)
    ensures ValueOk(g, e.ty, EvalCall(m, x, fuel, e, env, w))
    decreases fuel, e, 1
  {
    hide EvalArgs, CallFunction, TypedModule, EnvFits, TypedArgs;
    ArgsSafe(sig, m, x, fuel, g, e.args, sig[e.callee].params, env, w);
    var r := EvalArgs(m, x, fuel, e.args, env, w);
    if r.Ok? { CalleeSafe(sig, m, x, fuel, e.callee, r.v, r.w); }
  }

  lemma ArgsSafe(sig: Signatures, m: Module, x: Externs, fuel: nat, g: Context, args: seq<Value>, ts: seq<Type>,
                 env: Env, w: World)
    requires TypedModule(sig, m, x) && TypedArgs(sig, g, args) && EnvFits(g, env)
    requires |args| == |ts| && forall i :: 0 <= i < |args| ==> TypeOf(args[i]) == ts[i]
    ensures var r := EvalArgs(m, x, fuel, args, env, w);
      !r.Wrong? && (r.Ok? ==> ValuesFit(r.v, ts) && EnvFits(g, r.env))
    decreases fuel, args, 0
  {
    hide Eval, TypedModule, EnvFits, TypeOf;
    if args != [] {
      ArgsSafe(sig, m, x, fuel, g, args[1..], ts[1..], env, w);
      var r := EvalArgs(m, x, fuel, args[1..], env, w);
      if r.Ok? {
        ValueSafe(sig, m, x, fuel, g, args[0], r.env, r.w);
        var s := Eval(m, x, fuel, args[0], r.env, r.w);
        if s.Ok? {
          forall i | 0 <= i < |ts| ensures HasType(([s.v] + r.v)[i], ts[i]) {
            if i > 0 { assert ts[i] == ts[1..][i - 1]; }
          }
        }
      }
    }
  }

  /** Calling a function with arguments of its types is safe. */
  lemma CalleeSafe(sig: Signatures, m: Module, x: Externs, fuel: nat, f: string, args: seq<Val>, w: World)
    requires TypedModule(sig, m, x) && f in sig && ValuesFit(args, sig[f].params)
    ensures var r := CallFunction(m, x, fuel, f, args, sig[f].ret, w);
      !r.Wrong? && (r.Ok? ==> HasType(r.v, sig[f].ret))
    decreases fuel, f, 0
  {
    hide Exec, TypedBody, MustReturn, CallExtern, ParamContext, Bind;
    if m.Defines(f) {
      if fuel == 0 { return; }
      var fn := m.functions[m.Index(f)];
      assert TypedFunction(sig, fn);
      var g, env := ParamContext(fn.params), Bind(fn.params, args);
      ParamsFit(fn.params, args);
      BodySafe(sig, m, x, fuel - 1, g, fn.body, fn.ret, false, env, w);
      ReturnsOnly(m, x, fuel - 1, fn.body, env, w);
    } else {
      ExternSafe(x, f, args, sig[f].ret, w);
    }
  }

  lemma ExternSafe(x: Externs, f: string, args: seq<Val>, ty: Type, w: World)
    requires f in x.arity && x.arity[f] == |args|
    requires ty == Bool ==> ExternResult(x, f, EncAll(args), w) <= 1
    ensures CallExtern(x, f, args, ty, w).Ok? && HasType(CallExtern(x, f, args, ty, w).v, ty)
  {
    WordOfSigned(ExternResult(x, f, EncAll(args), w));
  }

  lemma {:induction false} ParamsFit(params: seq<Param>, args: seq<Val>)
    requires |params| == |args|
    requires forall i :: 0 <= i < |params| ==> HasType(args[i], params[i].ty)
    requires forall i, j :: 0 <= i < j < |params| ==> params[i].name != params[j].name
    ensures EnvFits(ParamContext(params), Bind(params, args))
    decreases |params|
  {
    if params != [] {
      var last := |params| - 1;
      ParamsFit(params[..last], args[..last]);
    }
  }

  /** What a safe statement leaves behind, by outcome. */
  predicate OutcomeOk(g: Context, g': Context, ret: Type, inLoop: bool, o: Out) {
    match o
    case Normal(env, _) => EnvFits(g', env)
    case Broke(env, _) => inLoop && EnvCovers(g, env)
    case Continued(env, _) => inLoop && EnvCovers(g, env)
    case Returned(v, _) => HasType(v, ret)
    case Trapped(_) => true
    case OutOfFuel => true
    case Bad => false
  }

  lemma LeaveOk(g: Context, g': Context, ret: Type, inLoop: bool, o: Out, env: Env)
    requires OutcomeOk(g, g', ret, inLoop, o) && g.Keys == env.Keys
    requires forall y :: y in g ==> y in g' && g'[y] == g[y]
    ensures OutcomeOk(g, g, ret, inLoop, Leave(o, env))
    ensures Leave(o, env).Normal? || Leave(o, env).Broke? || Leave(o, env).Continued? ==> EnvFits(g, Leave(o, env).env)
  {
  }

  /** The context only grows through a statement list. */
  function AfterAll(body: seq<Stmt>, g: Context): Context {
    if body == [] then g else AfterAll(body[1..], After(body[0], g))
  }

  lemma {:induction false} AfterAllGrows(sig: Signatures, g: Context, body: seq<Stmt>, ret: Type, inLoop: bool)
    requires TypedBody(sig, g, body, ret, inLoop)
    ensures forall y :: y in g ==> y in AfterAll(body, g) && AfterAll(body, g)[y] == g[y]
    decreases |body|
  {
    if body != [] { AfterAllGrows(sig, After(body[0], g), body[1..], ret, inLoop); }
  }

  lemma BodySafe(sig: Signatures, m: Module, x: Externs, fuel: nat, g: Context, body: seq<Stmt>, ret: Type,
                 inLoop: bool, env: Env, w: World)
    requires TypedModule(sig, m, x) && TypedBody(sig, g, body, ret, inLoop) && EnvFits(g, env)
    ensures OutcomeOk(g, AfterAll(body, g), ret, inLoop, Exec(m, x, fuel, body, env, w))
    decreases fuel, body, 0
  {
    hide ExecStmt, TypedModule, TypedStmt, HasType;
    if body == [] { return; }
    StmtSafe(sig, m, x, fuel, g, body[0], ret, inLoop, env, w);
    var o := ExecStmt(m, x, fuel, body[0], env, w);
    if o.Normal? {
      BodySafe(sig, m, x, fuel, After(body[0], g), body[1..], ret, inLoop, o.env, o.w);
      if body[0].Let? { LetIsNew(sig, g, body[0], ret, inLoop); }
    }
  }

  lemma LetIsNew(sig: Signatures, g: Context, s: Stmt, ret: Type, inLoop: bool)
    requires TypedStmt(sig, g, s, ret, inLoop) && s.Let?
    ensures s.name !in g
  {
  }

  lemma BlockSafe(sig: Signatures, m: Module, x: Externs, fuel: nat, g: Context, body: seq<Stmt>, ret: Type,
                  inLoop: bool, env: Env, outer: Env, w: World)
    requires TypedModule(sig, m, x) && TypedBody(sig, g, body, ret, inLoop) && EnvFits(g, env) && EnvFits(g, outer)
    ensures var o := Leave(Exec(m, x, fuel, body, env, w), outer);
      OutcomeOk(g, g, ret, inLoop, o) && (o.Normal? || o.Broke? || o.Continued? ==> EnvFits(g, o.env))
    decreases fuel, body, 1
  {
    hide Exec, TypedModule, TypedBody, AfterAll, Leave, OutcomeOk;
    BodySafe(sig, m, x, fuel, g, body, ret, inLoop, env, w);
    AfterAllGrows(sig, g, body, ret, inLoop);
    LeaveOk(g, AfterAll(body, g), ret, inLoop, Exec(m, x, fuel, body, env, w), outer);
  }

  lemma StmtSafe(sig: Signatures, m: Module, x: Externs, fuel: nat, g: Context, s: Stmt, ret: Type, inLoop: bool,
                 env: Env, w: World)
    requires TypedModule(sig, m, x) && TypedStmt(sig, g, s, ret, inLoop) && EnvFits(g, env)
    ensures OutcomeOk(g, After(s, g), ret, inLoop, ExecStmt(m, x, fuel, s, env, w))
    decreases fuel, s, 4
  {
    hide Eval, TypedModule, TypedValue, ExecIf, ExecLoop, ExecFor, ExecMatch, TypedBody, TypedArms, TypeOf;
    match s
    case Let(_, _, e) => ValueSafe(sig, m, x, fuel, g, e, env, w);
    case Assign(_, e) => ValueSafe(sig, m, x, fuel, g, e, env, w);
    case Expr(e) => ValueSafe(sig, m, x, fuel, g, e, env, w);
    case Return(e) => ValueSafe(sig, m, x, fuel, g, e, env, w);
    case If(_, _, _) => IfSafe(sig, m, x, fuel, g, s, ret, inLoop, env, w);
    case While(_, _) => LoopSafe(sig, m, x, fuel, g, s, ret, inLoop, env, w);
    case For(_, _, _, _) => ForSafe(sig, m, x, fuel, g, s, ret, inLoop, env, w);
    case Match(_, _, _) => MatchSafe(sig, m, x, fuel, g, s, ret, inLoop, env, w);
    case Break =>
    case Continue =>
  }

  lemma IfSafe(sig: Signatures, m: Module, x: Externs, fuel: nat, g: Context, s: Stmt, ret: Type, inLoop: bool,
               env: Env, w: World)
    requires s.If? && TypedModule(sig, m, x) && TypedStmt(sig, g, s, ret, inLoop) && EnvFits(g, env)
    ensures OutcomeOk(g, g, ret, inLoop, ExecIf(m, x, fuel, s, env, w))
    decreases fuel, s, 3
  {
    hide Eval, Exec, TypedModule, TypedValue, TypedBody, Leave, TypeOf, EnvFits;
    ValueSafe(sig, m, x, fuel, g, s.cond, env, w);
    var r := Eval(m, x, fuel, s.cond, env, w);
    if r.Ok? {
      if r.v.b {
        BlockSafe(sig, m, x, fuel, g, s.thenBody, ret, inLoop, r.env, env, r.w);
      } else {
        BlockSafe(sig, m, x, fuel, g, s.elseBody, ret, inLoop, r.env, env, r.w);
      }
    }
  }

  lemma MatchSafe(sig: Signatures, m: Module, x: Externs, fuel: nat, g: Context, s: Stmt, ret: Type, inLoop: bool,
                  env: Env, w: World)
    requires s.Match? && TypedModule(sig, m, x) && TypedStmt(sig, g, s, ret, inLoop) && EnvFits(g, env)
    ensures OutcomeOk(g, g, ret, inLoop, ExecMatch(m, x, fuel, s, env, w))
    decreases fuel, s, 3
  {
    hide Eval, ExecArms, TypedModule, TypedValue, TypedArms, TypeOf, EnvFits, PatternsFit;
    ValueSafe(sig, m, x, fuel, g, s.value, env, w);
    var r := Eval(m, x, fuel, s.value, env, w);
    if r.Ok? { ArmsSafe(sig, m, x, fuel, g, s.arms, r.v, ret, inLoop, r.env, r.w); }
  }

  lemma ArmsSafe(sig: Signatures, m: Module, x: Externs, fuel: nat, g: Context, arms: seq<Arm>, v: Val, ret: Type,
                 inLoop: bool, env: Env, w: World)
    requires TypedModule(sig, m, x) && TypedArms(sig, g, arms, ret, inLoop) && EnvFits(g, env)
    ensures OutcomeOk(g, g, ret, inLoop, ExecArms(m, x, fuel, arms, v, env, w))
    decreases fuel, arms, 0
  {
    hide Exec, TypedModule, TypedBody, Leave, EnvFits, Hits;
    if arms == [] { return; }
    if Hits(arms[0], v) {
      BlockSafe(sig, m, x, fuel, g, arms[0].body, ret, inLoop, env, env, w);
    } else {
      ArmsSafe(sig, m, x, fuel, g, arms[1..], v, ret, inLoop, env, w);
    }
  }

  lemma LoopSafe(sig: Signatures, m: Module, x: Externs, fuel: nat, g: Context, s: Stmt, ret: Type, inLoop: bool,
                 env: Env, w: World)
    requires s.While? || (s.For? && IsStep(s.step))
    requires TypedModule(sig, m, x) && EnvFits(g, env)
    requires TypedValue(sig, g, s.cond) && TypeOf(s.cond) == Bool && TypedBody(sig, g, s.body, ret, true)
    requires s.For? ==> TypedStmt(sig, g, s.step, ret, inLoop)
    ensures OutcomeOk(g, g, ret, inLoop, ExecLoop(m, x, fuel, s, env, w))
    decreases fuel, s, 2
  {
    hide Eval, Exec, ExecStmt, TypedModule, TypedValue, TypedBody, TypedStmt, Leave, TypeOf, EnvFits, EnvCovers;
    if fuel == 0 { return; }
    ValueSafe(sig, m, x, fuel, g, s.cond, env, w);
    var r := Eval(m, x, fuel, s.cond, env, w);
    if !r.Ok? || !r.v.b { return; }
    BlockSafe(sig, m, x, fuel, g, s.body, ret, true, r.env, env, r.w);
    var o := Leave(Exec(m, x, fuel, s.body, r.env, r.w), env);
    if !o.Normal? && !o.Continued? { return; }
    var t := if s.For? then ExecStmt(m, x, fuel, s.step, o.env, o.w) else Normal(o.env, o.w);
    if s.For? { StmtSafe(sig, m, x, fuel, g, s.step, ret, inLoop, o.env, o.w); }
    if t.Normal? { LoopSafe(sig, m, x, fuel - 1, g, s, ret, inLoop, t.env, t.w); }
  }

  lemma ForSafe(sig: Signatures, m: Module, x: Externs, fuel: nat, g: Context, s: Stmt, ret: Type, inLoop: bool,
                env: Env, w: World)
    requires s.For? && TypedModule(sig, m, x) && TypedStmt(sig, g, s, ret, inLoop) && EnvFits(g, env)
    ensures OutcomeOk(g, g, ret, inLoop, ExecFor(m, x, fuel, s, env, w))
    decreases fuel, s, 3
  {
    hide ExecStmt, ExecLoop, TypedModule, TypedValue, TypedBody, Leave, TypeOf;
    var g' := After(s.init, g);
    StmtSafe(sig, m, x, fuel, g, s.init, ret, inLoop, env, w);
    var o := ExecStmt(m, x, fuel, s.init, env, w);
    if s.init.Let? { LetIsNew(sig, g, s.init, ret, inLoop); }
    if o.Normal? {
      LoopSafe(sig, m, x, fuel, g', s, ret, inLoop, o.env, o.w);
      OuterOutcome(g, g', ret, inLoop, ExecLoop(m, x, fuel, s, o.env, o.w));
      LeaveOk(g, g', ret, inLoop, ExecLoop(m, x, fuel, s, o.env, o.w), env);
    } else {
      LeaveOk(g, g', ret, inLoop, o, env);
    }
  }

  lemma OuterOutcome(g: Context, g': Context, ret: Type, inLoop: bool, o: Out)
    requires OutcomeOk(g', g', ret, inLoop, o)
    requires forall y :: y in g ==> y in g' && g'[y] == g[y]
    ensures OutcomeOk(g, g', ret, inLoop, o)
  {
  }

  /** A body that must return does not fall off its end. */
  lemma {:induction false} ReturnsOnly(m: Module, x: Externs, fuel: nat, body: seq<Stmt>, env: Env, w: World)
    requires MustReturn(body)
    ensures !Exec(m, x, fuel, body, env, w).Normal?
    decreases body, 1
  {
    hide ExecStmt, StmtReturns;
    var o := ExecStmt(m, x, fuel, body[0], env, w);
    if |body| == 1 {
      StmtReturnsOnly(m, x, fuel, body[0], env, w);
    } else if o.Normal? {
      ReturnsOnly(m, x, fuel, body[1..], o.env, o.w);
    }
  }

  lemma StmtReturnsOnly(m: Module, x: Externs, fuel: nat, s: Stmt, env: Env, w: World)
    requires StmtReturns(s)
    ensures !ExecStmt(m, x, fuel, s, env, w).Normal?
    decreases s, 0
  {
    hide Eval, Exec, MustReturn, ExecArms;
    match s
    case If(c, a, b) =>
      var r := Eval(m, x, fuel, c, env, w);
      if r.Ok? {
        ReturnsOnly(m, x, fuel, a, r.env, r.w);
        ReturnsOnly(m, x, fuel, b, r.env, r.w);
      }
    case Match(_, e, arms) =>
      var r := Eval(m, x, fuel, e, env, w);
      if r.Ok? { ArmsReturnOnly(m, x, fuel, arms, r.v, r.env, r.w); }
    case _ =>
  }

  lemma ArmsReturnOnly(m: Module, x: Externs, fuel: nat, arms: seq<Arm>, v: Val, env: Env, w: World)
    requires arms != [] && Default in arms[|arms| - 1].patterns && ArmsReturn(arms)
    ensures !ExecArms(m, x, fuel, arms, v, env, w).Normal?
    decreases arms, 2
  {
    hide Exec, MustReturn;
    if |arms| == 1 { assert Matches(Default, v); }
    if Hits(arms[0], v) {
      ReturnsOnly(m, x, fuel, arms[0].body, env, w);
    } else {
      ArmsReturnOnly(m, x, fuel, arms[1..], v, env, w);
    }
  }

  /** A well-typed call is never `Wrong`, and a result has the declared type. */
  lemma WellTypedNeverWrong(sig: Signatures, m: Module, x: Externs, f: string, args: seq<Val>, w: World)
    requires TypedModule(sig, m, x) && f in sig && ValuesFit(args, sig[f].params)
    ensures forall fuel: nat :: CallFunction(m, x, fuel, f, args, sig[f].ret, w) != Wrong
    ensures forall fuel: nat ::
      var r := CallFunction(m, x, fuel, f, args, sig[f].ret, w); r.Ok? ==> HasType(r.v, sig[f].ret)
  {
    hide CallFunction, TypedModule;
    forall fuel: nat
      ensures var r := CallFunction(m, x, fuel, f, args, sig[f].ret, w);
        r != Wrong && (r.Ok? ==> HasType(r.v, sig[f].ret))
    {
      CalleeSafe(sig, m, x, fuel, f, args, w);
    }
  }
}
