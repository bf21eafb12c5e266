/** An interpreter for the IR. Numbers are mathematical integers that wrap at
    the width of their type; names live in an environment per call; statics and
    the trace of extern calls form the world. */
module IrSemantics {
  import opened Words
  import opened Ir

  datatype Val = Num(n: int) | Boolean(b: bool)

  /** The word that represents a value in a register or a slot. */
  function Enc(v: Val): (w: int)
    ensures IsWord(w)
  {
    match v
    case Num(n) => Word(n)
    case Boolean(b) => if b then 1 else 0
  }

  predicate InRange(ty: Type, n: int) {
    match ty
    case I32 => -TWO31 <= n < TWO31
    case U32 => 0 <= n < TWO32
    case Bool => false
  }

  predicate HasType(v: Val, ty: Type) {
    match v
    case Num(n) => InRange(ty, n)
    case Boolean(_) => ty == Bool
  }

  function Wrap(ty: Type, n: int): int {
    if ty == I32 then Signed(Word(n)) else Word(n)
  }

  type Env = map<string, Val>

  datatype Event = Event(callee: string, args: seq<int>, result: int)

  /** What survives a call: static scalars, and the history of extern calls. */
  datatype World = World(statics: map<string, int>, trace: seq<Event>)

  function StaticWord(w: World, name: string): (v: int)
    ensures IsWord(v)
  {
    if name in w.statics then Word(w.statics[name]) else 0
  }

  function SetStatic(w: World, name: string, v: int): World {
    w.(statics := w.statics[name := v])
  }

  /** Extern functions: how many words each takes, what it returns and what it
      does to the statics, as arbitrary functions of its arguments and the
      world. `junk` is what it leaves in the caller-saved registers. */
  datatype Externs = Externs(
    arity: map<string, nat>,
    result: (string, seq<int>, World) -> int,
    statics: (string, seq<int>, World) -> map<string, int>,
    junk: (string, seq<int>, World) -> (int, int))

  function ExternResult(x: Externs, f: string, args: seq<int>, w: World): (r: int)
    ensures IsWord(r)
  {
    Word(x.result(f, args, w))
  }

  function ExternWorld(x: Externs, f: string, args: seq<int>, w: World): World {
    World(x.statics(f, args, w), w.trace + [Event(f, args, ExternResult(x, f, args, w))])
  }

  /** The value of type `ty` that a word represents; a bool must be 0 or 1. */
  function Dec(ty: Type, w: int): Option<Val> {
    match ty
    case I32 => Some(Num(Signed(w)))
    case U32 => Some(Num(w))
    case Bool => if w == 0 || w == 1 then Some(Boolean(w == 1)) else None
  }

  datatype Option<T> = None | Some(value: T)

  function EncAll(vs: seq<Val>): (ws: seq<int>)
    ensures |ws| == |vs|
    ensures forall i :: 0 <= i < |vs| ==> ws[i] == Enc(vs[i])
  {
    seq(|vs|, i requires 0 <= i < |vs| => Enc(vs[i]))
  }

  /** The outcome of evaluating a value. `Trap` is the processor's divide error,
      `Timeout` says the fuel ran out, and `Wrong` that the IR was ill-formed. */
  datatype Res<T> = Ok(v: T, env: Env, w: World) | Trap(w: World) | Timeout | Wrong

  /** The outcome of executing a statement. */
  datatype Out =
    | Normal(env: Env, w: World)
    | Broke(env: Env, w: World)
    | Continued(env: Env, w: World)
    | Returned(v: Val, w: World)
    | Trapped(w: World)
    | OutOfFuel
    | Bad

  datatype OpRes = Value(v: Val) | DivideError

  /** One binary operation on operands of numeric type `ty`. Division fails on
      a zero divisor and when the quotient does not fit the type. */
  function Apply(op: BinOp, ty: Type, a: int, b: int): OpRes {
    match op
    case Add => Value(Num(Wrap(ty, a + b)))
    case Sub => Value(Num(Wrap(ty, a - b)))
    case Mul => Value(Num(Wrap(ty, a * b)))
    case Div => if b == 0 || !InRange(ty, TruncDiv(a, b)) then DivideError else Value(Num(TruncDiv(a, b)))
    case Rem => if b == 0 || !InRange(ty, TruncDiv(a, b)) then DivideError else Value(Num(TruncRem(a, b)))
    case Eq => Value(Boolean(a == b))
    case Ne => Value(Boolean(a != b))
    case Lt => Value(Boolean(a < b))
    case Le => Value(Boolean(a <= b))
    case Gt => Value(Boolean(a > b))
    case Ge => Value(Boolean(a >= b))
  }

  function Convert(v: Val, ty: Type): Option<Val> {
    match v
    case Num(n) => if ty == Bool then None else Some(Num(Wrap(ty, n)))
    case Boolean(b) => Some(if ty == Bool then v else Num(if b then 1 else 0))
  }

  function Restrict(env: Env, keys: set<string>): Env {
    map x | x in env && x in keys :: env[x]
  }

  function Bind(params: seq<Param>, args: seq<Val>): Env
    requires |params| == |args|
  {
    if params == [] then map[]
    else Bind(params[..|params| - 1], args[..|args| - 1])[params[|params| - 1].name := args[|args| - 1]]
  }

  predicate ArgsFit(params: seq<Param>, args: seq<Val>) {
    && |params| == |args|
    && (forall i :: 0 <= i < |params| ==> HasType(args[i], params[i].ty))
    && (forall i, j :: 0 <= i < j < |params| ==> params[i].name != params[j].name)
  }

  function Eval(m: Module, x: Externs, fuel: nat, e: Value, env: Env, w: World): Res<Val>
    decreases fuel, e, 1
  {
    match e
    case IntLit(ty, n) => if InRange(ty, n) then Ok(Num(n), env, w) else Wrong
    case BoolLit(b) => Ok(Boolean(b), env, w)
    case Local(name, ty) =>
      if name in env && HasType(env[name], ty) then Ok(env[name], env, w) else Wrong
    case Global(name, ty) =>
      if ty == Bool then Wrong else Ok(Dec(ty, StaticWord(w, name)).value, env, w)
    case Neg(_) => EvalNeg(m, x, fuel, e, env, w)
    case Not(_) => EvalNot(m, x, fuel, e, env, w)
    case Incr(_, _, _, _, _) => EvalIncr(e, env, w)
    case Binary(_, _, _, _) => EvalBinary(m, x, fuel, e, env, w)
    case And(_, _) => EvalLogical(m, x, fuel, e, env, w)
    case Or(_, _) => EvalLogical(m, x, fuel, e, env, w)
    case Cast(_, _) => EvalCast(m, x, fuel, e, env, w)
    case Call(_, _, _) => EvalCall(m, x, fuel, e, env, w)
  }

  function EvalNeg(m: Module, x: Externs, fuel: nat, e: Value, env: Env, w: World): Res<Val>
    requires e.Neg?
    decreases fuel, e, 0
  {
    var r := Eval(m, x, fuel, e.operand, env, w);
    if !r.Ok? then r
    else if !HasType(r.v, I32) then Wrong
    else Ok(Num(Wrap(I32, -r.v.n)), r.env, r.w)
  }

  function EvalNot(m: Module, x: Externs, fuel: nat, e: Value, env: Env, w: World): Res<Val>
    requires e.Not?
    decreases fuel, e, 0
  {
    var r := Eval(m, x, fuel, e.operand, env, w);
    if !r.Ok? then r else if !r.v.Boolean? then Wrong else Ok(Boolean(!r.v.b), r.env, r.w)
  }

  function EvalCast(m: Module, x: Externs, fuel: nat, e: Value, env: Env, w: World): Res<Val>
    requires e.Cast?
    decreases fuel, e, 0
  {
    var r := Eval(m, x, fuel, e.operand, env, w);
    if !r.Ok? then r
    else if !HasType(r.v, TypeOf(e.operand)) || Convert(r.v, e.ty).None? then Wrong
    else Ok(Convert(r.v, e.ty).value, r.env, r.w)
  }

  /** The left operand is evaluated first. */
  function EvalBinary(m: Module, x: Externs, fuel: nat, e: Value, env: Env, w: World): Res<Val>
    requires e.Binary?
    decreases fuel, e, 0
  {
    var r := Eval(m, x, fuel, e.lhs, env, w);
    if !r.Ok? then r else
    var s := Eval(m, x, fuel, e.rhs, r.env, r.w);
    if !s.Ok? then s
    else if !OperandsFit(e, r.v, s.v) then Wrong
    else Combine(e, r.v, s)
  }

  predicate OperandsFit(e: Value, a: Val, b: Val)
    requires e.Binary?
  {
    var ot := TypeOf(e.lhs);
    ot != Bool && HasType(a, ot) && HasType(b, ot) && e.ty == if IsComparison(e.op) then Bool else ot
  }

  function Combine(e: Value, a: Val, s: Res<Val>): Res<Val>
    requires e.Binary? && s.Ok? && OperandsFit(e, a, s.v)
  {
    match Apply(e.op, TypeOf(e.lhs), a.n, s.v.n)
    case DivideError => Trap(s.w)
    case Value(v) => Ok(v, s.env, s.w)
  }

  function EvalCall(m: Module, x: Externs, fuel: nat, e: Value, env: Env, w: World): Res<Val>
    requires e.Call?
    decreases fuel, e, 0
  {
    var r := EvalArgs(m, x, fuel, e.args, env, w);
    if !r.Ok? then Fail(r) else
    var c := CallFunction(m, x, fuel, e.callee, r.v, e.ty, r.w);
    if c.Ok? then Ok(c.v, r.env, c.w) else c
  }

  function Fail<T, U>(r: Res<T>): Res<U>
    requires !r.Ok?
  {
    match r
    case Trap(w) => Trap(w)
    case Timeout => Timeout
    case Wrong => Wrong
  }

  function EvalIncr(e: Value, env: Env, w: World): Res<Val>
    requires e.Incr?
  {
    var before :=
      if e.isLocal then
        if e.name in env && HasType(env[e.name], e.ty) && e.ty != Bool then Some(env[e.name]) else None
      else if e.ty == Bool then None else Dec(e.ty, StaticWord(w, e.name));
    if before.None? then Wrong else
    var after := Num(Wrap(e.ty, if e.up then before.value.n + 1 else before.value.n - 1));
    var v := if e.postfix then before.value else after;
    if e.isLocal then Ok(v, env[e.name := after], w)
    else Ok(v, env, SetStatic(w, e.name, Enc(after)))
  }

  /** `&&` and `||` evaluate the right operand only when the left one does not
      decide the result. */
  function EvalLogical(m: Module, x: Externs, fuel: nat, e: Value, env: Env, w: World): Res<Val>
    requires e.And? || e.Or?
    decreases fuel, e, 0
  {
    var r := Eval(m, x, fuel, e.lhs, env, w);
    if !r.Ok? then r
    else if !r.v.Boolean? then Wrong
    else if r.v.b == e.Or? then r
    else
      var s := Eval(m, x, fuel, e.rhs, r.env, r.w);
      if s.Ok? && !s.v.Boolean? then Wrong else s
  }

  /** Arguments are evaluated from the last to the first. */
  function EvalArgs(m: Module, x: Externs, fuel: nat, args: seq<Value>, env: Env, w: World): (r: Res<seq<Val>>)
    ensures r.Ok? ==> |r.v| == |args|
    decreases fuel, args, 0
  {
    if args == [] then Ok([], env, w) else
    var r := EvalArgs(m, x, fuel, args[1..], env, w);
    if !r.Ok? then r else
    var s := Eval(m, x, fuel, args[0], r.env, r.w);
    if !s.Ok? then Fail(s) else Ok([s.v] + r.v, s.env, s.w)
  }

  function CallFunction(m: Module, x: Externs, fuel: nat, f: string, args: seq<Val>, ty: Type, w: World): Res<Val>
    decreases fuel, f, 0
  {
    if m.Defines(f) then
      if fuel == 0 then Timeout else
      var fn := m.functions[m.Index(f)];
      if !ArgsFit(fn.params, args) || fn.ret != ty then Wrong
      else FinishCall(Exec(m, x, fuel - 1, fn.body, Bind(fn.params, args), w), ty)
    else CallExtern(x, f, args, ty, w)
  }

  /** A body must return a value of its type; falling off its end is `Wrong`. */
  function FinishCall(o: Out, ty: Type): Res<Val> {
    match o
    case Returned(v, w) => if HasType(v, ty) then Ok(v, map[], w) else Wrong
    case Trapped(w) => Trap(w)
    case OutOfFuel => Timeout
    case _ => Wrong
  }

  function CallExtern(x: Externs, f: string, args: seq<Val>, ty: Type, w: World): Res<Val> {
    if f !in x.arity || x.arity[f] != |args| then Wrong else
    var ws := EncAll(args);
    match Dec(ty, ExternResult(x, f, ws, w))
    case None => Wrong
    case Some(v) => Ok(v, map[], ExternWorld(x, f, ws, w))
  }

  function Failed<T>(r: Res<T>): Out
    requires !r.Ok?
  {
    match r
    case Trap(w) => Trapped(w)
    case Timeout => OutOfFuel
    case Wrong => Bad
  }

  /** Leaving a block forgets the names it introduced. */
  function Leave(o: Out, outer: Env): Out {
    match o
    case Normal(env, w) => Normal(Restrict(env, outer.Keys), w)
    case Broke(env, w) => Broke(Restrict(env, outer.Keys), w)
    case Continued(env, w) => Continued(Restrict(env, outer.Keys), w)
    case _ => o
  }

  /** Executes a statement list in the scope of `env`. */
  function Exec(m: Module, x: Externs, fuel: nat, body: seq<Stmt>, env: Env, w: World): Out
    decreases fuel, body, 0
  {
    if body == [] then Normal(env, w) else
    var o := ExecStmt(m, x, fuel, body[0], env, w);
    if o.Normal? then Exec(m, x, fuel, body[1..], o.env, o.w) else o
  }

  function ExecStmt(m: Module, x: Externs, fuel: nat, s: Stmt, env: Env, w: World): Out
    decreases fuel, s, 3
  {
    match s
    case Let(_, _, _) => ExecLet(m, x, fuel, s, env, w)
    case Assign(_, _) => ExecAssign(m, x, fuel, s, env, w)
    case Expr(e) =>
      var r := Eval(m, x, fuel, e, env, w);
      if !r.Ok? then Failed(r) else Normal(r.env, r.w)
    case Return(e) =>
      var r := Eval(m, x, fuel, e, env, w);
      if !r.Ok? then Failed(r) else Returned(r.v, r.w)
    case If(_, _, _) => ExecIf(m, x, fuel, s, env, w)
    case While(_, _) => ExecLoop(m, x, fuel, s, env, w)
    case For(_, _, _, _) => ExecFor(m, x, fuel, s, env, w)
    case Match(_, _, _) => ExecMatch(m, x, fuel, s, env, w)
    case Break => Broke(env, w)
    case Continue => Continued(env, w)
  }

  /** A name may be declared once in its scope. */
  function ExecLet(m: Module, x: Externs, fuel: nat, s: Stmt, env: Env, w: World): Out
    requires s.Let?
    decreases fuel, s, 2
  {
    var r := Eval(m, x, fuel, s.value, env, w);
    if !r.Ok? then Failed(r)
    else if s.name in env then Bad
    else Normal(r.env[s.name := r.v], r.w)
  }

  /** A name that is not a local is a static scalar. */
  function ExecAssign(m: Module, x: Externs, fuel: nat, s: Stmt, env: Env, w: World): Out
    requires s.Assign?
    decreases fuel, s, 2
  {
    var r := Eval(m, x, fuel, s.value, env, w);
    if !r.Ok? then Failed(r)
    else if s.name in env then Normal(r.env[s.name := r.v], r.w)
    else Normal(r.env, SetStatic(r.w, s.name, Enc(r.v)))
  }

  function ExecIf(m: Module, x: Externs, fuel: nat, s: Stmt, env: Env, w: World): Out
    requires s.If?
    decreases fuel, s, 2
  {
    var r := Eval(m, x, fuel, s.cond, env, w);
    if !r.Ok? then Failed(r)
    else if !r.v.Boolean? then Bad
    else if r.v.b then Leave(Exec(m, x, fuel, s.thenBody, r.env, r.w), env)
    else Leave(Exec(m, x, fuel, s.elseBody, r.env, r.w), env)
  }

  predicate IsStep(s: Stmt) {
    s.Assign? || s.Expr?
  }

  function ExecFor(m: Module, x: Externs, fuel: nat, s: Stmt, env: Env, w: World): Out
    requires s.For?
    decreases fuel, s, 2
  {
    if !IsStep(s.step) then Bad else
    var o := ExecStmt(m, x, fuel, s.init, env, w);
    if o.Normal? then Leave(ExecLoop(m, x, fuel, s, o.env, o.w), env) else Leave(o, env)
  }

  function ExecMatch(m: Module, x: Externs, fuel: nat, s: Stmt, env: Env, w: World): Out
    requires s.Match?
    decreases fuel, s, 2
  {
    var r := Eval(m, x, fuel, s.value, env, w);
    if !r.Ok? then Failed(r)
    else if !HasType(r.v, TypeOf(s.value)) || !PatternsFit(s.arms, TypeOf(s.value)) then Bad
    else ExecArms(m, x, fuel, s.arms, r.v, r.env, r.w)
  }

  predicate PatternFits(p: Pattern, ty: Type) {
    match p
    case Default => true
    case IntPattern(n) => InRange(ty, n)
    case BoolPattern(_) => ty == Bool
  }

  /** Every pattern has the type of the scrutinee, and `_` stands alone in the
      last arm. */
  predicate PatternsFit(arms: seq<Arm>, ty: Type) {
    forall i :: 0 <= i < |arms| ==>
      && (forall p :: p in arms[i].patterns ==> PatternFits(p, ty))
      && (Default in arms[i].patterns ==> i == |arms| - 1 && arms[i].patterns == [Default])
  }

  predicate Matches(p: Pattern, v: Val) {
    match p
    case Default => true
    case IntPattern(n) => v == Num(n)
    case BoolPattern(b) => v == Boolean(b)
  }

  predicate Hits(arm: Arm, v: Val) {
    exists p :: p in arm.patterns && Matches(p, v)
  }

  /** Runs the first arm one of whose patterns matches; none may match. */
  function ExecArms(m: Module, x: Externs, fuel: nat, arms: seq<Arm>, v: Val, env: Env, w: World): Out
    decreases fuel, arms, 0
  {
    if arms == [] then Normal(env, w)
    else if Hits(arms[0], v) then
      Leave(Exec(m, x, fuel, arms[0].body, env, w), env)
    else ExecArms(m, x, fuel, arms[1..], v, env, w)
  }

  /** One `while` loop, or a `for` loop after its initializer. Each iteration
      costs one unit of fuel. */
  function ExecLoop(m: Module, x: Externs, fuel: nat, s: Stmt, env: Env, w: World): Out
    requires s.While? || (s.For? && IsStep(s.step))
    decreases fuel, s, 1
  {
    if fuel == 0 then OutOfFuel else
    var r := Eval(m, x, fuel, s.cond, env, w);
    if !r.Ok? then Failed(r)
    else if !r.v.Boolean? then Bad
    else if !r.v.b then Normal(r.env, r.w)
    else
      var o := Leave(Exec(m, x, fuel, s.body, r.env, r.w), env);
      if o.Broke? then Normal(o.env, o.w)
      else if !o.Normal? && !o.Continued? then o
      else
        var t := if s.For? then ExecStmt(m, x, fuel, s.step, o.env, o.w) else Normal(o.env, o.w);
        if t.Normal? then ExecLoop(m, x, fuel - 1, s, t.env, t.w) else t
  }
}
