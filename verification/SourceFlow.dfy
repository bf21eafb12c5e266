/** How control goes through the body of a function: which calls are made, in which
    order, and where it goes on. The outcome of every test is a choice. */
module SourceFlow {
  import opened Frames
  import opened Calls
  import opened StackCode

  type Stmt = StackCode.Stmt

  type Arm = StackCode.Arm

  datatype Truth = Unknown | Known(value: bool)

  datatype Kind = Normal | Broke | Continued | Returned | Stopped

  /** How a run goes on, the truth value of what was computed last if it is known, the
      choices that are left, and the calls so far. A run that is out of choices stops. */
  datatype Run = Run(kind: Kind, acc: Truth, cs: seq<bool>, calls: seq<string>)

  function Done(cs: seq<bool>): Run {
    Run(Normal, Unknown, cs, [])
  }

  function Then(r: Run, q: Run): Run {
    q.(calls := r.calls + q.calls)
  }

  /** A value that was computed from what the run has. */
  function Forget(r: Run): Run {
    r.(acc := Unknown)
  }

  /** A test takes a choice, unless the truth value is known. */
  function Decided(r: Run): Run {
    if !r.kind.Normal? || r.acc.Known? then r
    else if r.cs == [] then r.(kind := Stopped)
    else r.(acc := Known(r.cs[0]), cs := r.cs[1..])
  }

  // ---- values ----

  function RunValue(t: Target, v: Value, cs: seq<bool>): (r: Run)
    ensures (r.kind.Normal? || r.kind.Stopped?) && |r.cs| <= |cs|
    ensures r.kind.Normal? && r.acc.Known? ==> |r.cs| < |cs|
    decreases v, 4
  {
    match v
    case StringLiteral(_) => Done(cs)
    case Leaf(_) => Done(cs)
    case Increment(_, _) => Done(cs)
    case Wrap(_, a) => Forget(RunValue(t, a, cs))
    case Binary(_, a, b) =>
      var r := RunValue(t, a, cs);
      if r.kind.Normal? then Forget(Then(r, RunValue(t, b, r.cs))) else r
    case Logical(_, isAnd, a, b) =>
      var r := Decided(RunValue(t, a, cs));
      if r.kind.Normal? && r.acc.value == isAnd then Then(r, Decided(RunValue(t, b, r.cs))) else r
    case Call(_, _, _) => RunCall(t, v, cs)
    case Literal(_, _, _) => RunLiteral(t, v, 0, cs)
    case FieldOf(_, offset, base) => Forget(RunChunk(t, base, offset / Word(t), cs))
  }

  /** A later chunk of anything but a literal costs nothing. */
  function RunChunk(t: Target, v: Value, c: nat, cs: seq<bool>): (r: Run)
    ensures (r.kind.Normal? || r.kind.Stopped?) && |r.cs| <= |cs|
    decreases v, 5
  {
    if v.Literal? then RunLiteral(t, v, c, cs) else if c == 0 then RunValue(t, v, cs) else Done(cs)
  }

  function RunLiteral(t: Target, v: Value, c: nat, cs: seq<bool>): (r: Run)
    requires v.Literal?
    ensures (r.kind.Normal? || r.kind.Stopped?) && |r.cs| <= |cs| && r.acc.Unknown?
    decreases v, 3
  {
    RunFields(t, v.fields, c, cs)
  }

  /** The fields in this chunk, in order. */
  function RunFields(t: Target, fields: seq<Field>, c: nat, cs: seq<bool>): (r: Run)
    ensures (r.kind.Normal? || r.kind.Stopped?) && |r.cs| <= |cs| && r.acc.Unknown?
    decreases fields, 2
  {
    if fields == [] then Done(cs) else
    var r := RunField(t, fields[0], c, cs);
    if r.kind.Normal? then Then(r, RunFields(t, fields[1..], c, r.cs)) else r
  }

  function RunField(t: Target, f: Field, c: nat, cs: seq<bool>): (r: Run)
    ensures (r.kind.Normal? || r.kind.Stopped?) && |r.cs| <= |cs| && r.acc.Unknown?
    decreases f, 0
  {
    if f.offset / Word(t) != c then Done(cs) else Forget(RunValue(t, f.value, cs))
  }

  /** The arguments on the stack from the last to the first, those in registers likewise,
      and the call. */
  function RunCall(t: Target, v: Value, cs: seq<bool>): (r: Run)
    requires v.Call?
    ensures (r.kind.Normal? || r.kind.Stopped?) && |r.cs| <= |cs| && r.acc.Unknown?
    decreases v, 3
  {
    var a := RunArguments(t, v.args, |v.args|, false, cs);
    if !a.kind.Normal? then a else
    var b := RunArguments(t, v.args, |v.args|, true, a.cs);
    if !b.kind.Normal? then Then(a, b) else Run(Normal, Unknown, b.cs, a.calls + (b.calls + [v.callee]))
  }

  function RunArguments(t: Target, args: seq<Value>, i: nat, inRegisters: bool, cs: seq<bool>): (r: Run)
    requires i <= |args|
    ensures (r.kind.Normal? || r.kind.Stopped?) && |r.cs| <= |cs| && r.acc.Unknown?
    decreases args, 2, i
  {
    if i == 0 then Done(cs)
    else if InRegisters(t, ArgChunks(t, args), i - 1) != inRegisters then RunArguments(t, args, i - 1, inRegisters, cs)
    else
      var r := RunChunksDown(t, args[i - 1], Chunks(t, args[i - 1].size), cs);
      if r.kind.Normal? then Then(r, RunArguments(t, args, i - 1, inRegisters, r.cs)) else r
  }

  function RunChunksDown(t: Target, v: Value, k: nat, cs: seq<bool>): (r: Run)
    ensures (r.kind.Normal? || r.kind.Stopped?) && |r.cs| <= |cs| && r.acc.Unknown?
    decreases v, 6, k
  {
    if k == 0 then Done(cs) else
    var r := RunChunk(t, v, k - 1, cs);
    if r.kind.Normal? then Then(r, RunChunksDown(t, v, k - 1, r.cs)) else Forget(r)
  }

  // ---- statements ----

  function RunChunksUp(t: Target, v: Value, c: nat, k: nat, cs: seq<bool>): (r: Run)
    ensures (r.kind.Normal? || r.kind.Stopped?) && |r.cs| <= |cs|
    decreases k - c
  {
    if c >= k then Done(cs) else
    var r := RunChunk(t, v, c, cs);
    if r.kind.Normal? then Then(r, RunChunksUp(t, v, c + 1, k, r.cs)) else Forget(r)
  }

  function RunToSlots(t: Target, v: Value, cs: seq<bool>): (r: Run)
    ensures (r.kind.Normal? || r.kind.Stopped?) && |r.cs| <= |cs|
  {
    if t.Arm64? && v.Call? && Chunks(t, v.size) == 2 then Forget(RunValue(t, v, cs))
    else RunChunksUp(t, v, 0, Chunks(t, v.size), cs)
  }

  function RunReturned(t: Target, v: Value, cs: seq<bool>): (r: Run)
    ensures (r.kind.Normal? || r.kind.Stopped?) && |r.cs| <= |cs|
  {
    var k := Chunks(t, v.size);
    if t.X64? || k == 1 then RunValue(t, v, cs) else
    var r := RunChunk(t, v, 0, cs);
    if r.kind.Normal? then Then(r, RunChunksUp(t, v, 1, k, r.cs)) else r
  }

  /** No code comes out of a statement that the arm64 emitter refuses. */
  function RunStmt(t: Target, st: Stmt, cs: seq<bool>): (r: Run)
    ensures |r.cs| <= |cs|
    decreases |cs|, st, 1
  {
    if Refused(t, st) then Done(cs) else
    match st
    case Let(v) => RunToSlots(t, v, cs)
    case Assign(isLocal, v) =>
      if isLocal && !t.Arm64? then RunChunksUp(t, v, 0, Chunks(t, v.size), cs) else Forget(RunValue(t, v, cs))
    case Store(v, target) =>
      var r := RunValue(t, v, cs);
      if r.kind.Normal? then Then(r, RunValue(t, target, r.cs)) else r
    case Expr(v) => RunValue(t, v, cs)
    case If(cond, a, b) =>
      var r := Decided(RunValue(t, cond, cs));
      if r.kind.Normal? then Then(r, RunBody(t, if r.acc.value then a else b, r.cs)) else r
    case While(_, _) => RunLoop(t, st, cs)
    case For(init, _, _, _) =>
      var r := RunStmt(t, init, cs);
      if r.kind.Normal? then Then(r, RunLoop(t, st, r.cs)) else r
    case Match(v, arms) =>
      var r := RunToSlots(t, v, cs);
      if !r.kind.Normal? then r else
      var chosen := Choose(arms, r.cs);
      if chosen.Out? then Run(Stopped, Unknown, [], r.calls) else
      var arm := if chosen.Hit? then chosen.arm else LastDefault(arms);
      Then(r, if arm < |arms| then RunBody(t, arms[arm].body, chosen.cs) else Done(chosen.cs))
    case Break => Run(Broke, Unknown, cs, [])
    case Continue => Run(Continued, Unknown, cs, [])
    case Return(v) =>
      var r := RunReturned(t, v, cs);
      if r.kind.Normal? then r.(kind := Returned) else r
  }

  /** From the test of the condition on. */
  function RunLoop(t: Target, st: Stmt, cs: seq<bool>): (r: Run)
    requires st.While? || st.For?
    ensures |r.cs| <= |cs|
    decreases |cs|, st, 0
  {
    var r := Decided(RunValue(t, st.cond, cs));
    if !r.kind.Normal? || !r.acc.value then r else
    var b := RunBody(t, st.body, r.cs);
    if b.kind.Broke? then Then(r, b.(kind := Normal))
    else if b.kind.Returned? || b.kind.Stopped? then Then(r, b)
    else if st.While? then Then(r, Then(b, RunLoop(t, st, b.cs)))
    else
      var g := RunStmt(t, st.step, b.cs);
      Then(r, Then(b, if g.kind.Normal? then Then(g, RunLoop(t, st, g.cs)) else g))
  }

  function RunBody(t: Target, body: seq<Stmt>, cs: seq<bool>): (r: Run)
    ensures |r.cs| <= |cs|
    decreases |cs|, body, 0
  {
    if body == [] then Done(cs) else
    var r := RunStmt(t, body[0], cs);
    if r.kind.Normal? then Then(r, RunBody(t, body[1..], r.cs)) else r
  }

  datatype Choice = Hit(arm: nat, cs: seq<bool>) | Miss(cs: seq<bool>) | Out

  /** The first pattern that fits, arm by arm. */
  function Choose(arms: seq<Arm>, cs: seq<bool>): (r: Choice)
    ensures !r.Out? ==> |r.cs| <= |cs|
    ensures r.Hit? ==> r.arm < |arms|
  {
    if arms == [] then Miss(cs) else
    var first := ChooseIn(arms[0].patterns, cs);
    if !first.Miss? then first else
    var rest := Choose(arms[1..], first.cs);
    if rest.Hit? then rest.(arm := rest.arm + 1) else rest
  }

  function ChooseIn(patterns: seq<Pattern>, cs: seq<bool>): (r: Choice)
    ensures !r.Out? ==> |r.cs| <= |cs|
    ensures r.Hit? ==> r.arm == 0
  {
    if patterns == [] then Miss(cs) else
    match patterns[0]
    case Default => ChooseIn(patterns[1..], cs)
    case Always => Hit(0, cs)
    case Test =>
      if cs == [] then Out else if cs[0] then Hit(0, cs[1..]) else ChooseIn(patterns[1..], cs[1..])
  }

  /** The last arm with a default pattern, or the number of arms. */
  function LastDefault(arms: seq<Arm>): (i: nat)
    ensures i <= |arms|
    ensures i < |arms| ==> Default in arms[i].patterns
    ensures forall j :: i < j < |arms| ==> Default !in arms[j].patterns
    ensures i == |arms| ==> forall j :: 0 <= j < |arms| ==> Default !in arms[j].patterns
    decreases |arms|
  {
    if arms == [] then 0
    else if Default in arms[|arms| - 1].patterns then |arms| - 1
    else
      var i := LastDefault(arms[..|arms| - 1]);
      if i == |arms| - 1 then |arms| else i
  }
}
