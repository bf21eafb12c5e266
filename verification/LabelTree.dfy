/** Which labels the code of a function defines, read off its source tree: labels are
    numbered in the order in which they are asked for, and every one is defined. */
module LabelTree {
  import opened Frames
  import opened Calls
  import opened StackCode
  import I386

  type Stmt = StackCode.Stmt
  type Arm = StackCode.Arm
  type Prefixes = seq<I386.Prefix>

  // ---- the labels that are asked for, in order ----

  function OfValue(t: Target, v: Value): Prefixes
    decreases v, 4
  {
    match v
    case Wrap(_, a) => OfValue(t, a)
    case Binary(_, a, b) => OfValue(t, a) + OfValue(t, b)
    case Logical(_, isAnd, a, b) => [ShortPrefix(isAnd), I386.LogicEnd] + (OfValue(t, a) + OfValue(t, b))
    case Call(_, _, args) => OfArguments(t, args, |args|, false) + OfArguments(t, args, |args|, true)
    case Literal(_, _, fields) => OfFields(t, fields, 0)
    case FieldOf(_, offset, base) => OfChunk(t, base, offset / Word(t))
    case _ => []
  }

  function OfChunk(t: Target, v: Value, c: nat): Prefixes
    decreases v, 5
  {
    if v.Literal? then OfFields(t, v.fields, c) else if c == 0 then OfValue(t, v) else []
  }

  function OfFields(t: Target, fields: seq<Field>, c: nat): Prefixes
    decreases fields, 2
  {
    if fields == [] then [] else OfField(t, fields[0], c) + OfFields(t, fields[1..], c)
  }

  function OfField(t: Target, f: Field, c: nat): Prefixes
    decreases f, 0
  {
    if f.offset / Word(t) == c then OfValue(t, f.value) else []
  }

  function OfArguments(t: Target, args: seq<Value>, i: nat, inRegisters: bool): Prefixes
    requires i <= |args|
    decreases args, 2, i
  {
    if i == 0 then []
    else if InRegisters(t, ArgChunks(t, args), i - 1) != inRegisters then OfArguments(t, args, i - 1, inRegisters)
    else OfChunksDown(t, args[i - 1], Chunks(t, args[i - 1].size)) + OfArguments(t, args, i - 1, inRegisters)
  }

  function OfChunksDown(t: Target, v: Value, k: nat): Prefixes
    decreases v, 6, k
  {
    if k == 0 then [] else OfChunk(t, v, k - 1) + OfChunksDown(t, v, k - 1)
  }

  function OfChunksUp(t: Target, v: Value, c: nat, k: nat): Prefixes
    decreases k - c
  {
    if c >= k then [] else OfChunk(t, v, c) + OfChunksUp(t, v, c + 1, k)
  }

  function OfStored(t: Target, v: Value): Prefixes {
    if t.Arm64? && v.Call? && Chunks(t, v.size) == 2 then OfValue(t, v) else OfChunksUp(t, v, 0, Chunks(t, v.size))
  }

  function OfReturned(t: Target, v: Value): Prefixes {
    if t.X64? || Chunks(t, v.size) == 1 then OfValue(t, v)
    else OfChunk(t, v, 0) + OfChunksUp(t, v, 1, Chunks(t, v.size))
  }

  function OfStmt(t: Target, st: Stmt): Prefixes
    decreases st, 1
  {
    if Refused(t, st) then [] else
    match st
    case Let(v) => OfStored(t, v)
    case Assign(isLocal, v) =>
      if isLocal && !t.Arm64? then OfChunksUp(t, v, 0, Chunks(t, v.size)) else OfValue(t, v)
    case Store(v, target) => OfValue(t, v) + OfValue(t, target)
    case Expr(v) => OfValue(t, v)
    case If(c, a, b) => [I386.Else, I386.EndIf] + (OfValue(t, c) + (OfBody(t, a) + OfBody(t, b)))
    case While(c, body) => [I386.WhileStart, I386.WhileEnd] + (OfValue(t, c) + OfBody(t, body))
    case For(init, c, step, body) =>
      [I386.ForCondition, I386.ForIncrement, I386.ForEnd]
      + (OfStmt(t, init) + (OfValue(t, c) + (OfBody(t, body) + OfStmt(t, step))))
    case Match(v, arms) => ([I386.MatchEnd] + Repeated(|arms|)) + (OfStored(t, v) + OfArms(t, arms))
    case Return(v) => OfReturned(t, v)
    case _ => []
  }

  /** One label for every arm. */
  function Repeated(k: nat): Prefixes {
    seq(k, _ => I386.MatchArm)
  }

  function OfArms(t: Target, arms: seq<Arm>): Prefixes
    decreases arms, 0
  {
    if arms == [] then [] else OfBody(t, arms[0].body) + OfArms(t, arms[1..])
  }

  function OfBody(t: Target, body: seq<Stmt>): Prefixes
    decreases body, 0
  {
    if body == [] then [] else OfStmt(t, body[0]) + OfBody(t, body[1..])
  }

  function OfFunctions(t: Target, fs: seq<Function>): Prefixes {
    if fs == [] then [] else OfBody(t, fs[0].body) + OfFunctions(t, fs[1..])
  }

  // ---- the labels that are defined ----

  function LabelsIn(c: seq<Op>): set<Label> {
    set o | o in c && o.Def? :: o.at
  }

  /** The labels with these prefixes, numbered from `n`. */
  function From(ps: Prefixes, n: nat): set<Label> {
    set k | 0 <= k < |ps| :: Numbered(ps[k], n + k)
  }

  /** The code asks for labels with these prefixes, and defines just those. */
  predicate Draws(r: Emitted, n: nat, ps: Prefixes) {
    r.next == n + |ps| && LabelsIn(r.code) == From(ps, n)
  }

  lemma LabelsCat(a: seq<Op>, b: seq<Op>)
    ensures LabelsIn(a + b) == LabelsIn(a) + LabelsIn(b)
  {
    assert forall o :: o in a + b <==> o in a || o in b;
  }

  lemma FromCat(p: Prefixes, q: Prefixes, n: nat)
    ensures From(p + q, n) == From(p, n) + From(q, n + |p|)
  {
    var r := p + q;
    forall l | l in From(p, n) + From(q, n + |p|) ensures l in From(r, n) {
      if l in From(p, n) {
        var k :| 0 <= k < |p| && l == Numbered(p[k], n + k);
        assert r[k] == p[k];
      } else {
        var k :| 0 <= k < |q| && l == Numbered(q[k], n + |p| + k);
        assert r[|p| + k] == q[k];
      }
    }
    forall l | l in From(r, n) ensures l in From(p, n) + From(q, n + |p|) {
      var k :| 0 <= k < |r| && l == Numbered(r[k], n + k);
      if k >= |p| { assert q[k - |p|] == r[k] && l == Numbered(q[k - |p|], n + |p| + (k - |p|)); }
    }
  }

  /** What the proofs below need to know about both. */
  lemma Unions()
    ensures forall a: seq<Op>, b: seq<Op> {:trigger LabelsIn(a + b)} :: LabelsIn(a + b) == LabelsIn(a) + LabelsIn(b)
    ensures forall p: Prefixes, q: Prefixes, n: nat {:trigger From(p + q, n)} ::
      From(p + q, n) == From(p, n) + From(q, n + |p|)
    ensures LabelsIn([]) == {} && forall n: nat :: From([], n) == {}
  {
    forall a: seq<Op>, b: seq<Op> ensures LabelsIn(a + b) == LabelsIn(a) + LabelsIn(b) { LabelsCat(a, b); }
    forall p: Prefixes, q: Prefixes, n: nat ensures From(p + q, n) == From(p, n) + From(q, n + |p|) {
      FromCat(p, q, n);
    }
  }

  /** Code without definitions. */
  lemma Unlabelled(c: seq<Op>)
    requires forall o :: o in c ==> !o.Def?
    ensures LabelsIn(c) == {}
  {
  }

  lemma Pushes(t: Target)
    ensures LabelsIn(PushAcc(t)) == {} && LabelsIn(PopTo(t)) == {} && LabelsIn([Plain]) == {}
  {
  }

  // ---- values ----

  lemma {:induction false} ValueDraws(t: Target, v: Value, n: nat)
    ensures Draws(EmitValue(t, v, n), n, OfValue(t, v))
    decreases v, 4
  {
    match v
    case Call(_, _, _) => CallDraws(t, v, n);
    case Literal(_, _, _) => LiteralDraws(t, v, 0, n);
    case Binary(_, _, _) => OperandsDraw(t, v, n);
    case Logical(_, _, _, _) => OperandsDraw(t, v, n);
    case _ => SimpleDraws(t, v, n);
  }

  lemma SimpleDraws(t: Target, v: Value, n: nat)
    requires v.StringLiteral? || v.Leaf? || v.Increment? || v.Wrap? || v.FieldOf?
    ensures Draws(EmitValue(t, v, n), n, OfValue(t, v))
    decreases v, 3
  {
    hide LabelsIn, From, PushAcc, PopTo, EmitChunk;
    Unions();
    Pushes(t);
    match v
    case Wrap(_, a) => ValueDraws(t, a, n);
    case FieldOf(_, offset, base) => ChunkDraws(t, base, offset / Word(t), n);
    case _ =>
  }

  lemma OperandsDraw(t: Target, v: Value, n: nat)
    requires v.Binary? || v.Logical?
    ensures Draws(EmitValue(t, v, n), n, OfValue(t, v))
    decreases v, 3
  {
    hide LabelsIn, From, PushAcc, PopTo;
    var first := if v.Binary? then n else n + 2;
    var r := EmitValue(t, v.lhs, first);
    var q := EmitValue(t, v.rhs, r.next);
    ValueDraws(t, v.lhs, first);
    ValueDraws(t, v.rhs, r.next);
    FromCat(OfValue(t, v.lhs), OfValue(t, v.rhs), first);
    if v.Binary? {
      BinaryLabels(t, r.code, q.code);
    } else {
      FromCat([ShortPrefix(v.isAnd), I386.LogicEnd], OfValue(t, v.lhs) + OfValue(t, v.rhs), n);
      LogicLabels(v.isAnd, ShortPrefix(v.isAnd), n, r.code, q.code);
    }
  }

  lemma BinaryLabels(t: Target, a: seq<Op>, b: seq<Op>)
    ensures LabelsIn(a + (PushAcc(t) + (b + ([Plain] + (PopTo(t) + [Plain]))))) == LabelsIn(a) + LabelsIn(b)
  {
    hide LabelsIn, From, PushAcc, PopTo;
    Unions();
    Pushes(t);
  }

  lemma LogicLabels(isAnd: bool, p: I386.Prefix, n: nat, a: seq<Op>, b: seq<Op>)
    ensures var short, end := Numbered(p, n), Numbered(I386.LogicEnd, n + 1);
      var test := [TestAcc, Branch(short, isAnd)];
      LabelsIn(a + (test + (b + (test + [SetAcc(isAnd), Jump(end), Def(short), SetAcc(!isAnd), Def(end)]))))
      == LabelsIn(a) + LabelsIn(b) + From([p, I386.LogicEnd], n)
  {
    var short, end := Numbered(p, n), Numbered(I386.LogicEnd, n + 1);
    var tail := [SetAcc(isAnd), Jump(end), Def(short), SetAcc(!isAnd), Def(end)];
    OneDef(short, short);
    TailLabels(isAnd, short, end);
    TwoFrom(p, I386.LogicEnd, n);
    hide LabelsIn, From;
    Unions();
  }

  lemma TailLabels(isAnd: bool, short: Label, end: Label)
    ensures LabelsIn([SetAcc(isAnd), Jump(end), Def(short), SetAcc(!isAnd), Def(end)]) == {short, end}
  {
    var tail := [SetAcc(isAnd), Jump(end), Def(short), SetAcc(!isAnd), Def(end)];
    assert tail[2] == Def(short) && tail[4] == Def(end);
  }

  lemma TwoFrom(p: I386.Prefix, q: I386.Prefix, n: nat)
    ensures From([p, q], n) == {Numbered(p, n), Numbered(q, n + 1)}
  {
    var ps := [p, q];
    assert Numbered(ps[0], n + 0) in From(ps, n) && Numbered(ps[1], n + 1) in From(ps, n);
  }

  lemma ChunkDraws(t: Target, v: Value, c: nat, n: nat)
    ensures Draws(EmitChunk(t, v, c, n), n, OfChunk(t, v, c))
    decreases v, 5
  {
    hide LabelsIn, From, EmitValue, EmitLiteralChunk;
    Unions();
    Pushes(t);
    if v.Literal? { LiteralDraws(t, v, c, n); } else if c == 0 { ValueDraws(t, v, n); }
  }

  lemma LiteralDraws(t: Target, v: Value, c: nat, n: nat)
    requires v.Literal?
    ensures Draws(EmitLiteralChunk(t, v, c, n), n, OfFields(t, v.fields, c))
    decreases v, 3
  {
    hide LabelsIn, From, PushAcc, PopTo, EmitFields;
    Unions();
    Pushes(t);
    FieldsDraw(t, v.fields, c, n);
  }

  lemma FieldsDraw(t: Target, fields: seq<Field>, c: nat, n: nat)
    ensures Draws(EmitFields(t, fields, c, n), n, OfFields(t, fields, c))
    decreases fields, 2
  {
    hide LabelsIn, From, EmitField;
    Unions();
    if fields != [] {
      FieldDraws(t, fields[0], c, n);
      FieldsDraw(t, fields[1..], c, EmitField(t, fields[0], c, n).next);
    }
  }

  lemma FieldDraws(t: Target, f: Field, c: nat, n: nat)
    ensures Draws(EmitField(t, f, c, n), n, OfField(t, f, c))
    decreases f, 0
  {
    hide LabelsIn, From, PushAcc, PopTo, EmitValue;
    Unions();
    Pushes(t);
    if f.offset / Word(t) == c { ValueDraws(t, f.value, n); }
  }

  lemma CallDraws(t: Target, v: Value, n: nat)
    requires v.Call?
    ensures Draws(EmitCallOf(t, v, n), n, OfValue(t, v))
    decreases v, 3
  {
    hide LabelsIn, From, EmitPushed, PopsInto, RegistersBefore, StackBefore, Padding, CleanupBytes;
    var ns, k := ArgChunks(t, v.args), |v.args|;
    var regs, stack := RegistersBefore(t, ns, |ns|), StackBefore(t, ns, |ns|);
    var a := EmitPushed(t, v.args, k, false, n);
    var b := EmitPushed(t, v.args, k, true, a.next);
    ArgumentsDraw(t, v.args, k, false, n);
    ArgumentsDraw(t, v.args, k, true, a.next);
    FromCat(OfArguments(t, v.args, k, false), OfArguments(t, v.args, k, true), n);
    CallLabels(t, Padding(t, ns), a.code, b.code, regs, CallTo(v.callee, PushBytes(t) * stack), CleanupBytes(t, ns));
  }

  lemma CallLabels(t: Target, pad: nat, a: seq<Op>, b: seq<Op>, regs: nat, call: Op, clean: nat)
    requires call.CallTo?
    ensures var pads, cleans := if pad > 0 then [LowerSp(pad)] else [], if clean > 0 then [RaiseSp(clean)] else [];
      LabelsIn(pads + (a + (b + (PopsInto(t, regs) + ([call] + cleans))))) == LabelsIn(a) + LabelsIn(b)
  {
    Unlabelled([LowerSp(pad)]);
    Unlabelled([RaiseSp(clean)]);
    Unlabelled([call]);
    hide LabelsIn, From, PopsInto;
    Unions();
    PopsUnlabelled(t, regs);
  }

  lemma {:induction false} PopsUnlabelled(t: Target, k: nat)
    ensures LabelsIn(PopsInto(t, k)) == {}
  {
    hide LabelsIn, From, PopTo;
    Unions();
    Pushes(t);
    if k > 0 { PopsUnlabelled(t, k - 1); }
  }

  lemma ArgumentsDraw(t: Target, args: seq<Value>, i: nat, inRegisters: bool, n: nat)
    requires i <= |args|
    ensures Draws(EmitPushed(t, args, i, inRegisters, n), n, OfArguments(t, args, i, inRegisters))
    decreases args, 2, i
  {
    hide LabelsIn, From, EmitChunksDown, Chunks, InRegisters;
    Unions();
    if i > 0 {
      if InRegisters(t, ArgChunks(t, args), i - 1) != inRegisters {
        ArgumentsDraw(t, args, i - 1, inRegisters, n);
      } else {
        var k := Chunks(t, args[i - 1].size);
        ChunksDownDraw(t, args[i - 1], k, n);
        ArgumentsDraw(t, args, i - 1, inRegisters, EmitChunksDown(t, args[i - 1], k, n).next);
      }
    }
  }

  lemma ChunksDownDraw(t: Target, v: Value, k: nat, n: nat)
    ensures Draws(EmitChunksDown(t, v, k, n), n, OfChunksDown(t, v, k))
    decreases v, 6, k
  {
    hide LabelsIn, From, PushAcc, EmitChunk, OfChunk;
    Unions();
    Pushes(t);
    if k > 0 {
      ChunkDraws(t, v, k - 1, n);
      ChunksDownDraw(t, v, k - 1, EmitChunk(t, v, k - 1, n).next);
    }
  }

  // ---- statements ----

  lemma {:induction false} ChunksUpDraw(t: Target, v: Value, c: nat, k: nat, n: nat)
    ensures Draws(EmitChunksUp(t, v, c, k, n), n, OfChunksUp(t, v, c, k))
    decreases k - c
  {
    hide LabelsIn, From, EmitChunk, OfChunk;
    if c < k {
      var r := EmitChunk(t, v, c, n);
      var q := EmitChunksUp(t, v, c + 1, k, r.next);
      ChunkDraws(t, v, c, n);
      ChunksUpDraw(t, v, c + 1, k, r.next);
      Pushes(t);
      LabelsCat(r.code, [Plain]);
      LabelsCat(r.code + [Plain], q.code);
      FromCat(OfChunk(t, v, c), OfChunksUp(t, v, c + 1, k), n);
    } else {
      Unions();
    }
  }

  lemma StoredDraws(t: Target, v: Value, n: nat)
    ensures Draws(EmitToSlots(t, v, n), n, OfStored(t, v))
  {
    hide LabelsIn, From, EmitValue, EmitChunksUp, Chunks;
    Unions();
    Pushes(t);
    ValueDraws(t, v, n);
    ChunksUpDraw(t, v, 0, Chunks(t, v.size), n);
  }

  lemma ReturnedDraws(t: Target, v: Value, n: nat)
    ensures Draws(EmitReturned(t, v, n), n, OfReturned(t, v))
  {
    hide LabelsIn, From, EmitValue, EmitChunk, EmitChunksUp, PushAcc, PopTo, Chunks;
    Unions();
    Pushes(t);
    ValueDraws(t, v, n);
    ChunkDraws(t, v, 0, n);
    ChunksUpDraw(t, v, 1, Chunks(t, v.size), EmitChunk(t, v, 0, n).next);
  }

  lemma {:induction false} StmtDraws(t: Target, st: Stmt, n: nat, lo: Loop, ret: Label)
    ensures Draws(EmitStmt(t, st, n, lo, ret), n, OfStmt(t, st))
    decreases st, 2
  {
    hide LabelsIn, From, EmitValue, EmitChunksUp, EmitToSlots, EmitReturned, PushAcc, PopTo, Chunks, Refused;
    hide EmitIf, EmitWhile, EmitFor, EmitMatch;
    Unions();
    Pushes(t);
    if Refused(t, st) { return; }
    match st
    case Let(v) => StoredDraws(t, v, n);
    case Assign(isLocal, v) =>
      ValueDraws(t, v, n);
      ChunksUpDraw(t, v, 0, Chunks(t, v.size), n);
    case Store(v, target) =>
      ValueDraws(t, v, n);
      ValueDraws(t, target, EmitValue(t, v, n).next);
    case Expr(v) => ValueDraws(t, v, n);
    case If(_, _, _) => IfDraws(t, st, n, lo, ret);
    case While(_, _) => WhileDraws(t, st, n, ret);
    case For(_, _, _, _) => ForDraws(t, st, n, lo, ret);
    case Match(_, _) => MatchDraws(t, st, n, lo, ret);
    case Break => Unlabelled([Jump(EndLabel(lo))]);
    case Continue => Unlabelled([Jump(StartLabel(lo))]);
    case Return(v) =>
      ReturnedDraws(t, v, n);
      Unlabelled([Jump(ret)]);
  }

  lemma OneDef(l: Label, m: Label)
    ensures LabelsIn([Def(l)]) == {l} && LabelsIn([Def(l), Plain]) == {l}
    ensures LabelsIn([Jump(m), Def(l)]) == {l} && LabelsIn([Jump(l)]) == {} && LabelsIn([Plain, Branch(l, true)]) == {}
    ensures forall equal :: LabelsIn([TestAcc, Branch(l, equal)]) == {}
  {
    assert [Def(l), Plain][0] == Def(l) && [Jump(m), Def(l)][1] == Def(l);
  }

  lemma IfDraws(t: Target, st: Stmt, n: nat, lo: Loop, ret: Label)
    requires st.If? && !Refused(t, st)
    ensures Draws(EmitIf(t, st, n, lo, ret), n, OfStmt(t, st))
    decreases st, 1
  {
    hide LabelsIn, From, EmitValue, EmitBody;
    var other, end := Numbered(I386.Else, n), Numbered(I386.EndIf, n + 1);
    var r := EmitValue(t, st.cond, n + 2);
    var a := EmitBody(t, st.thenBody, r.next, lo, ret);
    var b := EmitBody(t, st.elseBody, a.next, lo, ret);
    IfLabels(n, r.code, a.code, b.code);
    ThreeFrom([I386.Else, I386.EndIf], OfValue(t, st.cond), OfBody(t, st.thenBody), OfBody(t, st.elseBody), n);
    ValueDraws(t, st.cond, n + 2);
    BodyDraws(t, st.thenBody, r.next, lo, ret);
    BodyDraws(t, st.elseBody, a.next, lo, ret);
  }

  lemma IfLabels(n: nat, r: seq<Op>, a: seq<Op>, b: seq<Op>)
    ensures var other, end := Numbered(I386.Else, n), Numbered(I386.EndIf, n + 1);
      LabelsIn(r + ([TestAcc, Branch(other, true)] + (a + ([Jump(end), Def(other)] + (b + [Def(end)])))))
      == From([I386.Else, I386.EndIf], n) + LabelsIn(r) + LabelsIn(a) + LabelsIn(b)
  {
    var other, end := Numbered(I386.Else, n), Numbered(I386.EndIf, n + 1);
    TwoFrom(I386.Else, I386.EndIf, n);
    OneDef(other, end);
    OneDef(end, end);
    hide LabelsIn, From;
    Unions();
  }

  lemma ThreeFrom(own: Prefixes, p: Prefixes, q: Prefixes, r: Prefixes, n: nat)
    ensures From(own + (p + (q + r)), n)
         == From(own, n) + From(p, n + |own|) + From(q, n + |own| + |p|) + From(r, n + |own| + |p| + |q|)
  {
    hide From;
    FromCat(own, p + (q + r), n);
    FromCat(p, q + r, n + |own|);
    FromCat(q, r, n + |own| + |p|);
  }

  lemma WhileDraws(t: Target, st: Stmt, n: nat, ret: Label)
    requires st.While?
    ensures Draws(EmitWhile(t, st, n, ret), n, OfStmt(t, st))
    decreases st, 1
  {
    hide LabelsIn, From, EmitValue, EmitBody;
    var start, end := Numbered(I386.WhileStart, n), Numbered(I386.WhileEnd, n + 1);
    var r := EmitValue(t, st.cond, n + 2);
    var b := EmitBody(t, st.body, r.next, InLoop(start, end), ret);
    WhileLabels(n, r.code, b.code);
    FromCat([I386.WhileStart, I386.WhileEnd], OfValue(t, st.cond) + OfBody(t, st.body), n);
    FromCat(OfValue(t, st.cond), OfBody(t, st.body), n + 2);
    ValueDraws(t, st.cond, n + 2);
    BodyDraws(t, st.body, r.next, InLoop(start, end), ret);
  }

  lemma WhileLabels(n: nat, r: seq<Op>, b: seq<Op>)
    ensures var start, end := Numbered(I386.WhileStart, n), Numbered(I386.WhileEnd, n + 1);
      LabelsIn([Def(start)] + (r + ([TestAcc, Branch(end, true)] + (b + [Jump(start), Def(end)]))))
      == From([I386.WhileStart, I386.WhileEnd], n) + LabelsIn(r) + LabelsIn(b)
  {
    var start, end := Numbered(I386.WhileStart, n), Numbered(I386.WhileEnd, n + 1);
    TwoFrom(I386.WhileStart, I386.WhileEnd, n);
    OneDef(start, start);
    OneDef(end, start);
    hide LabelsIn, From;
    Unions();
  }

  lemma ForDraws(t: Target, st: Stmt, n: nat, lo: Loop, ret: Label)
    requires st.For?
    ensures Draws(EmitFor(t, st, n, lo, ret), n, OfStmt(t, st))
    decreases st, 1
  {
    hide LabelsIn, From, EmitValue, EmitBody, EmitStmt;
    var cond, step := Numbered(I386.ForCondition, n), Numbered(I386.ForIncrement, n + 1);
    var end := Numbered(I386.ForEnd, n + 2);
    var i := EmitStmt(t, st.init, n + 3, lo, ret);
    var r := EmitValue(t, st.cond, i.next);
    var b := EmitBody(t, st.body, r.next, InLoop(step, end), ret);
    var g := EmitStmt(t, st.step, b.next, lo, ret);
    ForLabels(n, i.code, r.code, b.code, g.code);
    var own := [I386.ForCondition, I386.ForIncrement, I386.ForEnd];
    var p, q := OfStmt(t, st.init), OfValue(t, st.cond);
    FromCat(own, p + (q + (OfBody(t, st.body) + OfStmt(t, st.step))), n);
    ThreeFrom(p, q, OfBody(t, st.body), OfStmt(t, st.step), n + 3);
    StmtDraws(t, st.init, n + 3, lo, ret);
    ValueDraws(t, st.cond, i.next);
    BodyDraws(t, st.body, r.next, InLoop(step, end), ret);
    StmtDraws(t, st.step, b.next, lo, ret);
  }

  lemma ForLabels(n: nat, i: seq<Op>, r: seq<Op>, b: seq<Op>, g: seq<Op>)
    ensures var cond, step := Numbered(I386.ForCondition, n), Numbered(I386.ForIncrement, n + 1);
      var end := Numbered(I386.ForEnd, n + 2);
      LabelsIn(i + ([Def(cond)] + (r + ([TestAcc, Branch(end, true)]
        + (b + ([Def(step)] + (g + [Jump(cond), Def(end)])))))))
      == From([I386.ForCondition, I386.ForIncrement, I386.ForEnd], n)
         + (LabelsIn(i) + LabelsIn(r) + LabelsIn(b) + LabelsIn(g))
  {
    var cond, step := Numbered(I386.ForCondition, n), Numbered(I386.ForIncrement, n + 1);
    var end := Numbered(I386.ForEnd, n + 2);
    ForFrom(n);
    OneDef(cond, cond);
    OneDef(step, step);
    OneDef(end, cond);
    hide LabelsIn, From;
    Unions();
  }

  lemma ForFrom(n: nat)
    ensures From([I386.ForCondition, I386.ForIncrement, I386.ForEnd], n)
         == {Numbered(I386.ForCondition, n), Numbered(I386.ForIncrement, n + 1), Numbered(I386.ForEnd, n + 2)}
  {
    var ps := [I386.ForCondition, I386.ForIncrement, I386.ForEnd];
    assert Numbered(ps[0], n + 0) in From(ps, n) && Numbered(ps[1], n + 1) in From(ps, n);
    assert Numbered(ps[2], n + 2) in From(ps, n);
  }

  lemma MatchDraws(t: Target, st: Stmt, n: nat, lo: Loop, ret: Label)
    requires st.Match? && !Refused(t, st)
    ensures Draws(EmitMatch(t, st, n, lo, ret), n, OfStmt(t, st))
    decreases st, 1
  {
    hide LabelsIn, From, EmitToSlots, EmitArms, Dispatch, Fallback, Repeated;
    var end, k := Numbered(I386.MatchEnd, n), |st.arms|;
    var r := EmitToSlots(t, st.value, n + 1 + k);
    Unions();
    OneDef(end, end);
    OneDef(Fallback(st.arms, n + 1, end), end);
    MatchFrom(k, n);
    StoredDraws(t, st.value, n + 1 + k);
    DispatchUnlabelled(st.arms, n + 1);
    ArmsDraw(t, st.arms, n + 1, r.next, end, lo, ret);
  }

  lemma MatchFrom(k: nat, n: nat)
    ensures From([I386.MatchEnd] + Repeated(k), n) == {Numbered(I386.MatchEnd, n)} + From(Repeated(k), n + 1)
    ensures |Repeated(k)| == k
  {
    FromCat([I386.MatchEnd], Repeated(k), n);
    assert From([I386.MatchEnd], n) == {Numbered(I386.MatchEnd, n)} by {
      assert Numbered([I386.MatchEnd][0], n + 0) in From([I386.MatchEnd], n);
    }
  }

  lemma {:induction false} DispatchUnlabelled(arms: seq<Arm>, label0: nat)
    ensures LabelsIn(Dispatch(arms, label0)) == {}
    decreases |arms|
  {
    hide LabelsIn, From, DispatchArm;
    Unions();
    if arms != [] {
      TestsUnlabelled(arms[0].patterns, ArmLabel(label0));
      DispatchUnlabelled(arms[1..], label0 + 1);
    }
  }

  lemma {:induction false} TestsUnlabelled(patterns: seq<Pattern>, arm: Label)
    ensures LabelsIn(DispatchArm(patterns, arm)) == {}
    decreases |patterns|
  {
    hide LabelsIn, From;
    Unions();
    if patterns != [] {
      OneDef(arm, arm);
      TestsUnlabelled(patterns[1..], arm);
    }
  }

  lemma ArmsDraw(t: Target, arms: seq<Arm>, label0: nat, n: nat, end: Label, lo: Loop, ret: Label)
    ensures var r := EmitArms(t, arms, label0, n, end, lo, ret);
      && r.next == n + |OfArms(t, arms)|
      && LabelsIn(r.code) == From(Repeated(|arms|), label0) + From(OfArms(t, arms), n)
    decreases arms, 0
  {
    hide LabelsIn, From, EmitBody, Repeated;
    if arms == [] {
      Unions();
      RepeatedMore(0);
    } else {
      var a := EmitBody(t, arms[0].body, n, lo, ret);
      var b := EmitArms(t, arms[1..], label0 + 1, a.next, end, lo, ret);
      RepeatedMore(|arms| - 1);
      FromCat([I386.MatchArm], Repeated(|arms| - 1), label0);
      FromCat(OfBody(t, arms[0].body), OfArms(t, arms[1..]), n);
      ArmLabels(label0, a.code, end, b.code);
      BodyDraws(t, arms[0].body, n, lo, ret);
      ArmsDraw(t, arms[1..], label0 + 1, a.next, end, lo, ret);
    }
  }

  lemma ArmLabels(label0: nat, a: seq<Op>, end: Label, b: seq<Op>)
    ensures LabelsIn([Def(ArmLabel(label0)), Plain] + (a + ([Jump(end)] + b)))
         == From([I386.MatchArm], label0) + LabelsIn(a) + LabelsIn(b)
  {
    OneFrom(label0);
    OneDef(ArmLabel(label0), end);
    OneDef(end, end);
    hide LabelsIn, From;
    Unions();
  }

  lemma OneFrom(n: nat)
    ensures From([I386.MatchArm], n) == {ArmLabel(n)}
  {
    assert Numbered([I386.MatchArm][0], n + 0) in From([I386.MatchArm], n);
  }

  lemma RepeatedMore(k: nat)
    ensures Repeated(k + 1) == [I386.MatchArm] + Repeated(k) && |Repeated(k)| == k && Repeated(0) == []
  {
  }

  lemma BodyDraws(t: Target, body: seq<Stmt>, n: nat, lo: Loop, ret: Label)
    ensures Draws(EmitBody(t, body, n, lo, ret), n, OfBody(t, body))
    decreases body, 0
  {
    hide LabelsIn, From, EmitStmt;
    Unions();
    if body != [] {
      StmtDraws(t, body[0], n, lo, ret);
      BodyDraws(t, body[1..], EmitStmt(t, body[0], n, lo, ret).next, lo, ret);
    }
  }

  // ---- modules ----

  /** The entry and return labels of the functions. */
  function Ends(fs: seq<Function>): set<Label> {
    (set f | f in fs :: I386.FunctionOf(f.name)) + (set f | f in fs :: I386.ReturnOf(f.name))
  }

  lemma FunctionDraws(t: Target, f: Function, n: nat)
    ensures var r := EmitFunction(t, f, n);
      && r.next == n + |OfBody(t, f.body)|
      && LabelsIn(r.code) == From(OfBody(t, f.body), n) + {I386.FunctionOf(f.name), I386.ReturnOf(f.name)}
  {
    hide LabelsIn, From, EmitBody;
    Unions();
    BodyDraws(t, f.body, n, NoLoop, I386.ReturnOf(f.name));
    FunctionEnds(t, f);
  }

  lemma FunctionEnds(t: Target, f: Function)
    ensures LabelsIn(Prologue(t, f)) == {I386.FunctionOf(f.name)}
    ensures LabelsIn([Def(I386.ReturnOf(f.name)), Leave]) == {I386.ReturnOf(f.name)}
  {
    hide AlignedBytes;
    assert Prologue(t, f)[0] == Def(I386.FunctionOf(f.name));
    assert [Def(I386.ReturnOf(f.name)), Leave][0] == Def(I386.ReturnOf(f.name));
  }

  /** The code of a module defines the labels that its source tree asks for, the entries
      and the return labels, and no others. */
  lemma {:induction false} ModuleDraws(t: Target, fs: seq<Function>, n: nat)
    ensures var r := EmitFunctions(t, fs, n);
      r.next == n + |OfFunctions(t, fs)| && LabelsIn(r.code) == From(OfFunctions(t, fs), n) + Ends(fs)
    decreases |fs|
  {
    hide LabelsIn, From, EmitFunction, Ends;
    Unions();
    if fs == [] {
      EndsMore(fs);
    } else {
      FunctionDraws(t, fs[0], n);
      ModuleDraws(t, fs[1..], EmitFunction(t, fs[0], n).next);
      EndsMore(fs);
    }
  }

  lemma EndsMore(fs: seq<Function>)
    ensures if fs == [] then Ends(fs) == {}
            else Ends(fs) == {I386.FunctionOf(fs[0].name), I386.ReturnOf(fs[0].name)} + Ends(fs[1..])
  {
    if fs != [] { assert forall f :: f in fs <==> f == fs[0] || f in fs[1..]; }
  }
}
