/** The same induction over statements: whatever way a statement is left, the stack
    is at the level of the frame. */
module StackStatements {
  import opened Frames
  import opened Calls
  import opened StackCode
  import opened StackLevel
  import opened StackProof
  import I386

  type Stmt = StackCode.Stmt
  type Arm = StackCode.Arm

  /** What the check of loop depth rules out. */
  predicate LoopsOk(st: Stmt, inLoop: bool)
    decreases st, 1
  {
    match st
    case Break => inLoop
    case Continue => inLoop
    case If(_, a, b) => AllLoopsOk(a, inLoop) && AllLoopsOk(b, inLoop)
    case While(_, body) => AllLoopsOk(body, true)
    case For(init, _, step, body) => LoopsOk(init, inLoop) && LoopsOk(step, inLoop) && AllLoopsOk(body, true)
    case Match(_, arms) => ArmLoopsOk(arms, inLoop)
    case _ => true
  }

  predicate AllLoopsOk(body: seq<Stmt>, inLoop: bool)
    decreases body, 0
  {
    body == [] || (LoopsOk(body[0], inLoop) && AllLoopsOk(body[1..], inLoop))
  }

  predicate ArmLoopsOk(arms: seq<Arm>, inLoop: bool)
    decreases arms, 0
  {
    arms == [] || (AllLoopsOk(arms[0].body, inLoop) && ArmLoopsOk(arms[1..], inLoop))
  }

  /** Where a statement may go: out of the loop, on to its next round, or out of the
      function. */
  function Exits(lo: Loop, ret: Label): set<Label> {
    if lo.InLoop? then {ret, lo.start, lo.end} else {ret}
  }

  /** Code that starts and ends at the floor. */
  ghost predicate Flat(t: Target, c: seq<Op>, f: int, ids: set<nat>, ext: set<Label>) {
    Ok(t, c, f, f, f, ids, ext)
  }

  ghost predicate FlatFrom(t: Target, r: Emitted, f: int, n: nat, ext: set<Label>) {
    n <= r.next && Flat(t, r.code, f, Range(n, r.next), ext)
  }

  // ---- gluing ----

  lemma FlatCat(t: Target, a: seq<Op>, b: seq<Op>, f: int, idsA: set<nat>, idsB: set<nat>, ext: set<Label>)
    requires Flat(t, a, f, idsA, ext) && Flat(t, b, f, idsB, ext) && idsA !! idsB
    ensures Flat(t, a + b, f, idsA + idsB, ext)
  {
    hide Ok;
    Cat(t, a, b, f, f, f, f, idsA, idsB, ext);
  }

  /** In front of or behind code without labels. */
  lemma FlatPlus(t: Target, a: seq<Op>, b: seq<Op>, f: int, ids: set<nat>, ext: set<Label>)
    requires Flat(t, b, f, {}, ext)
    ensures Flat(t, a, f, ids, ext) ==> Flat(t, a + b, f, ids, ext) && Flat(t, b + a, f, ids, ext)
  {
    hide Ok;
    if Flat(t, a, f, ids, ext) {
      Then(t, a, b, f, f, f, f, ids, ext);
      Before(t, b, a, f, f, f, f, ids, ext);
    }
  }

  lemma FlatRange(t: Target, a: seq<Op>, b: seq<Op>, f: int, lo: nat, mid: nat, hi: nat, ext: set<Label>)
    requires Flat(t, a, f, Range(lo, mid), ext) && Flat(t, b, f, Range(mid, hi), ext) && lo <= mid <= hi
    ensures Flat(t, a + b, f, Range(lo, hi), ext)
  {
    hide Ok;
    CatRange(t, a, b, f, f, f, f, lo, mid, hi, ext);
  }

  /** A label between two parts serves the jumps of both. */
  lemma Close(t: Target, a: seq<Op>, l: Label, b: seq<Op>, f: int, idsA: set<nat>, idsB: set<nat>, ids: set<nat>,
              ext: set<Label>)
    requires l.Numbered? && l.id !in idsA && l.id !in idsB && idsA !! idsB && idsA + {l.id} + idsB <= ids
    requires Flat(t, a, f, idsA, ext + {l}) && Flat(t, b, f, idsB, ext + {l})
    ensures Flat(t, a + ([Def(l)] + b), f, ids, ext)
  {
    hide Ok, Depth;
    OkDef(t, l.prefix, l.id, f, f, ext + {l});
    FlatCat(t, [Def(l)], b, f, {l.id}, idsB, ext + {l});
    FlatCat(t, a, [Def(l)] + b, f, idsA, {l.id} + idsB, ext + {l});
    MoreIds(t, a + ([Def(l)] + b), f, f, f, idsA + ({l.id} + idsB), ids, ext + {l});
    EndDepth(t, a, f, f, f, idsA, ext + {l});
    StartDepth(t, [Def(l)] + b, f);
    DischargeIn(t, a, [Def(l)] + b, f, ids, ext, l, 0);
  }

  lemma StartDepth(t: Target, c: seq<Op>, d: int)
    ensures Depth(t, c, d, 0) == d
  {
  }

  /** A label at the end. */
  lemma CloseEnd(t: Target, a: seq<Op>, l: Label, f: int, idsA: set<nat>, ids: set<nat>, ext: set<Label>)
    requires l.Numbered? && l.id !in idsA && idsA + {l.id} <= ids && Flat(t, a, f, idsA, ext + {l})
    ensures Flat(t, a + [Def(l)], f, ids, ext)
  {
    hide Ok;
    OkNone(t, f, f, ext + {l});
    assert Flat(t, [], f, {}, ext + {l});
    Close(t, a, l, [], f, idsA, {}, ids, ext);
    assert [Def(l)] + [] == [Def(l)];
  }

  lemma FlatBranch(t: Target, op: Op, f: int, ext: set<Label>)
    requires IsBranch(op) && op.at in ext
    ensures Flat(t, [op], f, {}, ext)
  {
    OkBranch(t, op, f, ext);
  }

  /** A value inside a statement. */
  lemma ValueFlat(t: Target, v: Value, f: int, n: nat, ext: set<Label>)
    ensures FlatFrom(t, EmitValue(t, v, n), f, n, ext)
  {
    hide Ok, EmitValue;
    ValueIsLevel(t, v, f, n);
    var r := EmitValue(t, v, n);
    Weaken(t, r.code, f, f, f, Range(n, r.next), f, Range(n, r.next), ext);
  }

  lemma FlatFewer(t: Target, c: seq<Op>, f: int, ids: set<nat>, ext: set<Label>)
    requires Flat(t, c, f, ids, {})
    ensures Flat(t, c, f, ids, ext)
  {
    hide Ok;
    Weaken(t, c, f, f, f, ids, f, ids, ext);
  }

  lemma PlainFlat(t: Target, f: int, ext: set<Label>)
    ensures Flat(t, [Plain], f, {}, ext)
  {
    OkPlain(t, f, f, ext);
  }

  // ---- simple statements ----

  lemma {:induction false} ChunksUpFlat(t: Target, v: Value, c: nat, k: nat, f: int, n: nat)
    ensures FlatFrom(t, EmitChunksUp(t, v, c, k, n), f, n, {})
    decreases k - c
  {
    hide Ok, EmitChunk;
    if c >= k {
      OkNone(t, f, f, {});
      NoIds(t, [], f, f, f, n, {});
    } else {
      var r := EmitChunk(t, v, c, n);
      var q := EmitChunksUp(t, v, c + 1, k, r.next);
      ChunkIsLevel(t, v, c, f, n);
      PlainAfter(t, r.code, f, f, Range(n, r.next), {});
      ChunksUpFlat(t, v, c + 1, k, f, r.next);
      FlatRange(t, r.code + [Plain], q.code, f, n, r.next, q.next, {});
    }
  }

  lemma ToSlotsFlat(t: Target, v: Value, f: int, n: nat, ext: set<Label>)
    ensures FlatFrom(t, EmitToSlots(t, v, n), f, n, ext)
  {
    hide Ok, EmitValue, EmitChunksUp, Chunks;
    if t.Arm64? && v.Call? && Chunks(t, v.size) == 2 {
      StoredFlat(t, v, f, n, ext);
    } else {
      ChunksUpFlat(t, v, 0, Chunks(t, v.size), f, n);
      var r := EmitChunksUp(t, v, 0, Chunks(t, v.size), n);
      FlatFewer(t, r.code, f, Range(n, r.next), ext);
    }
  }

  lemma StoredFlat(t: Target, v: Value, f: int, n: nat, ext: set<Label>)
    ensures var r := EmitValue(t, v, n); FlatFrom(t, Emitted(r.code + [Plain], r.next), f, n, ext)
  {
    hide Ok, EmitValue;
    var r := EmitValue(t, v, n);
    ValueFlat(t, v, f, n, ext);
    PlainFlat(t, f, ext);
    FlatPlus(t, r.code, [Plain], f, Range(n, r.next), ext);
  }

  lemma StoreFlat(t: Target, v: Value, target: Value, f: int, n: nat, ext: set<Label>)
    ensures var r := EmitValue(t, v, n);
      var q := EmitValue(t, target, r.next);
      FlatFrom(t, Emitted(r.code + (PushAcc(t) + (q.code + (PopTo(t) + [Plain]))), q.next), f, n, ext)
  {
    hide Ok, EmitValue, PushAcc, PopTo;
    var r := EmitValue(t, v, n);
    var q := EmitValue(t, target, r.next);
    ValueIsLevel(t, v, f, n);
    ValueIsLevel(t, target, f + PushBytes(t), r.next);
    PushPop(t, q.code, f, Range(r.next, q.next));
    OkPlain(t, f, f, {});
    var guarded := PushAcc(t) + (q.code + PopTo(t));
    FlatPlus(t, guarded, [Plain], f, Range(r.next, q.next), {});
    FlatRange(t, r.code, guarded + [Plain], f, n, r.next, q.next, {});
    FlatFewer(t, r.code + (guarded + [Plain]), f, Range(n, q.next), ext);
    assert guarded + [Plain] == PushAcc(t) + (q.code + (PopTo(t) + [Plain]));
  }

  /** Code between a push and a pop. */
  lemma PushPop(t: Target, a: seq<Op>, f: int, ids: set<nat>)
    requires Flat(t, a, f + PushBytes(t), ids, {})
    ensures Flat(t, PushAcc(t) + (a + PopTo(t)), f, ids, {})
  {
    hide PushAcc, PopTo, PushBytes, Ok;
    var d := f + PushBytes(t);
    PushGrows(t, f);
    OkPush(t, f, f, {});
    Weaken(t, a, d, d, d, ids, f, ids, {});
    OkPop(t, f, d, {});
    Then(t, a, PopTo(t), f, d, d, f, ids, {});
    Before(t, PushAcc(t), a + PopTo(t), f, f, d, f, ids, {});
  }

  lemma ReturnedFlat(t: Target, v: Value, f: int, n: nat, ext: set<Label>)
    ensures FlatFrom(t, EmitReturned(t, v, n), f, n, ext)
  {
    hide Ok, EmitValue, EmitChunk, EmitChunksUp, PushAcc, PopTo, Chunks;
    var k := Chunks(t, v.size);
    if t.X64? || k == 1 {
      ValueFlat(t, v, f, n, ext);
    } else {
      var r := EmitChunk(t, v, 0, n);
      var q := EmitChunksUp(t, v, 1, k, r.next);
      ChunkIsLevel(t, v, 0, f, n);
      ChunksUpFlat(t, v, 1, k, f + PushBytes(t), r.next);
      PushPop(t, q.code, f, Range(r.next, q.next));
      FlatRange(t, r.code, PushAcc(t) + (q.code + PopTo(t)), f, n, r.next, q.next, {});
      FlatFewer(t, r.code + (PushAcc(t) + (q.code + PopTo(t))), f, Range(n, q.next), ext);
    }
  }

  // ---- statements ----

  lemma {:induction false} StmtIsFlat(t: Target, st: Stmt, f: int, n: nat, lo: Loop, ret: Label, ext: set<Label>)
    requires LoopsOk(st, lo.InLoop?) && Exits(lo, ret) <= ext
    ensures FlatFrom(t, EmitStmt(t, st, n, lo, ret), f, n, ext)
    decreases st, 1
  {
    hide Ok, EmitValue, EmitToSlots, EmitChunksUp, EmitReturned, EmitIf, EmitWhile, EmitFor, EmitMatch, PushAcc;
    hide PopTo, Chunks;
    if Refused(t, st) {
      OkNone(t, f, f, ext);
      NoIds(t, [], f, f, f, n, ext);
    } else {
      match st
      case Let(v) => ToSlotsFlat(t, v, f, n, ext);
      case Assign(isLocal, v) =>
        if isLocal && !t.Arm64? {
          ChunksUpFlat(t, v, 0, Chunks(t, v.size), f, n);
          var r := EmitChunksUp(t, v, 0, Chunks(t, v.size), n);
          FlatFewer(t, r.code, f, Range(n, r.next), ext);
        } else {
          StoredFlat(t, v, f, n, ext);
        }
      case Store(v, target) => StoreFlat(t, v, target, f, n, ext);
      case Expr(v) => ValueFlat(t, v, f, n, ext);
      case If(_, _, _) => IfIsFlat(t, st, f, n, lo, ret, ext);
      case While(_, _) => WhileIsFlat(t, st, f, n, ret, ext);
      case For(_, _, _, _) => ForIsFlat(t, st, f, n, lo, ret, ext);
      case Match(_, _) => MatchIsFlat(t, st, f, n, lo, ret, ext);
      case Break => JumpFlat(t, EndLabel(lo), f, n, ext);
      case Continue => JumpFlat(t, StartLabel(lo), f, n, ext);
      case Return(v) =>
        ReturnedFlat(t, v, f, n, ext);
        FlatBranch(t, Jump(ret), f, ext);
        var r := EmitReturned(t, v, n);
        FlatPlus(t, r.code, [Jump(ret)], f, Range(n, r.next), ext);
    }
  }

  lemma JumpFlat(t: Target, l: Label, f: int, n: nat, ext: set<Label>)
    requires l in ext
    ensures FlatFrom(t, Emitted([Jump(l)], n), f, n, ext)
  {
    hide Ok;
    FlatBranch(t, Jump(l), f, ext);
    NoIds(t, [Jump(l)], f, f, f, n, ext);
  }

  lemma BodyIsFlat(t: Target, body: seq<Stmt>, f: int, n: nat, lo: Loop, ret: Label, ext: set<Label>)
    requires AllLoopsOk(body, lo.InLoop?) && Exits(lo, ret) <= ext
    ensures FlatFrom(t, EmitBody(t, body, n, lo, ret), f, n, ext)
    decreases body, 0
  {
    hide Ok, EmitStmt, Exits, LoopsOk;
    if body == [] {
      OkNone(t, f, f, ext);
      NoIds(t, [], f, f, f, n, ext);
    } else {
      var a := EmitStmt(t, body[0], n, lo, ret);
      StmtIsFlat(t, body[0], f, n, lo, ret, ext);
      BodyIsFlat(t, body[1..], f, a.next, lo, ret, ext);
      var b := EmitBody(t, body[1..], a.next, lo, ret);
      FlatRange(t, a.code, b.code, f, n, a.next, b.next, ext);
    }
  }

  /** A value, a test, and what runs if the test does not branch. */
  lemma TestedFlat(t: Target, v: Value, l: Label, a: seq<Op>, f: int, n: nat, next: nat, ext: set<Label>)
    requires l in ext
    requires var r := EmitValue(t, v, n); r.next <= next && Flat(t, a, f, Range(r.next, next), ext)
    ensures var r := EmitValue(t, v, n);
      n <= next && Flat(t, r.code + ([TestAcc, Branch(l, true)] + a), f, Range(n, next), ext)
  {
    hide Ok, EmitValue;
    var r := EmitValue(t, v, n);
    ValueFlat(t, v, f, n, ext);
    TestLevel(t, TestAcc, l, true, f, ext);
    FlatPlus(t, a, [TestAcc, Branch(l, true)], f, Range(r.next, next), ext);
    FlatRange(t, r.code, [TestAcc, Branch(l, true)] + a, f, n, r.next, next, ext);
  }

  lemma IfIsFlat(t: Target, st: Stmt, f: int, n: nat, lo: Loop, ret: Label, ext: set<Label>)
    requires st.If? && LoopsOk(st, lo.InLoop?) && Exits(lo, ret) <= ext
    ensures FlatFrom(t, EmitIf(t, st, n, lo, ret), f, n, ext)
    decreases st, 0
  {
    var other, end := Numbered(I386.Else, n), Numbered(I386.EndIf, n + 1);
    var r := EmitValue(t, st.cond, n + 2);
    var a := EmitBody(t, st.thenBody, r.next, lo, ret);
    var b := EmitBody(t, st.elseBody, a.next, lo, ret);
    var all := ext + {end} + {other};
    hide Ok, EmitValue, EmitBody, Exits;
    BodyIsFlat(t, st.thenBody, f, r.next, lo, ret, all);
    BodyIsFlat(t, st.elseBody, f, a.next, lo, ret, all);
    FlatBranch(t, Jump(end), f, all);
    FlatPlus(t, a.code, [Jump(end)], f, Range(r.next, a.next), all);
    TestedFlat(t, st.cond, other, a.code + [Jump(end)], f, n + 2, a.next, all);
    IfGlue(t, r.code + ([TestAcc, Branch(other, true)] + (a.code + [Jump(end)])), b.code, f, n, a.next, b.next, ext);
    IfCode(r.code, [TestAcc, Branch(other, true)], a.code, other, end, b.code);
  }

  lemma IfGlue(t: Target, front: seq<Op>, b: seq<Op>, f: int, n: nat, m: nat, next: nat, ext: set<Label>)
    requires n + 2 <= m <= next
    requires var all := ext + {Numbered(I386.EndIf, n + 1)} + {Numbered(I386.Else, n)};
      Flat(t, front, f, Range(n + 2, m), all) && Flat(t, b, f, Range(m, next), all)
    ensures var other, end := Numbered(I386.Else, n), Numbered(I386.EndIf, n + 1);
      Flat(t, (front + ([Def(other)] + b)) + [Def(end)], f, Range(n, next), ext)
  {
    hide Ok;
    var other, end := Numbered(I386.Else, n), Numbered(I386.EndIf, n + 1);
    Close(t, front, other, b, f, Range(n + 2, m), Range(m, next), Range(n + 2, next) + {n}, ext + {end});
    CloseEnd(t, front + ([Def(other)] + b), end, f, Range(n + 2, next) + {n}, Range(n, next), ext);
  }

  lemma IfCode(r: seq<Op>, test: seq<Op>, a: seq<Op>, other: Label, end: Label, b: seq<Op>)
    ensures ((r + (test + (a + [Jump(end)]))) + ([Def(other)] + b)) + [Def(end)]
         == r + (test + (a + ([Jump(end), Def(other)] + (b + [Def(end)]))))
  {
    assert [Jump(end), Def(other)] == [Jump(end)] + [Def(other)];
  }

  lemma WhileIsFlat(t: Target, st: Stmt, f: int, n: nat, ret: Label, ext: set<Label>)
    requires st.While? && AllLoopsOk(st.body, true) && ret in ext
    ensures FlatFrom(t, EmitWhile(t, st, n, ret), f, n, ext)
    decreases st, 0
  {
    var start, end := Numbered(I386.WhileStart, n), Numbered(I386.WhileEnd, n + 1);
    var r := EmitValue(t, st.cond, n + 2);
    var b := EmitBody(t, st.body, r.next, InLoop(start, end), ret);
    var all := ext + {end} + {start};
    hide Ok, EmitValue, EmitBody;
    BodyIsFlat(t, st.body, f, r.next, InLoop(start, end), ret, all);
    FlatBranch(t, Jump(start), f, all);
    FlatPlus(t, b.code, [Jump(start)], f, Range(r.next, b.next), all);
    TestedFlat(t, st.cond, end, b.code + [Jump(start)], f, n + 2, b.next, all);
    WhileGlue(t, r.code + ([TestAcc, Branch(end, true)] + (b.code + [Jump(start)])), f, n, b.next, ext);
    WhileCode(r.code, [TestAcc, Branch(end, true)], b.code, start, end);
  }

  lemma WhileGlue(t: Target, inner: seq<Op>, f: int, n: nat, next: nat, ext: set<Label>)
    requires n + 2 <= next
    requires var all := ext + {Numbered(I386.WhileEnd, n + 1)} + {Numbered(I386.WhileStart, n)};
      Flat(t, inner, f, Range(n + 2, next), all)
    ensures var start, end := Numbered(I386.WhileStart, n), Numbered(I386.WhileEnd, n + 1);
      Flat(t, ([] + ([Def(start)] + inner)) + [Def(end)], f, Range(n, next), ext)
  {
    hide Ok;
    var start, end := Numbered(I386.WhileStart, n), Numbered(I386.WhileEnd, n + 1);
    OkNone(t, f, f, ext + {end} + {start});
    Close(t, [], start, inner, f, {}, Range(n + 2, next), Range(n + 2, next) + {n}, ext + {end});
    CloseEnd(t, [] + ([Def(start)] + inner), end, f, Range(n + 2, next) + {n}, Range(n, next), ext);
  }

  lemma WhileCode(r: seq<Op>, test: seq<Op>, b: seq<Op>, start: Label, end: Label)
    ensures ([] + ([Def(start)] + (r + (test + (b + [Jump(start)]))))) + [Def(end)]
         == [Def(start)] + (r + (test + (b + [Jump(start), Def(end)])))
  {
    assert [Jump(start), Def(end)] == [Jump(start)] + [Def(end)];
  }

  lemma ForIsFlat(t: Target, st: Stmt, f: int, n: nat, lo: Loop, ret: Label, ext: set<Label>)
    requires st.For? && LoopsOk(st, lo.InLoop?) && Exits(lo, ret) <= ext
    ensures FlatFrom(t, EmitFor(t, st, n, lo, ret), f, n, ext)
    decreases st, 0
  {
    var cond, step := Numbered(I386.ForCondition, n), Numbered(I386.ForIncrement, n + 1);
    var end := Numbered(I386.ForEnd, n + 2);
    var i := EmitStmt(t, st.init, n + 3, lo, ret);
    var r := EmitValue(t, st.cond, i.next);
    var b := EmitBody(t, st.body, r.next, InLoop(step, end), ret);
    var g := EmitStmt(t, st.step, b.next, lo, ret);
    var all := ext + {end} + {cond} + {step};
    assert ret in ext;
    assert Exits(InLoop(step, end), ret) <= all;
    hide Ok, EmitValue, EmitBody, EmitStmt, Exits;
    StmtIsFlat(t, st.init, f, n + 3, lo, ret, ext + {end} + {cond});
    BodyIsFlat(t, st.body, f, r.next, InLoop(step, end), ret, all);
    StmtIsFlat(t, st.step, f, b.next, lo, ret, all);
    TestedFlat(t, st.cond, end, b.code, f, i.next, b.next, all);
    FlatBranch(t, Jump(cond), f, all);
    FlatPlus(t, g.code, [Jump(cond)], f, Range(b.next, g.next), all);
    var inner := r.code + ([TestAcc, Branch(end, true)] + b.code);
    ForGlue(t, i.code, inner, g.code + [Jump(cond)], cond, step, end, f, n, i.next, b.next, g.next, ext);
    ForCode(i.code, r.code, [TestAcc, Branch(end, true)], b.code, g.code, cond, step, end);
  }

  lemma ForGlue(t: Target, i: seq<Op>, inner: seq<Op>, g: seq<Op>, cond: Label, step: Label, end: Label,
                f: int, n: nat, m: nat, k: nat, next: nat, ext: set<Label>)
    requires cond == Numbered(I386.ForCondition, n) && step == Numbered(I386.ForIncrement, n + 1)
    requires end == Numbered(I386.ForEnd, n + 2) && n + 3 <= m <= k <= next
    requires Flat(t, i, f, Range(n + 3, m), ext + {end} + {cond})
    requires Flat(t, inner, f, Range(m, k), ext + {end} + {cond} + {step})
    requires Flat(t, g, f, Range(k, next), ext + {end} + {cond} + {step})
    ensures Flat(t, (i + ([Def(cond)] + (inner + ([Def(step)] + g)))) + [Def(end)], f, Range(n, next), ext)
  {
    hide Ok;
    Close(t, inner, step, g, f, Range(m, k), Range(k, next), Range(m, next) + {n + 1}, ext + {end} + {cond});
    var rest := inner + ([Def(step)] + g);
    Close(t, i, cond, rest, f, Range(n + 3, m), Range(m, next) + {n + 1}, Range(n + 3, next) + {n, n + 1}, ext + {end});
    CloseEnd(t, i + ([Def(cond)] + rest), end, f, Range(n + 3, next) + {n, n + 1}, Range(n, next), ext);
  }

  lemma ForCode(i: seq<Op>, r: seq<Op>, test: seq<Op>, b: seq<Op>, g: seq<Op>, cond: Label, step: Label, end: Label)
    ensures (i + ([Def(cond)] + ((r + (test + b)) + ([Def(step)] + (g + [Jump(cond)]))))) + [Def(end)]
         == i + ([Def(cond)] + (r + (test + (b + ([Def(step)] + (g + [Jump(cond), Def(end)]))))))
  {
    assert [Jump(cond), Def(end)] == [Jump(cond)] + [Def(end)];
  }

  // ---- match ----

  function ArmLabels(arms: seq<Arm>, label0: nat): (r: set<Label>)
    ensures forall l :: l in r ==> l.Numbered? && label0 <= l.id < label0 + |arms|
  {
    if arms == [] then {} else ArmLabels(arms[1..], label0 + 1) + {ArmLabel(label0)}
  }

  lemma {:induction false} DispatchArmFlat(t: Target, patterns: seq<Pattern>, arm: Label, f: int, ext: set<Label>)
    requires arm in ext
    ensures Flat(t, DispatchArm(patterns, arm), f, {}, ext)
  {
    hide Ok;
    if patterns == [] {
      OkNone(t, f, f, ext);
    } else {
      var first := match patterns[0]
        case Default => []
        case Always => [Jump(arm)]
        case Test => [Plain, Branch(arm, true)];
      DispatchArmFlat(t, patterns[1..], arm, f, ext);
      FlatBranch(t, Jump(arm), f, ext);
      TestLevel(t, Plain, arm, true, f, ext);
      OkNone(t, f, f, ext);
      assert Flat(t, first, f, {}, ext);
      FlatPlus(t, first, DispatchArm(patterns[1..], arm), f, {}, ext);
    }
  }

  lemma {:induction false} DispatchFlat(t: Target, arms: seq<Arm>, label0: nat, f: int, ext: set<Label>)
    requires ArmLabels(arms, label0) <= ext
    ensures Flat(t, Dispatch(arms, label0), f, {}, ext)
  {
    hide Ok, DispatchArm;
    if arms == [] {
      OkNone(t, f, f, ext);
    } else {
      DispatchArmFlat(t, arms[0].patterns, ArmLabel(label0), f, ext);
      DispatchFlat(t, arms[1..], label0 + 1, f, ext);
      FlatPlus(t, DispatchArm(arms[0].patterns, ArmLabel(label0)), Dispatch(arms[1..], label0 + 1), f, {}, ext);
    }
  }

  lemma {:induction false} FallbackIs(arms: seq<Arm>, label0: nat, end: Label)
    ensures Fallback(arms, label0, end) in ArmLabels(arms, label0) + {end}
  {
    if arms != [] {
      FallbackIs(arms[1..], label0 + 1, if Default in arms[0].patterns then ArmLabel(label0) else end);
    }
  }

  /** Every one of the labels is defined at the floor. */
  ghost predicate DefinedAt(t: Target, c: seq<Op>, f: int, l: Label) {
    exists j :: 0 <= j < |c| && c[j] == Def(l) && Depth(t, c, f, j) == f
  }

  ghost predicate DefinesAll(t: Target, c: seq<Op>, f: int, ls: set<Label>) {
    forall l :: l in ls ==> DefinedAt(t, c, f, l)
  }

  lemma DischargeAll(t: Target, c: seq<Op>, f: int, ids: set<nat>, ls: set<Label>, ext: set<Label>)
    requires Flat(t, c, f, ids, ext + ls) && DefinesAll(t, c, f, ls)
    ensures Flat(t, c, f, ids, ext)
  {
    hide Depth, Fine;
    forall i | 0 <= i < |c| && IsBranch(c[i]) ensures Targeted(t, c, f, f, i, ext) {
      assert Targeted(t, c, f, f, i, ext + ls);
      if c[i].at in ls && Depth(t, c, f, i) == f { assert DefinedAt(t, c, f, c[i].at); }
    }
  }

  lemma DefinedBehind(t: Target, a: seq<Op>, b: seq<Op>, f: int, ls: set<Label>)
    requires Depth(t, a, f, |a|) == f && DefinesAll(t, b, f, ls)
    ensures DefinesAll(t, a + b, f, ls)
  {
    hide Depth;
    CatDepths(t, a, b, f, f);
    forall l | l in ls ensures DefinedAt(t, a + b, f, l) {
      assert DefinedAt(t, b, f, l);
      var j :| 0 <= j < |b| && b[j] == Def(l) && Depth(t, b, f, j) == f;
      assert (a + b)[|a| + j] == b[j];
    }
  }

  lemma ArmsAreFlat(t: Target, arms: seq<Arm>, label0: nat, f: int, n: nat, end: Label, lo: Loop, ret: Label,
                    ext: set<Label>)
    requires ArmLoopsOk(arms, lo.InLoop?) && Exits(lo, ret) <= ext && end in ext && label0 + |arms| <= n
    ensures var r := EmitArms(t, arms, label0, n, end, lo, ret);
      && n <= r.next
      && Flat(t, r.code, f, Range(label0, label0 + |arms|) + Range(n, r.next), ext)
      && DefinesAll(t, r.code, f, ArmLabels(arms, label0))
    decreases arms, 0
  {
    hide Ok, Flat, EmitBody, Exits, DefinesAll, ArmLabels, Range, AllLoopsOk;
    if arms == [] {
      NoArmsFlat(t, label0, f, n, ext);
      assert label0 + |arms| == label0;
    } else {
      var a := EmitBody(t, arms[0].body, n, lo, ret);
      var b := EmitArms(t, arms[1..], label0 + 1, a.next, end, lo, ret);
      BodyIsFlat(t, arms[0].body, f, n, lo, ret, ext);
      ArmsAreFlat(t, arms[1..], label0 + 1, f, a.next, end, lo, ret, ext);
      var rest := Range(label0 + 1, label0 + |arms|) + Range(a.next, b.next);
      ArmIds(label0, label0 + |arms|, n, a.next, b.next);
      ArmGlue(t, label0, a.code, b.code, f, Range(n, a.next), rest, end, ext, ArmLabels(arms[1..], label0 + 1));
      MoreArmLabels(arms, label0);
    }
  }

  lemma NoArmsFlat(t: Target, label0: nat, f: int, n: nat, ext: set<Label>)
    ensures Flat(t, [], f, Range(label0, label0) + Range(n, n), ext) && DefinesAll(t, [], f, ArmLabels([], label0))
  {
    OkNone(t, f, f, ext);
    assert Range(label0, label0) + Range(n, n) == {};
  }

  lemma MoreArmLabels(arms: seq<Arm>, label0: nat)
    requires arms != []
    ensures ArmLabels(arms, label0) == ArmLabels(arms[1..], label0 + 1) + {ArmLabel(label0)}
  {
  }

  lemma ArmIds(label0: nat, last: nat, n: nat, m: nat, next: nat)
    requires label0 < last <= n <= m <= next
    ensures var rest := Range(label0 + 1, last) + Range(m, next);
      && {label0} + (Range(n, m) + rest) == Range(label0, last) + Range(n, next)
      && Range(n, m) !! rest && label0 !in Range(n, m) && label0 !in rest
  {
  }

  lemma ArmGlue(t: Target, id: nat, a: seq<Op>, b: seq<Op>, f: int, idsA: set<nat>, idsB: set<nat>, end: Label,
                ext: set<Label>, ls: set<Label>)
    requires Flat(t, a, f, idsA, ext) && Flat(t, b, f, idsB, ext) && end in ext
    requires idsA !! idsB && id !in idsA && id !in idsB && DefinesAll(t, b, f, ls)
    ensures var c := [Def(ArmLabel(id)), Plain] + (a + ([Jump(end)] + b));
      Flat(t, c, f, {id} + (idsA + idsB), ext) && DefinesAll(t, c, f, ls + {ArmLabel(id)})
  {
    hide Ok, Depth, DefinesAll;
    var l := ArmLabel(id);
    OkDef(t, I386.MatchArm, id, f, f, ext);
    PlainFlat(t, f, ext);
    FlatPlus(t, [Def(l)], [Plain], f, {id}, ext);
    assert [Def(l)] + [Plain] == [Def(l), Plain];
    FlatBranch(t, Jump(end), f, ext);
    FlatPlus(t, b, [Jump(end)], f, idsB, ext);
    FlatCat(t, a, [Jump(end)] + b, f, idsA, idsB, ext);
    FlatCat(t, [Def(l), Plain], a + ([Jump(end)] + b), f, {id}, idsA + idsB, ext);
    var front := [Def(l), Plain] + (a + [Jump(end)]);
    FlatPlus(t, a, [Jump(end)], f, idsA, ext);
    FlatCat(t, [Def(l), Plain], a + [Jump(end)], f, {id}, idsA, ext);
    EndDepth(t, front, f, f, f, {id} + idsA, ext);
    DefinedBehind(t, front, b, f, ls);
    var c := front + b;
    assert c == [Def(l), Plain] + (a + ([Jump(end)] + b));
    StartDepth(t, c, f);
    OneMore(t, c, f, ls, l, 0);
  }

  lemma OneMore(t: Target, c: seq<Op>, f: int, ls: set<Label>, l: Label, j: nat)
    requires DefinesAll(t, c, f, ls) && j < |c| && c[j] == Def(l) && Depth(t, c, f, j) == f
    ensures DefinesAll(t, c, f, ls + {l})
  {
  }

  lemma MatchIsFlat(t: Target, st: Stmt, f: int, n: nat, lo: Loop, ret: Label, ext: set<Label>)
    requires st.Match? && LoopsOk(st, lo.InLoop?) && Exits(lo, ret) <= ext
    ensures FlatFrom(t, EmitMatch(t, st, n, lo, ret), f, n, ext)
    decreases st, 0
  {
    hide Ok, Flat, EmitToSlots, EmitArms, Exits, ArmLabels, Dispatch, Fallback, DefinesAll, Range, ArmLoopsOk;
    var end, k := Numbered(I386.MatchEnd, n), n + 1 + |st.arms|;
    var r := EmitToSlots(t, st.value, k);
    var b := EmitArms(t, st.arms, n + 1, r.next, end, lo, ret);
    var ls := ArmLabels(st.arms, n + 1);
    var all := ext + {end} + ls;
    ToSlotsFlat(t, st.value, f, k, all);
    ArmsAreFlat(t, st.arms, n + 1, f, r.next, end, lo, ret, all);
    MatchFlatParts(t, st.arms, r, b, f, n, ext);
  }

  lemma MatchFlatParts(t: Target, arms: seq<Arm>, r: Emitted, b: Emitted, f: int, n: nat, ext: set<Label>)
    requires n + 1 + |arms| <= r.next <= b.next
    requires var ls := ArmLabels(arms, n + 1);
      var all := ext + {Numbered(I386.MatchEnd, n)} + ls;
      && Flat(t, r.code, f, Range(n + 1 + |arms|, r.next), all)
      && Flat(t, b.code, f, Range(n + 1, n + 1 + |arms|) + Range(r.next, b.next), all) && DefinesAll(t, b.code, f, ls)
    ensures var end := Numbered(I386.MatchEnd, n);
      var last := Jump(Fallback(arms, n + 1, end));
      Flat(t, r.code + (Dispatch(arms, n + 1) + ([last] + (b.code + [Def(end)]))), f, Range(n, b.next), ext)
  {
    hide Ok, Flat, ArmLabels, Dispatch, Fallback, DefinesAll, Range;
    var end := Numbered(I386.MatchEnd, n);
    var ls := ArmLabels(arms, n + 1);
    var all := ext + {end} + ls;
    DispatchFlat(t, arms, n + 1, f, all);
    FallbackIs(arms, n + 1, end);
    var last := Jump(Fallback(arms, n + 1, end));
    FlatBranch(t, last, f, all);
    MatchGlue(t, r.code, Dispatch(arms, n + 1), last, b.code, f, n, n + 1 + |arms|, r.next, b.next, ls, ext);
  }

  lemma MatchGlue(t: Target, r: seq<Op>, d: seq<Op>, last: Op, b: seq<Op>, f: int, n: nat, k: nat, m: nat, next: nat,
                  ls: set<Label>, ext: set<Label>)
    requires n + 1 <= k <= m <= next
    requires var all := ext + {Numbered(I386.MatchEnd, n)} + ls;
      && Flat(t, r, f, Range(k, m), all) && Flat(t, d, f, {}, all) && Flat(t, [last], f, {}, all)
      && Flat(t, b, f, Range(n + 1, k) + Range(m, next), all) && DefinesAll(t, b, f, ls)
    ensures Flat(t, r + (d + ([last] + (b + [Def(Numbered(I386.MatchEnd, n))]))), f, Range(n, next), ext)
  {
    hide Ok, Depth, DefinesAll;
    var end := Numbered(I386.MatchEnd, n);
    var all := ext + {end} + ls;
    FlatPlus(t, d, [last], f, {}, all);
    FlatPlus(t, r, d + [last], f, Range(k, m), all);
    var front := r + (d + [last]);
    FlatCat(t, front, b, f, Range(k, m), Range(n + 1, k) + Range(m, next), all);
    assert Range(k, m) + (Range(n + 1, k) + Range(m, next)) == Range(n + 1, next);
    EndDepth(t, front, f, f, f, Range(k, m), all);
    DefinedBehind(t, front, b, f, ls);
    DischargeAll(t, front + b, f, Range(n + 1, next), ls, ext + {end});
    CloseEnd(t, front + b, end, f, Range(n + 1, next), Range(n, next), ext);
    assert (front + b) + [Def(end)] == r + (d + ([last] + (b + [Def(end)])));
  }
}
