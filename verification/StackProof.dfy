/** The induction over values and statements: everything the emitters write is
    level. */
module StackProof {
  import opened Frames
  import opened Calls
  import opened StackCode
  import opened StackLevel
  import I386

  /** A value leaves the depth as it finds it, stays below it in between, and keeps
      its branches to itself. */
  ghost predicate ValueLevel(t: Target, r: Emitted, d: int, n: nat) {
    n <= r.next && Ok(t, r.code, d, d, d, Range(n, r.next), {})
  }

  lemma RangeCat(lo: nat, mid: nat, hi: nat)
    requires lo <= mid <= hi
    ensures Range(lo, mid) !! Range(mid, hi) && Range(lo, mid) + Range(mid, hi) == Range(lo, hi)
  {
  }

  lemma CatRange(t: Target, a: seq<Op>, b: seq<Op>, f: int, d: int, m: int, e: int, lo: nat, mid: nat, hi: nat,
                 ext: set<Label>)
    requires Ok(t, a, f, d, m, Range(lo, mid), ext) && Ok(t, b, f, m, e, Range(mid, hi), ext) && lo <= mid <= hi
    ensures Ok(t, a + b, f, d, e, Range(lo, hi), ext)
  {
    hide Ok;
    RangeCat(lo, mid, hi);
    Cat(t, a, b, f, d, m, e, Range(lo, mid), Range(mid, hi), ext);
  }

  lemma NoIds(t: Target, c: seq<Op>, f: int, d: int, e: int, n: nat, ext: set<Label>)
    requires Ok(t, c, f, d, e, {}, ext)
    ensures Ok(t, c, f, d, e, Range(n, n), ext)
  {
    assert Range(n, n) == {};
  }

  lemma PlainAfter(t: Target, c: seq<Op>, f: int, d: int, ids: set<nat>, ext: set<Label>)
    requires Ok(t, c, f, d, f, ids, ext)
    ensures Ok(t, c + [Plain], f, d, f, ids, ext)
  {
    OkPlain(t, f, f, ext);
    Then(t, c, [Plain], f, d, f, f, ids, ext);
  }

  lemma {:induction false} ValueIsLevel(t: Target, v: Value, d: int, n: nat)
    ensures ValueLevel(t, EmitValue(t, v, n), d, n)
    decreases v, 4
  {
    hide Ok, PushAcc, PopTo, EmitChunk, EmitLiteralChunk, EmitCallOf;
    match v
    case StringLiteral(_) =>
      OkPlain(t, d, d, {});
      NoIds(t, [Plain], d, d, d, n, {});
    case Leaf(_) =>
      OkPlain(t, d, d, {});
      NoIds(t, [Plain], d, d, d, n, {});
    case Increment(_, postfix) => IncrementLevel(t, postfix, d, n);
    case Wrap(_, a) =>
      ValueIsLevel(t, a, d, n);
      var r := EmitValue(t, a, n);
      PlainAfter(t, r.code, d, d, Range(n, r.next), {});
    case Binary(_, a, b) =>
      ValueIsLevel(t, a, d, n);
      var r := EmitValue(t, a, n);
      ValueIsLevel(t, b, d + PushBytes(t), r.next);
      var q := EmitValue(t, b, r.next);
      Guarded(t, q.code, d, Range(r.next, q.next));
      CatRange(t, r.code, PushAcc(t) + (q.code + ([Plain] + (PopTo(t) + [Plain]))), d, d, d, d, n, r.next, q.next, {});
    case Logical(_, isAnd, a, b) =>
      ValueIsLevel(t, a, d, n + 2);
      var r := EmitValue(t, a, n + 2);
      ValueIsLevel(t, b, d, r.next);
      var q := EmitValue(t, b, r.next);
      LogicalLevel(t, isAnd, ShortPrefix(isAnd), r.code, q.code, d, n, r.next, q.next);
    case Call(_, _, _) => CallLevel(t, v, d, n);
    case Literal(_, _, _) => LiteralLevel(t, v, 0, d, n);
    case FieldOf(_, offset, base) =>
      ChunkIsLevel(t, base, offset / Word(t), d, n);
      var r := EmitChunk(t, base, offset / Word(t), n);
      PlainAfter(t, r.code, d, d, Range(n, r.next), {});
  }

  lemma IncrementLevel(t: Target, postfix: bool, d: int, n: nat)
    ensures ValueLevel(t, EmitValue(t, Increment(Scalar, postfix), n), d, n)
  {
    hide Ok, PushAcc, PopTo, PushBytes;
    PushGrows(t, d);
    var e := d + PushBytes(t);
    OkPlain(t, d, d, {});
    if postfix {
      OkPlain(t, d, e, {});
      OkPush(t, d, d, {});
      OkPop(t, d, e, {});
      Then(t, [Plain], PopTo(t), d, e, e, d, {}, {});
      Then(t, PushAcc(t), [Plain] + PopTo(t), d, d, e, d, {}, {});
      Then(t, [Plain], PushAcc(t) + ([Plain] + PopTo(t)), d, d, d, d, {}, {});
      NoIds(t, [Plain] + (PushAcc(t) + ([Plain] + PopTo(t))), d, d, d, n, {});
    } else {
      NoIds(t, [Plain], d, d, d, n, {});
    }
  }

  /** A label inside the second part, seen from the whole. */
  lemma DischargeIn(t: Target, a: seq<Op>, b: seq<Op>, f: int, ids: set<nat>, ext: set<Label>, l: Label, j: nat)
    requires Ok(t, a + b, f, f, f, ids, ext + {l}) && Depth(t, a, f, |a|) == f
    requires j < |b| && b[j] == Def(l) && Depth(t, b, f, j) == f
    ensures Ok(t, a + b, f, f, f, ids, ext)
  {
    hide Ok, Depth;
    DepthSecond(t, a, b, f, j);
    assert (a + b)[|a| + j] == b[j];
    Discharge(t, a + b, f, f, f, ids, ext, l, |a| + j);
  }

  lemma EndDepth(t: Target, c: seq<Op>, f: int, d: int, e: int, ids: set<nat>, ext: set<Label>)
    requires Ok(t, c, f, d, e, ids, ext)
    ensures Depth(t, c, d, |c|) == e && e >= f
  {
  }

  /** A test and a branch out. */
  lemma TestLevel(t: Target, test: Op, l: Label, equal: bool, f: int, ext: set<Label>)
    requires l in ext && (test.Plain? || test.TestAcc?)
    ensures Ok(t, [test, Branch(l, equal)], f, f, f, {}, ext)
  {
    OkOne(t, test, f, f, ext);
    OkBranch(t, Branch(l, equal), f, ext);
    Then(t, [test], [Branch(l, equal)], f, f, f, f, {}, ext);
    assert [test, Branch(l, equal)] == [test] + [Branch(l, equal)];
  }

  function LogicTail(isAnd: bool, short: Label, end: Label): seq<Op> {
    [SetAcc(isAnd), Jump(end), Def(short), SetAcc(!isAnd), Def(end)]
  }

  lemma LogicTailLevel(t: Target, isAnd: bool, p: I386.Prefix, n: nat, f: int, ext: set<Label>)
    requires Numbered(p, n) in ext && Numbered(I386.LogicEnd, n + 1) in ext
    ensures var c := LogicTail(isAnd, Numbered(p, n), Numbered(I386.LogicEnd, n + 1));
      Ok(t, c, f, f, f, {n, n + 1}, ext) && Depth(t, c, f, 2) == f && Depth(t, c, f, 4) == f
  {
    var short, end := Numbered(p, n), Numbered(I386.LogicEnd, n + 1);
    var c := LogicTail(isAnd, short, end);
    assert c == [SetAcc(isAnd)] + ([Jump(end)] + ([Def(short)] + ([SetAcc(!isAnd)] + [Def(end)])));
    OkDef(t, p, n, f, f, ext);
    OkDef(t, I386.LogicEnd, n + 1, f, f, ext);
    OkOne(t, SetAcc(isAnd), f, f, ext);
    OkOne(t, SetAcc(!isAnd), f, f, ext);
    OkBranch(t, Jump(end), f, ext);
    Before(t, [SetAcc(!isAnd)], [Def(end)], f, f, f, f, {n + 1}, ext);
    Cat(t, [Def(short)], [SetAcc(!isAnd)] + [Def(end)], f, f, f, f, {n}, {n + 1}, ext);
    assert {n} + {n + 1} == {n, n + 1};
    Before(t, [Jump(end)], [Def(short)] + ([SetAcc(!isAnd)] + [Def(end)]), f, f, f, f, {n, n + 1}, ext);
    Before(t, [SetAcc(isAnd)], [Jump(end)] + ([Def(short)] + ([SetAcc(!isAnd)] + [Def(end)])), f, f, f, f, {n, n + 1},
           ext);
    assert Depth(t, c, f, 1) == f && Depth(t, c, f, 3) == f;
  }

  lemma LogicalLevel(t: Target, isAnd: bool, p: I386.Prefix, a: seq<Op>, b: seq<Op>, f: int, n: nat, mid: nat,
                     next: nat)
    requires Ok(t, a, f, f, f, Range(n + 2, mid), {}) && Ok(t, b, f, f, f, Range(mid, next), {}) && n + 2 <= mid <= next
    ensures var test := [TestAcc, Branch(Numbered(p, n), isAnd)];
      var tail := LogicTail(isAnd, Numbered(p, n), Numbered(I386.LogicEnd, n + 1));
      Ok(t, a + (test + (b + (test + tail))), f, f, f, Range(n, next), {})
  {
    hide Ok, Depth;
    var short, end := Numbered(p, n), Numbered(I386.LogicEnd, n + 1);
    var ext, test, tail := {} + {short} + {end}, [TestAcc, Branch(short, isAnd)], LogicTail(isAnd, short, end);
    var own := {n, n + 1};
    LogicTailLevel(t, isAnd, p, n, f, ext);
    TestLevel(t, TestAcc, short, isAnd, f, ext);
    Weaken(t, a, f, f, f, Range(n + 2, mid), f, Range(n + 2, mid), ext);
    Weaken(t, b, f, f, f, Range(mid, next), f, Range(mid, next), ext);
    var front := a + (test + (b + test));
    Then(t, b, test, f, f, f, f, Range(mid, next), ext);
    Before(t, test, b + test, f, f, f, f, Range(mid, next), ext);
    CatRange(t, a, test + (b + test), f, f, f, f, n + 2, mid, next, ext);
    assert Range(n + 2, next) !! own;
    Cat(t, front, tail, f, f, f, f, Range(n + 2, next), own, ext);
    MoreIds(t, front + tail, f, f, f, Range(n + 2, next) + own, Range(n, next), ext);
    EndDepth(t, front, f, f, f, Range(n + 2, next), ext);
    DischargeIn(t, front, tail, f, Range(n, next), {} + {short}, end, 4);
    DischargeIn(t, front, tail, f, Range(n, next), {}, short, 2);
    assert front + tail == a + (test + (b + (test + tail)));
  }

  lemma ChunkIsLevel(t: Target, v: Value, c: nat, d: int, n: nat)
    ensures ValueLevel(t, EmitChunk(t, v, c, n), d, n)
    decreases v, 5
  {
    hide Ok, EmitValue, EmitLiteralChunk;
    if v.Literal? {
      LiteralLevel(t, v, c, d, n);
    } else if c == 0 {
      ValueIsLevel(t, v, d, n);
    } else {
      OkPlain(t, d, d, {});
      NoIds(t, [Plain], d, d, d, n, {});
    }
  }

  lemma LiteralLevel(t: Target, v: Value, c: nat, d: int, n: nat)
    requires v.Literal?
    ensures ValueLevel(t, EmitLiteralChunk(t, v, c, n), d, n)
    decreases v, 3
  {
    hide Ok, PushAcc, PopTo, EmitFields;
    var tag := if v.isEnum && c == 0 then PushAcc(t) + ([Plain] + (PopTo(t) + [Plain])) else [];
    var r := EmitFields(t, v.fields, c, n);
    FieldsLevel(t, v.fields, c, d, n);
    TagLevel(t, v.isEnum && c == 0, d);
    Before(t, tag, r.code, d, d, d, d, Range(n, r.next), {});
    OkPlain(t, d, d, {});
    Before(t, [Plain], tag + r.code, d, d, d, d, Range(n, r.next), {});
  }

  lemma TagLevel(t: Target, there: bool, d: int)
    ensures Ok(t, if there then PushAcc(t) + ([Plain] + (PopTo(t) + [Plain])) else [], d, d, d, {}, {})
  {
    hide Ok, PushAcc, PopTo, PushBytes;
    if there {
      var e := d + PushBytes(t);
      PushGrows(t, d);
      OkPush(t, d, d, {});
      OkPlain(t, d, e, {});
      OkPop(t, d, e, {});
      OkPlain(t, d, d, {});
      Then(t, PopTo(t), [Plain], d, e, d, d, {}, {});
      Then(t, [Plain], PopTo(t) + [Plain], d, e, e, d, {}, {});
      Then(t, PushAcc(t), [Plain] + (PopTo(t) + [Plain]), d, d, e, d, {}, {});
    } else {
      OkNone(t, d, d, {});
    }
  }

  lemma FieldsLevel(t: Target, fields: seq<Field>, c: nat, d: int, n: nat)
    ensures ValueLevel(t, EmitFields(t, fields, c, n), d, n)
    decreases fields, 2
  {
    hide Ok, EmitField;
    if fields == [] {
      OkNone(t, d, d, {});
      NoIds(t, [], d, d, d, n, {});
    } else {
      var r := EmitField(t, fields[0], c, n);
      var q := EmitFields(t, fields[1..], c, r.next);
      FieldLevel(t, fields[0], c, d, n);
      FieldsLevel(t, fields[1..], c, d, r.next);
      CatRange(t, r.code, q.code, d, d, d, d, n, r.next, q.next, {});
    }
  }

  lemma FieldLevel(t: Target, f: Field, c: nat, d: int, n: nat)
    ensures ValueLevel(t, EmitField(t, f, c, n), d, n)
    decreases f, 0
  {
    hide Ok, PushAcc, PopTo, EmitValue;
    if f.offset / Word(t) != c {
      OkNone(t, d, d, {});
      NoIds(t, [], d, d, d, n, {});
    } else {
      ValueIsLevel(t, f.value, d + PushBytes(t), n);
      var r := EmitValue(t, f.value, n);
      Guarded(t, r.code, d, Range(n, r.next));
    }
  }

  // ---- calls ----

  /** What `k` pushes take. */
  function Bytes(t: Target, k: nat): nat {
    PushBytes(t) * k
  }

  lemma MoreBytes(t: Target, a: nat, b: nat)
    ensures Bytes(t, a + b) == Bytes(t, a) + Bytes(t, b) && Bytes(t, 0) == 0 && Bytes(t, 1) == PushBytes(t)
  {
  }

  /** Chunks of one kind among the first `i` arguments. */
  function Count(t: Target, ns: seq<nat>, i: nat, wanted: bool): nat
    requires i <= |ns|
  {
    if wanted then RegistersBefore(t, ns, i) else StackBefore(t, ns, i)
  }

  lemma CallLevel(t: Target, v: Value, d: int, n: nat)
    requires v.Call?
    ensures ValueLevel(t, EmitCallOf(t, v, n), d, n)
    decreases v, 3
  {
    hide Ok, EmitPushed, PopsInto, RegistersBefore, StackBefore, Padding, CleanupBytes;
    var ns := ArgChunks(t, v.args);
    var front, next := CallFront(t, v, d, n);
    var call := CallTo(v.callee, PushBytes(t) * StackBefore(t, ns, |ns|));
    var clean := if CleanupBytes(t, ns) > 0 then [RaiseSp(CleanupBytes(t, ns))] else [];
    TailLevel(t, v.callee, ns, d);
    Then(t, front, [call] + clean, d, d, d + CleanupBytes(t, ns), d, Range(n, next), {});
  }

  /** What runs before the call instruction: there the stack is deeper by exactly what
      is cleaned up behind it. */
  lemma CallFront(t: Target, v: Value, d: int, n: nat) returns (front: seq<Op>, next: nat)
    requires v.Call?
    ensures var ns := ArgChunks(t, v.args);
      var call := CallTo(v.callee, PushBytes(t) * StackBefore(t, ns, |ns|));
      var clean := if CleanupBytes(t, ns) > 0 then [RaiseSp(CleanupBytes(t, ns))] else [];
      && EmitCallOf(t, v, n) == Emitted(front + ([call] + clean), next) && n <= next
      && Ok(t, front, d, d, d + CleanupBytes(t, ns), Range(n, next), {})
    decreases v, 2
  {
    hide Ok, EmitPushed, PopsInto, RegistersBefore, StackBefore, Padding, Bytes, CleanupBytes;
    var ns := ArgChunks(t, v.args);
    var regs, stack := RegistersBefore(t, ns, |ns|), StackBefore(t, ns, |ns|);
    var m := d + Padding(t, ns);
    var e := m + Bytes(t, stack);
    var a := EmitPushed(t, v.args, |v.args|, false, n);
    var b := EmitPushed(t, v.args, |v.args|, true, a.next);
    PushedLevel(t, v.args, |v.args|, false, d, m, n);
    PushedLevel(t, v.args, |v.args|, true, d, e, a.next);
    PopsLevel(t, regs, d, e);
    var pad := if Padding(t, ns) > 0 then [LowerSp(Padding(t, ns))] else [];
    CleanupIs(t, ns);
    PadLevel(t, ns, d);
    Then(t, b.code, PopsInto(t, regs), d, e, e + Bytes(t, regs), e, Range(a.next, b.next), {});
    CatRange(t, a.code, b.code + PopsInto(t, regs), d, m, e, e, n, a.next, b.next, {});
    Before(t, pad, a.code + (b.code + PopsInto(t, regs)), d, d, m, e, Range(n, b.next), {});
    front, next := pad + (a.code + (b.code + PopsInto(t, regs))), b.next;
    CallCodeParts(t, v, n, pad, a.code, b.code, PopsInto(t, regs));
  }

  lemma CallCodeParts(t: Target, v: Value, n: nat, pad: seq<Op>, a: seq<Op>, b: seq<Op>, pops: seq<Op>)
    requires v.Call?
    requires var ns := ArgChunks(t, v.args);
      var x := EmitPushed(t, v.args, |v.args|, false, n);
      && pad == (if Padding(t, ns) > 0 then [LowerSp(Padding(t, ns))] else []) && a == x.code
      && b == EmitPushed(t, v.args, |v.args|, true, x.next).code && pops == PopsInto(t, RegistersBefore(t, ns, |ns|))
    ensures var ns := ArgChunks(t, v.args);
      var call := CallTo(v.callee, PushBytes(t) * StackBefore(t, ns, |ns|));
      var clean := if CleanupBytes(t, ns) > 0 then [RaiseSp(CleanupBytes(t, ns))] else [];
      EmitCallOf(t, v, n).code == (pad + (a + (b + pops))) + ([call] + clean)
  {
    hide EmitPushed, PopsInto, RegistersBefore, StackBefore, Padding, CleanupBytes;
  }

  lemma CleanupIs(t: Target, ns: seq<nat>)
    ensures CleanupBytes(t, ns) == Padding(t, ns) + Bytes(t, StackBefore(t, ns, |ns|))
  {
  }

  lemma PadLevel(t: Target, ns: seq<nat>, d: int)
    ensures Ok(t, if Padding(t, ns) > 0 then [LowerSp(Padding(t, ns))] else [], d, d, d + Padding(t, ns), {}, {})
  {
    hide Ok, StackBefore;
    if Padding(t, ns) > 0 { OkOne(t, LowerSp(Padding(t, ns)), d, d, {}); } else { OkNone(t, d, d, {}); }
  }

  /** The callee's arguments are on the stack at the call, and are gone afterwards. */
  lemma TailLevel(t: Target, callee: string, ns: seq<nat>, d: int)
    ensures var k := CleanupBytes(t, ns);
      var call := CallTo(callee, PushBytes(t) * StackBefore(t, ns, |ns|));
      Ok(t, [call] + (if k > 0 then [RaiseSp(k)] else []), d, d + k, d, {}, {})
  {
    hide Ok, StackBefore, CleanupBytes, PushBytes;
    ArgumentsCovered(t, ns);
    CallAndCleanup(t, callee, PushBytes(t) * StackBefore(t, ns, |ns|), CleanupBytes(t, ns), d);
  }

  lemma ArgumentsCovered(t: Target, ns: seq<nat>)
    ensures PushBytes(t) * StackBefore(t, ns, |ns|) <= CleanupBytes(t, ns)
    ensures t.Arm64? ==> CleanupBytes(t, ns) % 16 == 0
  {
    hide StackBefore;
    Multiple16(StackBefore(t, ns, |ns|));
  }

  lemma CallAndCleanup(t: Target, callee: string, bytes: nat, k: nat, d: int)
    requires bytes <= k && (t.Arm64? ==> k % 16 == 0)
    ensures Ok(t, [CallTo(callee, bytes)] + (if k > 0 then [RaiseSp(k)] else []), d, d + k, d, {}, {})
  {
    hide Ok;
    var call := CallTo(callee, bytes);
    OkOne(t, call, d, d + k, {});
    if k > 0 {
      OkOne(t, RaiseSp(k), d, d + k, {});
      Then(t, [call], [RaiseSp(k)], d, d + k, d + k, d, {}, {});
    } else {
      OkNone(t, d, d, {});
      Then(t, [call], [], d, d, d, d, {}, {});
    }
  }

  lemma PopsLevel(t: Target, k: nat, f: int, e: int)
    requires f <= e
    ensures Ok(t, PopsInto(t, k), f, e + Bytes(t, k), e, {}, {})
  {
    hide Ok, PopTo, Bytes, PushBytes;
    MoreBytes(t, if k > 0 then k - 1 else 0, 1);
    if k == 0 {
      OkNone(t, f, e, {});
    } else {
      var d, m := e + Bytes(t, k), e + Bytes(t, k - 1);
      PopsLevel(t, k - 1, f, e);
      OkPop(t, f, d, {});
      Then(t, PopTo(t), PopsInto(t, k - 1), f, d, m, e, {}, {});
    }
  }

  lemma PushedLevel(t: Target, args: seq<Value>, i: nat, wanted: bool, f: int, d: int, n: nat)
    requires i <= |args| && f <= d
    ensures var r := EmitPushed(t, args, i, wanted, n);
      && n <= r.next
      && Ok(t, r.code, f, d, d + Bytes(t, Count(t, ArgChunks(t, args), i, wanted)), Range(n, r.next), {})
    decreases args, 2, i
  {
    hide Ok, Bytes, EmitChunksDown, Chunks, Count, InRegisters;
    var ns := ArgChunks(t, args);
    if i == 0 {
      NothingCounted(t, ns, wanted);
      MoreBytes(t, 0, 0);
      OkNone(t, f, d, {});
      NoIds(t, [], f, d, d, n, {});
    } else {
      CountMore(t, ns, i - 1, wanted);
      if InRegisters(t, ns, i - 1) != wanted {
        PushedLevel(t, args, i - 1, wanted, f, d, n);
      } else {
        var k, before := Chunks(t, args[i - 1].size), Count(t, ns, i - 1, wanted);
        var m := d + Bytes(t, k);
        var r := EmitChunksDown(t, args[i - 1], k, n);
        var q := EmitPushed(t, args, i - 1, wanted, r.next);
        ChunksDownLevel(t, args[i - 1], k, d, n);
        PushedLevel(t, args, i - 1, wanted, f, m, r.next);
        MoreBytes(t, k, before);
        PushedMore(t, r.code, q.code, f, d, m, m + Bytes(t, before), n, r.next, q.next);
      }
    }
  }

  lemma NothingCounted(t: Target, ns: seq<nat>, wanted: bool)
    ensures Count(t, ns, 0, wanted) == 0
  {
  }

  lemma CountMore(t: Target, ns: seq<nat>, i: nat, wanted: bool)
    requires i < |ns|
    ensures Count(t, ns, i + 1, wanted)
         == Count(t, ns, i, wanted) + (if InRegisters(t, ns, i) == wanted then ns[i] else 0)
  {
  }

  lemma PushedMore(t: Target, a: seq<Op>, b: seq<Op>, f: int, d: int, m: int, e: int, lo: nat, mid: nat, hi: nat)
    requires Ok(t, a, d, d, m, Range(lo, mid), {}) && Ok(t, b, f, m, e, Range(mid, hi), {}) && lo <= mid <= hi && f <= d
    ensures Ok(t, a + b, f, d, e, Range(lo, hi), {})
  {
    hide Ok;
    Weaken(t, a, d, d, m, Range(lo, mid), f, Range(lo, mid), {});
    CatRange(t, a, b, f, d, m, e, lo, mid, hi, {});
  }

  lemma ChunksDownLevel(t: Target, v: Value, k: nat, d: int, n: nat)
    ensures var r := EmitChunksDown(t, v, k, n);
      n <= r.next && Ok(t, r.code, d, d, d + Bytes(t, k), Range(n, r.next), {})
    decreases v, 6, k
  {
    hide Ok, PushAcc, Bytes, PushBytes, EmitChunk;
    MoreBytes(t, if k > 0 then k - 1 else 0, 1);
    if k == 0 {
      OkNone(t, d, d, {});
      NoIds(t, [], d, d, d, n, {});
    } else {
      var m := d + Bytes(t, 1);
      var r := EmitChunk(t, v, k - 1, n);
      var q := EmitChunksDown(t, v, k - 1, r.next);
      ChunkIsLevel(t, v, k - 1, d, n);
      OkPush(t, d, d, {});
      Then(t, r.code, PushAcc(t), d, d, d, m, Range(n, r.next), {});
      ChunksDownLevel(t, v, k - 1, m, r.next);
      Weaken(t, q.code, m, m, m + Bytes(t, k - 1), Range(r.next, q.next), d, Range(r.next, q.next), {});
      CatRange(t, r.code + PushAcc(t), q.code, d, d, m, m + Bytes(t, k - 1), n, r.next, q.next, {});
    }
  }
}
