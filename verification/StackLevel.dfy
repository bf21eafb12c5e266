/** The code of every value and statement keeps the stack level on every path, for
    all three targets; its labels are distinct and its branches have targets. */
module StackLevel {
  import opened Frames
  import opened Calls
  import opened StackCode
  import I386

  /** By how many bytes an instruction deepens the stack. */
  function Effect(t: Target, op: Op): int {
    match op
    case PushWord => Word(t)
    case PopWord => 0 - Word(t)
    case LowerSp(n) => n
    case RaiseSp(n) => 0 - n
    case _ => 0
  }

  /** The depth of the stack in front of instruction `i`, from depth `d` at the
      start. */
  function Depth(t: Target, c: seq<Op>, d: int, i: nat): int
    requires i <= |c|
  {
    if i == 0 then d else Depth(t, c, d, i - 1) + Effect(t, c[i - 1])
  }

  predicate IsBranch(op: Op) {
    op.Jump? || op.Branch?
  }

  /** What holds of single instructions: a call leaves its arguments above the floor,
      arm64 moves the stack pointer by multiples of 16, and frames are not touched. */
  predicate Fine(t: Target, op: Op, depth: int, floor: int) {
    && (op.CallTo? ==> depth >= floor + op.bytes)
    && (t.Arm64? ==> Effect(t, op) % 16 == 0)
    && !op.SaveFrame? && !op.Leave?
  }

  /** A branch goes to a label of the code at its own depth, or leaves at the floor
      for a label in `ext`. */
  ghost predicate Targeted(t: Target, c: seq<Op>, f: int, d: int, i: nat, ext: set<Label>)
    requires i < |c| && IsBranch(c[i])
  {
    || (c[i].at in ext && Depth(t, c, d, i) == f)
    || (exists j :: 0 <= j < |c| && c[j] == Def(c[i].at) && Depth(t, c, d, j) == Depth(t, c, d, i))
  }

  /** Labels are numbered in `ids`, and defined once. */
  predicate OwnLabels(c: seq<Op>, ids: set<nat>) {
    && (forall i :: 0 <= i < |c| && c[i].Def? ==> c[i].at.Numbered? && c[i].at.id in ids)
    && (forall i, j :: 0 <= i < j < |c| && c[i].Def? ==> c[i] != c[j])
  }

  /** From depth `d` to depth `e`, never above the floor. */
  predicate Levels(t: Target, c: seq<Op>, f: int, d: int, e: int) {
    && Depth(t, c, d, |c|) == e && e >= f
    && (forall i :: 0 <= i < |c| ==> Depth(t, c, d, i) >= f && Fine(t, c[i], Depth(t, c, d, i), f))
  }

  ghost predicate AllTargeted(t: Target, c: seq<Op>, f: int, d: int, ext: set<Label>) {
    forall i :: 0 <= i < |c| && IsBranch(c[i]) ==> Targeted(t, c, f, d, i, ext)
  }

  /** Code that goes from depth `d` to depth `e`, never above the floor `f`, with
      labels in `ids` and branches out to `ext`. */
  ghost predicate Ok(t: Target, c: seq<Op>, f: int, d: int, e: int, ids: set<nat>, ext: set<Label>) {
    Levels(t, c, f, d, e) && OwnLabels(c, ids) && AllTargeted(t, c, f, d, ext)
  }

  lemma {:induction false} DepthFirst(t: Target, a: seq<Op>, b: seq<Op>, d: int, i: nat)
    requires i <= |a|
    ensures Depth(t, a + b, d, i) == Depth(t, a, d, i)
  {
    if i > 0 { DepthFirst(t, a, b, d, i - 1); }
  }

  lemma {:induction false} DepthSecond(t: Target, a: seq<Op>, b: seq<Op>, d: int, i: nat)
    requires i <= |b|
    ensures Depth(t, a + b, d, |a| + i) == Depth(t, b, Depth(t, a, d, |a|), i)
  {
    if i == 0 { DepthFirst(t, a, b, d, |a|); } else { DepthSecond(t, a, b, d, i - 1); }
  }

  lemma Cat(t: Target, a: seq<Op>, b: seq<Op>, f: int, d: int, m: int, e: int, ids1: set<nat>, ids2: set<nat>,
            ext: set<Label>)
    requires Ok(t, a, f, d, m, ids1, ext) && Ok(t, b, f, m, e, ids2, ext) && ids1 !! ids2
    ensures Ok(t, a + b, f, d, e, ids1 + ids2, ext)
  {
    CatTargets(t, a, b, f, d, m, ext);
    CatLabels(a, b, ids1, ids2);
    CatLevels(t, a, b, f, d, m, e);
    hide Levels, OwnLabels, AllTargeted;
  }

  lemma CatLevels(t: Target, a: seq<Op>, b: seq<Op>, f: int, d: int, m: int, e: int)
    requires Levels(t, a, f, d, m) && Levels(t, b, f, m, e)
    ensures Levels(t, a + b, f, d, e)
  {
    hide Fine, Depth;
    var c := a + b;
    CatDepths(t, a, b, d, m);
    forall i | 0 <= i < |c| ensures Depth(t, c, d, i) >= f && Fine(t, c[i], Depth(t, c, d, i), f) {
      if i >= |a| { assert c[i] == b[i - |a|] && Depth(t, c, d, i) == Depth(t, b, m, i - |a|); }
    }
  }

  lemma CatLabels(a: seq<Op>, b: seq<Op>, ids1: set<nat>, ids2: set<nat>)
    requires OwnLabels(a, ids1) && OwnLabels(b, ids2) && ids1 !! ids2
    ensures OwnLabels(a + b, ids1 + ids2)
  {
  }

  lemma CatDepths(t: Target, a: seq<Op>, b: seq<Op>, d: int, m: int)
    requires Depth(t, a, d, |a|) == m
    ensures forall i :: 0 <= i <= |a| ==> Depth(t, a + b, d, i) == Depth(t, a, d, i)
    ensures forall i :: |a| <= i <= |a| + |b| ==> Depth(t, a + b, d, i) == Depth(t, b, m, i - |a|)
  {
    forall i | 0 <= i <= |a| ensures Depth(t, a + b, d, i) == Depth(t, a, d, i) { DepthFirst(t, a, b, d, i); }
    forall i | |a| <= i <= |a| + |b| ensures Depth(t, a + b, d, i) == Depth(t, b, m, i - |a|) {
      DepthSecond(t, a, b, d, i - |a|);
    }
  }

  lemma CatTargets(t: Target, a: seq<Op>, b: seq<Op>, f: int, d: int, m: int, ext: set<Label>)
    requires Levels(t, a, f, d, m) && AllTargeted(t, a, f, d, ext) && AllTargeted(t, b, f, m, ext)
    ensures AllTargeted(t, a + b, f, d, ext)
  {
    hide Depth;
    var c := a + b;
    CatDepths(t, a, b, d, m);
    forall i | 0 <= i < |c| && IsBranch(c[i]) ensures Targeted(t, c, f, d, i, ext) {
      if i < |a| {
        assert Targeted(t, a, f, d, i, ext);
        if j :| 0 <= j < |a| && a[j] == Def(a[i].at) && Depth(t, a, d, j) == Depth(t, a, d, i) { assert c[j] == a[j]; }
      } else {
        assert Targeted(t, b, f, m, i - |a|, ext);
        if j :| 0 <= j < |b| && b[j] == Def(b[i - |a|].at) && Depth(t, b, m, j) == Depth(t, b, m, i - |a|) {
          assert c[|a| + j] == b[j];
        }
      }
    }
  }

  /** A lower floor, more numbers, more ways out. */
  lemma Weaken(t: Target, c: seq<Op>, f: int, d: int, e: int, ids: set<nat>, f': int, ids': set<nat>, ext': set<Label>)
    requires Ok(t, c, f, d, e, ids, {}) && f' <= f && ids <= ids'
    ensures Ok(t, c, f', d, e, ids', ext')
  {
    hide Effect, Depth;
  }

  lemma MoreIds(t: Target, c: seq<Op>, f: int, d: int, e: int, ids: set<nat>, ids': set<nat>, ext: set<Label>)
    requires Ok(t, c, f, d, e, ids, ext) && ids <= ids'
    ensures Ok(t, c, f, d, e, ids', ext)
  {
    hide Fine, Effect, Depth, Targeted;
  }

  /** A label that the code defines at the floor is no way out. */
  lemma Discharge(t: Target, c: seq<Op>, f: int, d: int, e: int, ids: set<nat>, ext: set<Label>, l: Label, j: nat)
    requires Ok(t, c, f, d, e, ids, ext + {l}) && j < |c| && c[j] == Def(l) && Depth(t, c, d, j) == f
    ensures Ok(t, c, f, d, e, ids, ext)
  {
    hide Fine, Effect, Depth;
  }

  function Range(lo: nat, hi: nat): (r: set<nat>)
    ensures forall i :: i in r <==> lo <= i < hi
    decreases hi
  {
    if lo >= hi then {} else Range(lo, hi - 1) + {hi - 1}
  }

  // ---- single instructions ----

  lemma OkPlain(t: Target, f: int, d: int, ext: set<Label>)
    requires f <= d
    ensures Ok(t, [Plain], f, d, d, {}, ext)
  {
    OkOne(t, Plain, f, d, ext);
  }

  lemma OkOne(t: Target, op: Op, f: int, d: int, ext: set<Label>)
    requires !IsBranch(op) && !op.Def? && f <= d && f <= d + Effect(t, op) && Fine(t, op, d, f)
    ensures Ok(t, [op], f, d, d + Effect(t, op), {}, ext)
  {
    assert Depth(t, [op], d, 0) == d && Depth(t, [op], d, 1) == d + Effect(t, op);
  }

  lemma OkNone(t: Target, f: int, d: int, ext: set<Label>)
    requires f <= d
    ensures Ok(t, [], f, d, d, {}, ext)
  {
  }

  lemma OkBranch(t: Target, op: Op, f: int, ext: set<Label>)
    requires IsBranch(op) && op.at in ext
    ensures Ok(t, [op], f, f, f, {}, ext)
  {
    assert Depth(t, [op], f, 0) == f && Depth(t, [op], f, 1) == f;
  }

  lemma OkDef(t: Target, p: I386.Prefix, id: nat, f: int, d: int, ext: set<Label>)
    requires f <= d
    ensures Ok(t, [Def(Numbered(p, id))], f, d, d, {id}, ext)
  {
    var c := [Def(Numbered(p, id))];
    assert Depth(t, c, d, 0) == d && Depth(t, c, d, 1) == d;
  }

  /** Code without labels behind code with them, or in front of it. */
  lemma Then(t: Target, a: seq<Op>, b: seq<Op>, f: int, d: int, m: int, e: int, ids: set<nat>, ext: set<Label>)
    requires Ok(t, a, f, d, m, ids, ext) && Ok(t, b, f, m, e, {}, ext)
    ensures Ok(t, a + b, f, d, e, ids, ext)
  {
    Cat(t, a, b, f, d, m, e, ids, {}, ext);
    assert ids + {} == ids;
  }

  lemma Before(t: Target, a: seq<Op>, b: seq<Op>, f: int, d: int, m: int, e: int, ids: set<nat>, ext: set<Label>)
    requires Ok(t, a, f, d, m, {}, ext) && Ok(t, b, f, m, e, ids, ext)
    ensures Ok(t, a + b, f, d, e, ids, ext)
  {
    Cat(t, a, b, f, d, m, e, {}, ids, ext);
    assert {} + ids == ids;
  }

  lemma OkPush(t: Target, f: int, d: int, ext: set<Label>)
    requires f <= d
    ensures Ok(t, PushAcc(t), f, d, d + PushBytes(t), {}, ext)
  {
    if t.Arm64? {
      OkOne(t, LowerSp(16), f, d, ext);
      OkPlain(t, f, d + 16, ext);
      Then(t, [LowerSp(16)], [Plain], f, d, d + 16, d + 16, {}, ext);
      assert PushAcc(t) == [LowerSp(16)] + [Plain];
    } else {
      OkOne(t, PushWord, f, d, ext);
    }
  }

  lemma OkPop(t: Target, f: int, d: int, ext: set<Label>)
    requires f <= d - PushBytes(t)
    ensures Ok(t, PopTo(t), f, d, d - PushBytes(t), {}, ext)
  {
    if t.Arm64? {
      OkPlain(t, f, d, ext);
      OkOne(t, RaiseSp(16), f, d, ext);
      Then(t, [Plain], [RaiseSp(16)], f, d, d, d - 16, {}, ext);
      assert PopTo(t) == [Plain] + [RaiseSp(16)];
    } else {
      OkOne(t, PopWord, f, d, ext);
    }
  }

  /** Code between a push and a pop, with plain instructions around the pop. */
  lemma Guarded(t: Target, a: seq<Op>, f: int, ids: set<nat>)
    requires Ok(t, a, f + PushBytes(t), f + PushBytes(t), f + PushBytes(t), ids, {})
    ensures Ok(t, PushAcc(t) + (a + ([Plain] + (PopTo(t) + [Plain]))), f, f, f, ids, {})
  {
    hide PushAcc, PopTo, PushBytes, Ok;
    var d := f + PushBytes(t);
    assert f <= d by { PushGrows(t, f); }
    OkPush(t, f, f, {});
    Weaken(t, a, d, d, d, ids, f, ids, {});
    OkPlain(t, f, d, {});
    OkPop(t, f, d, {});
    OkPlain(t, f, f, {});
    Then(t, PopTo(t), [Plain], f, d, f, f, {}, {});
    Then(t, [Plain], PopTo(t) + [Plain], f, d, d, f, {}, {});
    Then(t, a, [Plain] + (PopTo(t) + [Plain]), f, d, d, f, ids, {});
    Before(t, PushAcc(t), a + ([Plain] + (PopTo(t) + [Plain])), f, f, d, f, ids, {});
  }

  lemma PushGrows(t: Target, f: int)
    ensures f <= f + PushBytes(t)
  {
  }
}
