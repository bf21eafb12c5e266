/** Whole functions and modules: every label of a module is defined once unless two
    functions have one symbol, every branch stays in its function and meets the depth it
    left, and the stack is at the level of the frame at the epilogue. */
module StackModule {
  import opened Frames
  import opened Calls
  import opened StackCode
  import opened StackLevel
  import opened StackStatements
  import opened LabelTree
  import I386

  type Function = StackCode.Function

  /** What the code of a function owes its caller. `room` is what the prologue
      reserves, and the depth of the epilogue. */
  ghost predicate Sound(t: Target, c: seq<Op>, room: nat) {
    && |c| >= 4 && c[0].Def? && c[1].SaveFrame? && c[|c| - 1].Leave?
    && (forall i {:trigger c[i]} :: 2 <= i < |c| - 1 ==> !c[i].SaveFrame? && !c[i].Leave?)
    && (forall i {:trigger Depth(t, c, 0, i)} :: 0 <= i < |c| ==> DepthOk(t, c, room, i))
    && (forall i {:trigger c[i]} :: 0 <= i < |c| && IsBranch(c[i]) ==> Lands(t, c, i))
    && (forall i, j {:trigger c[i], c[j]} :: 0 <= i < j < |c| && c[i].Def? ==> c[i] != c[j])
    && Depth(t, c, 0, |c| - 1) == room
  }

  predicate DepthOk(t: Target, c: seq<Op>, room: nat, i: nat)
    requires i < |c|
  {
    && Depth(t, c, 0, i) >= 0
    && (c[i].CallTo? ==> Depth(t, c, 0, i) >= room + c[i].bytes)
    && (t.Arm64? ==> Effect(t, c[i]) % 16 == 0)
    && (i <= 2 ==> Depth(t, c, 0, i) == 0)
  }

  ghost predicate Lands(t: Target, c: seq<Op>, i: nat)
    requires i < |c| && IsBranch(c[i])
  {
    exists j :: 2 <= j < |c| && c[j] == Def(c[i].at) && Depth(t, c, 0, j) == Depth(t, c, 0, i)
  }

  /** Labels of a function: numbered ones, its entry and its return label. */
  predicate LabelsOf(c: seq<Op>, f: string, ids: set<nat>) {
    && (forall i {:trigger c[i]} :: 0 <= i < |c| && c[i].Def? ==> Owned(c[i].at, f, ids))
    && (forall i, j {:trigger c[i], c[j]} :: 0 <= i < j < |c| && c[i].Def? ==> c[i] != c[j])
  }

  predicate Owned(l: Label, f: string, ids: set<nat>) {
    if l.Numbered? then l.id in ids else l.f == f
  }

  function Room(t: Target, f: Function): nat {
    AlignedBytes(t, f.locals)
  }

  lemma PrologueDepths(t: Target, f: Function)
    ensures var c := Prologue(t, f);
      && 3 <= |c| <= 4 && Depth(t, c, 0, |c|) == Room(t, f)
      && (forall i :: 0 <= i <= 2 ==> Depth(t, c, 0, i) == 0)
      && (forall i :: 0 <= i <= |c| ==> 0 <= Depth(t, c, 0, i))
      && (forall i :: 2 <= i < |c| ==> c[i].LowerSp? || c[i].Plain?)
      && c[0] == Def(I386.FunctionOf(f.name)) && c[1] == SaveFrame
      && (t.Arm64? ==> forall i :: 0 <= i < |c| ==> Effect(t, c[i]) % 16 == 0)
  {
    var c, room := Prologue(t, f), Room(t, f);
    RoundUp(8 * f.locals);
    assert Depth(t, c, 0, 0) == 0 && Depth(t, c, 0, 1) == 0 && Depth(t, c, 0, 2) == 0;
    assert Depth(t, c, 0, 3) == room;
    if room > 0 { assert Depth(t, c, 0, 4) == room; }
  }

  /** The code of a function is its prologue, its body and the epilogue. */
  lemma FunctionParts(t: Target, f: Function, n: nat) returns (p: seq<Op>, b: seq<Op>)
    requires AllLoopsOk(f.body, false)
    ensures p == Prologue(t, f)
    ensures var r := EmitFunction(t, f, n);
      var ret := I386.ReturnOf(f.name);
      && n <= r.next && r.code == p + (b + [Def(ret), Leave])
      && Flat(t, b, Room(t, f), Range(n, r.next), {ret})
  {
    hide Flat, Range, EmitBody, Prologue, AllLoopsOk;
    var ret := I386.ReturnOf(f.name);
    p, b := Prologue(t, f), EmitBody(t, f.body, n, NoLoop, ret).code;
    BodyIsFlat(t, f.body, Room(t, f), n, NoLoop, ret, {ret});
  }

  lemma EpilogueDepths(t: Target, b: seq<Op>, ret: Label, room: nat)
    requires Depth(t, b, room, |b|) == room
    ensures var q := b + [Def(ret), Leave];
      && (forall i :: 0 <= i <= |b| ==> Depth(t, q, room, i) == Depth(t, b, room, i))
      && Depth(t, q, room, |b| + 1) == room
  {
    CatDepths(t, b, [Def(ret), Leave], room, room);
    assert Depth(t, [Def(ret), Leave], room, 1) == room by {
      assert Depth(t, [Def(ret), Leave], room, 0) == room;
    }
  }

  /** Every function is sound, and so are its labels. */
  lemma FunctionIsSound(t: Target, f: Function, n: nat)
    requires AllLoopsOk(f.body, false)
    ensures var r := EmitFunction(t, f, n);
      n <= r.next && Sound(t, r.code, Room(t, f)) && LabelsOf(r.code, f.name, Range(n, r.next))
  {
    hide Flat, EmitFunction, Prologue, Sound, LabelsOf, Range, AllLoopsOk;
    var p, b := FunctionParts(t, f, n);
    var ids := Range(n, EmitFunction(t, f, n).next);
    PrologueDepths(t, f);
    FunctionLabels(t, f, p, b, ids);
    FunctionSound(t, f, p, b, ids);
  }

  lemma FunctionLabels(t: Target, f: Function, p: seq<Op>, b: seq<Op>, ids: set<nat>)
    requires Flat(t, b, Room(t, f), ids, {I386.ReturnOf(f.name)})
    requires 2 <= |p| && p[0] == Def(I386.FunctionOf(f.name)) && p[1] == SaveFrame
    requires forall i :: 2 <= i < |p| ==> p[i].LowerSp? || p[i].Plain?
    ensures LabelsOf(p + (b + [Def(I386.ReturnOf(f.name)), Leave]), f.name, ids)
  {
    hide Levels, AllTargeted, Room;
    var q := b + [Def(I386.ReturnOf(f.name)), Leave];
    var c := p + q;
    assert c[0] == p[0] && c[1] == p[1];
    forall i | 0 < i < |p| ensures !c[i].Def? { assert c[i] == p[i]; }
    forall i | |p| <= i < |p| + |b| ensures c[i] == b[i - |p|] {}
    assert c[|p| + |b|] == Def(I386.ReturnOf(f.name)) && c[|p| + |b| + 1] == Leave;
  }

  lemma FunctionSound(t: Target, f: Function, p: seq<Op>, b: seq<Op>, ids: set<nat>)
    requires Flat(t, b, Room(t, f), ids, {I386.ReturnOf(f.name)}) && p == Prologue(t, f)
    requires LabelsOf(p + (b + [Def(I386.ReturnOf(f.name)), Leave]), f.name, ids)
    ensures Sound(t, p + (b + [Def(I386.ReturnOf(f.name)), Leave]), Room(t, f))
  {
    var room, ret := Room(t, f), I386.ReturnOf(f.name);
    var q := b + [Def(ret), Leave];
    var c := p + q;
    PrologueDepths(t, f);
    hide Depth, Effect, Prologue, Room, LabelsOf;
    assert Depth(t, b, room, |b|) == room;
    EpilogueDepths(t, b, ret, room);
    CatDepths(t, p, q, 0, room);
    assert Depth(t, c, 0, |c| - 1) == room;
    forall i | 0 <= i < |c| ensures DepthOk(t, c, room, i) { DepthIsOk(t, p, b, ret, room, i); }
    forall i | 0 <= i < |c| && IsBranch(c[i]) ensures Lands(t, c, i) { BranchLands(t, p, b, ret, room, i); }
    forall i | 2 <= i < |c| - 1 ensures !c[i].SaveFrame? && !c[i].Leave? {
      if i < |p| { assert c[i] == p[i]; } else if i < |p| + |b| {
        assert c[i] == b[i - |p|] && Fine(t, b[i - |p|], Depth(t, b, room, i - |p|), room);
      }
    }
    UniqueFrom(c, f.name, ids);
  }

  lemma UniqueFrom(c: seq<Op>, f: string, ids: set<nat>)
    requires LabelsOf(c, f, ids)
    ensures forall i, j {:trigger c[i], c[j]} :: 0 <= i < j < |c| && c[i].Def? ==> c[i] != c[j]
  {
  }

  /** Prologue, body and epilogue, with their depths in the whole. */
  ghost predicate Laid(t: Target, p: seq<Op>, b: seq<Op>, ret: Label, room: nat) {
    var q := b + [Def(ret), Leave];
    var c := p + q;
    && 3 <= |p| && (forall i :: 0 <= i <= |p| ==> Depth(t, c, 0, i) == Depth(t, p, 0, i))
    && (forall i :: |p| <= i <= |c| ==> Depth(t, c, 0, i) == Depth(t, q, room, i - |p|))
    && (forall i :: 0 <= i <= |b| ==> Depth(t, q, room, i) == Depth(t, b, room, i))
    && Depth(t, q, room, |b| + 1) == room
    && (forall i :: 0 <= i <= 2 ==> Depth(t, p, 0, i) == 0) && (forall i :: 0 <= i <= |p| ==> 0 <= Depth(t, p, 0, i))
    && (forall i :: 2 <= i < |p| ==> p[i].LowerSp? || p[i].Plain?) && p[0].Def? && p[1].SaveFrame?
    && (t.Arm64? ==> forall i :: 0 <= i < |p| ==> Effect(t, p[i]) % 16 == 0)
  }

  lemma DepthIsOk(t: Target, p: seq<Op>, b: seq<Op>, ret: Label, room: nat, i: nat)
    requires Levels(t, b, room, room, room) && Laid(t, p, b, ret, room)
    requires i < |p| + |b| + 2
    ensures DepthOk(t, p + (b + [Def(ret), Leave]), room, i)
  {
    hide Depth;
    var q := b + [Def(ret), Leave];
    var c := p + q;
    if i < |p| {
      assert c[i] == p[i];
    } else if i < |p| + |b| {
      assert c[i] == b[i - |p|] && Fine(t, b[i - |p|], Depth(t, b, room, i - |p|), room);
    } else {
      assert c[i] == q[i - |p|];
    }
  }

  lemma BranchLands(t: Target, p: seq<Op>, b: seq<Op>, ret: Label, room: nat, i: nat)
    requires Levels(t, b, room, room, room) && AllTargeted(t, b, room, room, {ret}) && Laid(t, p, b, ret, room)
    requires var c := p + (b + [Def(ret), Leave]); i < |c| && IsBranch(c[i])
    ensures Lands(t, p + (b + [Def(ret), Leave]), i)
  {
    hide Depth, Effect, Fine;
    var q := b + [Def(ret), Leave];
    var c := p + q;
    assert Depth(t, q, room, |b|) == room;
    assert forall k :: 0 <= k < |p| ==> c[k] == p[k];
    assert i >= |p|;
    assert c[i] == q[i - |p|];
    assert Targeted(t, b, room, room, i - |p|, {ret});
    if b[i - |p|].at == ret && Depth(t, b, room, i - |p|) == room {
      assert c[|p| + |b|] == Def(ret);
    } else {
      var j :| 0 <= j < |b| && b[j] == Def(b[i - |p|].at) && Depth(t, b, room, j) == Depth(t, b, room, i - |p|);
      assert c[|p| + j] == b[j];
    }
  }

  // ---- modules ----

  predicate AllFunctionsOk(fs: seq<Function>) {
    forall i :: 0 <= i < |fs| ==> AllLoopsOk(fs[i].body, false)
  }

  predicate DistinctNames(fs: seq<Function>) {
    forall i, j :: 0 <= i < j < |fs| ==> fs[i].name != fs[j].name
  }

  ghost predicate Named(l: Label, fs: seq<Function>, ids: set<nat>) {
    if l.Numbered? then l.id in ids else exists i :: 0 <= i < |fs| && l.f == fs[i].name
  }

  /** A branch of the module has its only target. */
  ghost predicate Resolved(c: seq<Op>, i: nat)
    requires i < |c| && IsBranch(c[i])
  {
    exists j :: 0 <= j < |c| && c[j] == Def(c[i].at)
  }

  /** Labels are named after the functions or numbered, and branches have targets. */
  ghost predicate WellLabelled(c: seq<Op>, fs: seq<Function>, ids: set<nat>) {
    && (forall i {:trigger c[i]} :: 0 <= i < |c| && c[i].Def? ==> Named(c[i].at, fs, ids))
    && (forall i {:trigger c[i]} :: 0 <= i < |c| && IsBranch(c[i]) ==> Resolved(c, i))
  }

  predicate DefinedOnce(c: seq<Op>) {
    forall i, j {:trigger c[i], c[j]} :: 0 <= i < j < |c| && c[i].Def? ==> c[i] != c[j]
  }

  /** On every target, every branch of a module goes to one of its labels, and every label
      is defined once if and only if no two functions have one symbol. */
  lemma {:induction false} ModuleLabels(t: Target, fs: seq<Function>, n: nat)
    requires AllFunctionsOk(fs)
    ensures var r := EmitFunctions(t, fs, n);
      && n <= r.next && WellLabelled(r.code, fs, Range(n, r.next))
      && (DefinedOnce(r.code) <==> DistinctNames(fs))
    decreases |fs|
  {
    hide EmitFunction, AllLoopsOk, Range, WellLabelled, DefinedOnce, LabelsOf, Sound, DistinctNames;
    if fs == [] {
      NothingLabelled(Range(n, n));
    } else {
      var a := EmitFunction(t, fs[0], n);
      var b := EmitFunctions(t, fs[1..], a.next);
      assert AllLoopsOk(fs[0].body, false);
      FunctionIsSound(t, fs[0], n);
      ModuleLabels(t, fs[1..], a.next);
      LabelsTogether(t, a.code, b.code, fs, n, a.next, b.next);
      if DistinctNames(fs) {
        NamesApart(fs);
        OnceTogether(t, a.code, b.code, fs, n, a.next, b.next);
      } else {
        NameAgain(t, fs, n);
      }
    }
  }

  lemma NothingLabelled(ids: set<nat>)
    ensures WellLabelled([], [], ids) && DefinedOnce([]) && DistinctNames([])
  {
  }

  lemma NamesApart(fs: seq<Function>)
    requires fs != []
    ensures DistinctNames(fs) <==> DistinctNames(fs[1..]) && forall i :: 0 < i < |fs| ==> fs[i].name != fs[0].name
  {
    assert forall i :: 0 < i < |fs| ==> fs[i] == fs[1..][i - 1];
    if DistinctNames(fs[1..]) && forall i :: 0 < i < |fs| ==> fs[i].name != fs[0].name {
      forall i, j | 0 <= i < j < |fs| ensures fs[i].name != fs[j].name {
        if i > 0 { assert fs[1..][i - 1].name != fs[1..][j - 1].name; }
      }
    }
  }

  /** Two functions with one symbol have two entries with one label. */
  lemma NameAgain(t: Target, fs: seq<Function>, n: nat)
    requires fs != [] && !DistinctNames(fs)
    requires DefinedOnce(EmitFunctions(t, fs[1..], EmitFunction(t, fs[0], n).next).code) <==> DistinctNames(fs[1..])
    ensures !DefinedOnce(EmitFunctions(t, fs, n).code)
  {
    hide EmitFunction, DistinctNames, DefinedOnce, Ends;
    var a := EmitFunction(t, fs[0], n);
    var b := EmitFunctions(t, fs[1..], a.next);
    NamesApart(fs);
    if DistinctNames(fs[1..]) {
      var i :| 0 < i < |fs| && fs[i].name == fs[0].name;
      EntryIsFirst(t, fs[0], n);
      ModuleDraws(t, fs[1..], a.next);
      EntryIsEnd(fs[1..], i - 1);
      TwiceAcross(a.code, b.code);
    } else {
      TwiceBehind(a.code, b.code);
    }
  }

  lemma EntryIsFirst(t: Target, f: Function, n: nat)
    ensures var c := EmitFunction(t, f, n).code; c != [] && c[0] == Def(I386.FunctionOf(f.name))
  {
  }

  lemma EntryIsEnd(fs: seq<Function>, i: nat)
    requires i < |fs|
    ensures I386.FunctionOf(fs[i].name) in Ends(fs)
  {
  }

  lemma TwiceAcross(a: seq<Op>, b: seq<Op>)
    requires a != [] && a[0].Def? && a[0].at in LabelsIn(b)
    ensures !DefinedOnce(a + b)
  {
    var j :| 0 <= j < |b| && b[j] == a[0];
    assert (a + b)[0] == (a + b)[|a| + j];
  }

  lemma TwiceBehind(a: seq<Op>, b: seq<Op>)
    requires !DefinedOnce(b)
    ensures !DefinedOnce(a + b)
  {
    var i, j :| 0 <= i < j < |b| && b[i].Def? && b[i] == b[j];
    assert (a + b)[|a| + i] == (a + b)[|a| + j];
  }

  lemma LabelsTogether(t: Target, a: seq<Op>, b: seq<Op>, fs: seq<Function>, n: nat, m: nat, next: nat)
    requires fs != [] && n <= m <= next
    requires LabelsOf(a, fs[0].name, Range(n, m)) && Sound(t, a, Room(t, fs[0]))
    requires WellLabelled(b, fs[1..], Range(m, next))
    ensures WellLabelled(a + b, fs, Range(n, next))
  {
    hide Sound;
    var c := a + b;
    forall i | 0 <= i < |c| && c[i].Def? ensures Named(c[i].at, fs, Range(n, next)) {
      if i < |a| {
        assert c[i] == a[i] && Owned(a[i].at, fs[0].name, Range(n, m));
      } else {
        assert c[i] == b[i - |a|] && Named(b[i - |a|].at, fs[1..], Range(m, next));
      }
    }
    TargetsTogether(t, a, b, Room(t, fs[0]));
  }

  lemma OnceTogether(t: Target, a: seq<Op>, b: seq<Op>, fs: seq<Function>, n: nat, m: nat, next: nat)
    requires fs != [] && n <= m <= next && forall i :: 0 < i < |fs| ==> fs[i].name != fs[0].name
    requires LabelsOf(a, fs[0].name, Range(n, m)) && WellLabelled(b, fs[1..], Range(m, next)) && DefinedOnce(b)
    ensures DefinedOnce(a + b)
  {
    var c := a + b;
    forall i, j | 0 <= i < j < |c| && c[i].Def? ensures c[i] != c[j] {
      if j < |a| {
        assert c[i] == a[i] && c[j] == a[j];
      } else if i >= |a| {
        assert c[i] == b[i - |a|] && c[j] == b[j - |a|];
      } else if c[j].Def? {
        assert c[i] == a[i] && Owned(a[i].at, fs[0].name, Range(n, m));
        assert c[j] == b[j - |a|] && Named(b[j - |a|].at, fs[1..], Range(m, next));
        if !c[j].at.Numbered? { var k :| 0 <= k < |fs[1..]| && c[j].at.f == fs[1..][k].name; }
      }
    }
  }

  lemma TargetsTogether(t: Target, a: seq<Op>, b: seq<Op>, room: nat)
    requires Sound(t, a, room)
    requires forall i {:trigger b[i]} :: 0 <= i < |b| && IsBranch(b[i]) ==> Resolved(b, i)
    ensures var c := a + b; forall i {:trigger c[i]} :: 0 <= i < |c| && IsBranch(c[i]) ==> Resolved(c, i)
  {
    var c := a + b;
    forall i | 0 <= i < |c| && IsBranch(c[i]) ensures Resolved(c, i) {
      if i < |a| {
        assert c[i] == a[i] && Lands(t, a, i);
        var j :| 2 <= j < |a| && a[j] == Def(a[i].at);
        assert c[j] == a[j];
      } else {
        assert c[i] == b[i - |a|] && Resolved(b, i - |a|);
        var j :| 0 <= j < |b| && b[j] == Def(b[i - |a|].at);
        assert c[|a| + j] == b[j];
      }
    }
  }
}
