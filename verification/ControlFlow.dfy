/** Whole functions: with any choices, the code that an emitter writes for a function
    makes the calls of its source in their order and comes to its end, or stops where the
    choices run out. Programs of words go the same way on all targets. */
module ControlFlow {
  import opened Frames
  import opened Calls
  import opened StackCode
  import opened SourceFlow
  import opened CodeFlow
  import opened FlowProof
  import opened StackLevel
  import opened StackStatements
  import opened StackModule
  import opened Placement
  import I386

  type Function = StackCode.Function

  type Stmt = StackCode.Stmt

  type Arm = StackCode.Arm

  type State = CodeFlow.State

  // ---- loop exits ----

  predicate Inside(kind: Kind) {
    !kind.Broke? && !kind.Continued?
  }

  /** Exits that stand in loops do not leave the code they are in. */
  lemma {:induction false} ExitsStayInside(t: Target, st: Stmt, cs: seq<bool>)
    requires LoopsOk(st, false)
    ensures Inside(RunStmt(t, st, cs).kind)
    decreases |cs|, st, 2
  {
    hide RunValue, RunToSlots, RunChunksUp, RunReturned, Choose, RunLoop, RunBody;
    match st
    case If(cond, a, b) =>
      var r := Decided(RunValue(t, cond, cs));
      if r.kind.Normal? && r.acc.Known? { BodyStaysInside(t, if r.acc.value then a else b, r.cs); }
    case While(_, _) => LoopStaysInside(t, st, cs);
    case For(init, _, _, _) =>
      ExitsStayInside(t, init, cs);
      LoopStaysInside(t, st, RunStmt(t, init, cs).cs);
    case Match(v, arms) =>
      var r := RunToSlots(t, v, cs);
      var chosen := Choose(arms, r.cs);
      if !chosen.Out? {
        var arm := if chosen.Hit? then chosen.arm else LastDefault(arms);
        if arm < |arms| {
          ArmInside(arms, arm);
          BodyStaysInside(t, arms[arm].body, chosen.cs);
        }
      }
    case _ =>
  }

  lemma {:induction false} ArmInside(arms: seq<Arm>, i: nat)
    requires ArmLoopsOk(arms, false) && i < |arms|
    ensures AllLoopsOk(arms[i].body, false)
    decreases |arms|
  {
    if i > 0 { ArmInside(arms[1..], i - 1); }
  }

  lemma BodyStaysInside(t: Target, body: seq<Stmt>, cs: seq<bool>)
    requires AllLoopsOk(body, false)
    ensures Inside(RunBody(t, body, cs).kind)
    decreases |cs|, body, 0
  {
    hide RunStmt;
    if body != [] {
      ExitsStayInside(t, body[0], cs);
      BodyStaysInside(t, body[1..], RunStmt(t, body[0], cs).cs);
    }
  }

  lemma LoopStaysInside(t: Target, st: Stmt, cs: seq<bool>)
    requires (st.While? || st.For?) && (st.For? ==> LoopsOk(st.step, false))
    ensures Inside(RunLoop(t, st, cs).kind)
    decreases |cs|, st, 1
  {
    hide RunValue, RunBody, RunStmt;
    var r := Decided(RunValue(t, st.cond, cs));
    if !r.kind.Normal? || !r.acc.Known? || !r.acc.value { return; }
    var b := RunBody(t, st.body, r.cs);
    if st.While? {
      LoopStaysInside(t, st, b.cs);
    } else {
      var g := RunStmt(t, st.step, b.cs);
      ExitsStayInside(t, st.step, b.cs);
      LoopStaysInside(t, st, g.cs);
    }
  }

  // ---- functions ----

  function Entry(cs: seq<bool>): State {
    Point(0, Unknown, Unknown, cs, [])
  }

  predicate Final(c: seq<Op>, s: State) {
    s.pc >= |c| || Stuck(c, s)
  }

  /** With any choices the code of a function has one run. It makes the calls of the source
      in order, and ends at the end of the code with the same choices left, or stops at a
      test just if the source runs out of choices. */
  lemma FunctionFlows(t: Target, f: Function, n: nat, cs: seq<bool>)
    requires AllLoopsOk(f.body, false)
    ensures var c, r := EmitFunction(t, f, n).code, RunBody(t, f.body, cs);
      exists s: State :: Reaches(c, Entry(cs), s) && Final(c, s) && s.calls == r.calls
        && (if r.kind.Stopped? then Stuck(c, s) else s.pc == |c| && s.cs == r.cs)
        && forall u: State :: Reaches(c, Entry(cs), u) && Final(c, u) ==> u == s
  {
    hide At, Reaches, Find, Stuck, Unique, Meets, EmitBody, RunBody, EmitFunction, Sound, LabelsOf, Room, Prologue,
      AllLoopsOk;
    var c, r, ret := EmitFunction(t, f, n).code, RunBody(t, f.body, cs), I386.ReturnOf(f.name);
    var p, b := Prologue(t, f), EmitBody(t, f.body, n, NoLoop, ret);
    FunctionIsSound(t, f, n);
    SoundIsUnique(t, c, Room(t, f));
    FunctionCode(t, f, n);
    PrologueIsSimple(t, f);
    AtWhole(c);
    AtCat(c, 0, p, b.code + [Def(ret), Leave]);
    AtCat(c, |p|, b.code, [Def(ret), Leave]);
    var k := |p| + |b.code|;
    var u := SimpleFlows(c, 0, p, Entry(cs));
    var w := BodyFlows(t, f.body, n, NoLoop, ret, c, |p|, u);
    BodyStaysInside(t, f.body, cs);
    assert FlowProof.Place(c, r.kind, k, NoLoop, ret) == if r.kind.Returned? then Find(c, ret) else k;
    After(c, Entry(cs), u, w, r, FlowProof.Place(c, r.kind, k, NoLoop, ret));
    var s := LeaveFlows(c, k, ret, Entry(cs), w, r);
    forall x: State | Reaches(c, Entry(cs), x) && Final(c, x) ensures x == s { OneEnd(c, Entry(cs), x, s); }
  }

  lemma SoundIsUnique(t: Target, c: seq<Op>, room: nat)
    requires Sound(t, c, room)
    ensures Unique(c)
  {
    hide Depth, DepthOk, Lands;
  }

  lemma AtWhole(c: seq<Op>)
    ensures At(c, 0, c)
  {
  }

  lemma FunctionCode(t: Target, f: Function, n: nat)
    ensures var ret := I386.ReturnOf(f.name);
      EmitFunction(t, f, n).code == Prologue(t, f) + (EmitBody(t, f.body, n, NoLoop, ret).code + [Def(ret), Leave])
  {
    hide Prologue, EmitBody;
  }

  lemma PrologueIsSimple(t: Target, f: Function)
    ensures forall k :: 0 <= k < |Prologue(t, f)| ==> Simple(Prologue(t, f)[k])
  {
  }

  /** From the end of the body, or by the return label, to the end. */
  lemma LeaveFlows(c: seq<Op>, k: nat, ret: Label, s: State, w: State, r: Run) returns (s': State)
    requires Unique(c) && At(c, k, [Def(ret), Leave]) && Inside(r.kind)
    requires Meets(c, s, w, r, if r.kind.Returned? then Find(c, ret) else k)
    ensures Reaches(c, s, s') && Final(c, s') && s'.calls == s.calls + r.calls
    ensures if r.kind.Stopped? then Stuck(c, s') else s'.pc == |c| && s'.cs == r.cs
  {
    hide Reaches, Find, Unique;
    s' := w;
    if !r.kind.Stopped? {
      AtEach(c, k, [Def(ret), Leave]);
      assert c[k + 0] == Def(ret) && c[k + 1] == Leave;
      FindAt(c, ret, k);
      var x := Next(c, w);
      OneStep(c, w);
      Onwards(c, s, w, x);
      s' := Next(c, x);
      OneStep(c, x);
      Onwards(c, s, x, s');
    }
  }
}
