/** What the stack discipline of the emitted code means for calls: evaluating an
    argument is a step that `Calls` allows, and where a call meets an aligned stack. */
module StackEvaluation {
  import opened Frames
  import opened Calls
  import opened StackCode
  import opened StackLevel
  import opened StackProof
  import opened StackModule
  import opened StackStatements
  import opened StackMachine

  type Value = StackCode.Value
  type State = StackMachine.State

  /** A function of a module whose code holds the code of a chunk of a value, between
      `front` and `back`. */
  ghost predicate Holds(t: Target, fs: seq<Function>, f: string, front: seq<Op>, v: Value, c: nat, n: nat,
                        back: seq<Op>) {
    && AllFunctionsOk(fs) && f in Routines(t, fs, 0) && 2 <= |front| && back != []
    && Routines(t, fs, 0)[f].code == (front + EmitChunk(t, v, c, n).code) + back
  }

  /** A run of the function: `a` leads to the code of the value, `b` through it, to
      its end but not beyond. */
  ghost predicate RunsThrough(t: Target, p: Program, x: Activation, i: nat, j: nat, a: seq<Event>, b: seq<Event>) {
    && Entered(x) && Above(x) && Path(t, p, x, a + b)
    && Last(x.entry, a).pc == i && Last(x.entry, a + b).pc == j
    && (forall k :: 0 <= k < |b| ==> Last(x.entry, a + b[..k]).pc != j)
  }

  /** Evaluating a chunk, with all calls in it, on any path: stack and frame pointer
      are what they were, and everything pushed before is still there. */
  lemma EvaluationIsLevel(t: Target, fs: seq<Function>, f: string, front: seq<Op>, v: Value, c: nat, n: nat,
                          back: seq<Op>,
                          x: Activation, a: seq<Event>, b: seq<Event>)
    requires Holds(t, fs, f, front, v, c, n, back) && x.routine == Routines(t, fs, 0)[f]
    requires RunsThrough(t, Routines(t, fs, 0), x, |front|, |front| + |EmitChunk(t, v, c, n).code|, a, b)
    ensures var s, s' := Last(x.entry, a), Last(x.entry, a + b);
      s'.sp == s.sp && s'.fp == s.fp && Kept(Cells(s.sp, Bottom(t, x)), s, s')
  {
    hide EmitChunk, Routines, Path, Sound, Depth, Above, AllFunctionsOk, Levels, AllTargeted, Embedded, At;
    var p, r := Routines(t, fs, 0), EmitChunk(t, v, c, n);
    var d := Depth(t, front, 0, |front|);
    RoutinesAreSound(t, fs, 0);
    ChunkIsLevel(t, v, c, d, n);
    EmbeddedCode(t, front, r.code, back);
    InnerPath(t, p, x, |front|, r.code, d, a, b);
    SameDepth(t, x, |front|, r.code, d, Last(x.entry, a), Last(x.entry, a + b));
  }

  lemma SameDepth(t: Target, x: Activation, i: nat, code: seq<Op>, d: int, s: State, s': State)
    requires Embedded(t, x.routine.code, i, code, d) && Levels(t, code, d, d, d)
    requires At(t, x, s) && At(t, x, s') && s.pc == i && s'.pc == i + |code|
    ensures s'.sp == s.sp
  {
    assert Depth(t, x.routine.code, 0, i + 0) == Depth(t, code, d, 0);
  }

  /** So what `Calls` takes for one step is what the code of the chunk does: with the
      registers and the memory behind it as the noise, `Eval` arrives at the very
      state in which the path ends. */
  lemma EvaluationIsEval(t: Target, fs: seq<Function>, f: string, front: seq<Op>, v: Value, c: nat, n: nat,
                         back: seq<Op>,
                         x: Activation, a: seq<Event>, b: seq<Event>, args: Arguments, chunk: Chunk,
                         before: Calls.State,
                         regs: int -> int)
    requires Holds(t, fs, f, front, v, c, n, back) && x.routine == Routines(t, fs, 0)[f]
    requires RunsThrough(t, Routines(t, fs, 0), x, |front|, |front| + |EmitChunk(t, v, c, n).code|, a, b)
    requires Shows(t, x, Last(x.entry, a), before)
    ensures var noise := (_: Chunk) => Noise(regs, Last(x.entry, a + b).mem);
      var after := Calls.Step(t, Eval(chunk), args, noise, before);
      Shows(t, x, Last(x.entry, a + b), after) && after.acc == ValueOf(args, chunk) && after.regs == regs
  {
    hide Holds, RunsThrough, EmitChunk, Routines;
    EvaluationIsLevel(t, fs, f, front, v, c, n, back, x, a, b);
  }

  /** The view that `Calls` has of a state inside an activation. */
  ghost predicate Shows(t: Target, x: Activation, s: State, u: Calls.State) {
    && u.sp == s.sp && u.fp == s.fp && u.top == Bottom(t, x)
    && forall a {:trigger u.mem(a)} {:trigger s.mem(a)} :: u.mem(a) == s.mem(a)
  }

  // ---- alignment ----

  /** At its call instruction the code of a call is deeper than at its start by what it
      cleans up, which is a multiple of 16 except on i386: the call meets an aligned
      stack if and only if it starts from one. Nothing in the emitter sees to that on
      x86_64 when an operand, a field or an argument has been pushed around it. */
  lemma CallIsAligned(t: Target, v: Value, d: int, n: nat) returns (front: seq<Op>, back: seq<Op>)
    requires v.Call?
    ensures EmitCallOf(t, v, n).code == front + back && back != [] && back[0].CallTo? && back[0].callee == v.callee
    ensures t != I386 ==> (Depth(t, front, d, |front|) % 16 == 0 <==> d % 16 == 0)
  {
    hide EmitCallOf, Ok, CleanupBytes, ArgChunks;
    var ns := ArgChunks(t, v.args);
    var next;
    front, next := CallFront(t, v, d, n);
    back := [CallTo(v.callee, PushBytes(t) * StackBefore(t, ns, |ns|))]
      + (if CleanupBytes(t, ns) > 0 then [RaiseSp(CleanupBytes(t, ns))] else []);
    EndDepth(t, front, d, d, d + CleanupBytes(t, ns), Range(n, next), {});
    CleanupAligned(t, ns);
    Multiples(d, CleanupBytes(t, ns));
  }

  lemma Multiples(d: int, k: int)
    ensures k % 16 == 0 ==> ((d + k) % 16 == 0 <==> d % 16 == 0)
  {
  }

  /** `1 + g()` on x86_64: the left operand is on the stack at the call. */
  lemma OperandMisalignsCall()
    ensures var v := Binary(Scalar, Leaf(Scalar), StackCode.Call(Scalar, "g", []));
      var c := EmitValue(X64, v, 0).code;
      c[2] == CallTo("g", 0) && Depth(X64, c, 0, 2) == 8
  {
    var g := StackCode.Call(Scalar, "g", []);
    var c := EmitValue(X64, Binary(Scalar, Leaf(Scalar), g), 0).code;
    assert EmitValue(X64, g, 0).code == [CallTo("g", 0)] by {
      var ns := ArgChunks(X64, []);
      assert ns == [];
      assert EmitCallOf(X64, g, 0).code == [] + ([] + ([] + ([] + ([CallTo("g", 0)] + []))));
    }
    assert c[0] == Plain && c[1] == PushWord;
    assert Depth(X64, c, 0, 1) == 0;
  }
}
