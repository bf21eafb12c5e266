/** Running the code: on every path through a function, with all calls it makes, the
    stack pointer is where the emitter thinks it is, what was pushed stays, and the
    caller gets its stack and frame pointer back. */
module StackMachine {
  import opened Frames
  import opened Calls
  import opened StackCode
  import opened StackLevel
  import opened StackStatements
  import opened StackModule

  datatype Routine = Routine(room: nat, code: seq<Op>)

  type Program = map<string, Routine>

  function Routines(t: Target, fs: seq<Function>, n: nat): Program {
    if fs == [] then map[] else
    var a := EmitFunction(t, fs[0], n);
    Routines(t, fs[1..], a.next)[fs[0].name := Routine(Room(t, fs[0]), a.code)]
  }

  ghost predicate AllSound(t: Target, p: Program) {
    forall f :: f in p ==> Sound(t, p[f].code, p[f].room)
  }

  lemma {:induction false} RoutinesAreSound(t: Target, fs: seq<Function>, n: nat)
    requires AllFunctionsOk(fs)
    ensures AllSound(t, Routines(t, fs, n))
  {
    hide Sound, EmitFunction, AllLoopsOk, Room, LabelsOf;
    if fs != [] {
      var a := EmitFunction(t, fs[0], n);
      assert AllLoopsOk(fs[0].body, false);
      FunctionIsSound(t, fs[0], n);
      RoutinesAreSound(t, fs[1..], a.next);
    }
  }

  // ---- runs ----

  datatype State = State(pc: nat, sp: int, fp: int, mem: int -> int)

  /** The state after an instruction, and the run of the callee if it is a call into
      the module. */
  datatype Event = Event(after: State, inner: seq<Event>)

  function Last(s: State, events: seq<Event>): State {
    if events == [] then s else events[|events| - 1].after
  }

  /** An activation of a routine: its state at the entry, and the memory of its
      callers that nobody stores to through a pointer. */
  datatype Activation = Activation(routine: Routine, entry: State, outer: iset<int>)

  /** The locals lie between this and the saved frame pointer. */
  function Bottom(t: Target, x: Activation): int {
    x.entry.sp - FirstArgument(t) - x.routine.room
  }

  predicate Between(lo: int, a: int, hi: int) {
    lo <= a < hi
  }

  ghost function Cells(lo: int, hi: int): iset<int> {
    iset a | Between(lo, a, hi)
  }

  /** What no instruction writes but a push: return address and saved frame pointer,
      what has been pushed, and the same of all callers. */
  ghost function Keep(t: Target, x: Activation, sp: int): iset<int> {
    x.outer + Cells(x.entry.sp - FirstArgument(t), x.entry.sp) + Cells(sp, Bottom(t, x))
  }

  ghost predicate Kept(keep: iset<int>, s: State, s': State) {
    forall a :: a in keep ==> s'.mem(a) == s.mem(a)
  }

  /** Some instruction moves on by one and the stack pointer by `d`. */
  ghost predicate Moves(t: Target, x: Activation, s: State, s': State, d: int) {
    s'.pc == s.pc + 1 && s'.sp == s.sp + d && s'.fp == s.fp && Kept(Keep(t, x, s.sp), s, s')
  }

  ghost predicate Goes(t: Target, x: Activation, s: State, s': State, l: Label) {
    && s'.sp == s.sp && s'.fp == s.fp && Kept(Keep(t, x, s.sp), s, s')
    && s'.pc < |x.routine.code| && x.routine.code[s'.pc] == Def(l)
  }

  /** The arguments on the stack belong to the callee. */
  ghost function Lent(t: Target, x: Activation, sp: int, bytes: nat): iset<int> {
    Keep(t, x, sp) - Cells(sp, sp + bytes)
  }

  /** One instruction. A branch may go either way, a store may hit any memory that is
      not to be kept, and an external callee behaves like any function. */
  ghost predicate Step(t: Target, p: Program, x: Activation, s: State, e: Event)
    requires s.pc < |x.routine.code|
    decreases e
  {
    var s' := e.after;
    match x.routine.code[s.pc]
    case Plain => Moves(t, x, s, s', 0)
    case SetAcc(_) => Moves(t, x, s, s', 0)
    case TestAcc => Moves(t, x, s, s', 0)
    case Def(_) => Moves(t, x, s, s', 0)
    case PushWord => Moves(t, x, s, s', 0 - Word(t))
    case PopWord => Moves(t, x, s, s', Word(t))
    case LowerSp(n) => Moves(t, x, s, s', 0 - n)
    case RaiseSp(n) => Moves(t, x, s, s', n)
    case Jump(l) => Goes(t, x, s, s', l)
    case Branch(l, _) => Moves(t, x, s, s', 0) || Goes(t, x, s, s', l)
    case CallTo(f, bytes) =>
      var lent := Lent(t, x, s.sp, bytes);
      if f !in p then s'.pc == s.pc + 1 && s'.sp == s.sp && s'.fp == s.fp && Kept(lent, s, s') else
      var callee := Activation(p[f], s.(pc := 0), lent);
      var end := Last(callee.entry, e.inner);
      Path(t, p, callee, e.inner) && end.pc == |p[f].code| && s' == end.(pc := s.pc + 1)
    case SaveFrame =>
      && s'.pc == s.pc + 1 && s'.sp == s.sp - FirstArgument(t) && s'.fp == s'.sp && s'.mem(s'.fp) == s.fp
      && Kept(x.outer, s, s')
    case Leave =>
      && s'.pc == |x.routine.code| && s'.sp == s.fp + FirstArgument(t) && s'.fp == s.mem(s.fp)
      && Kept(x.outer, s, s')
  }

  ghost predicate Path(t: Target, p: Program, x: Activation, events: seq<Event>)
    decreases events
  {
    events == [] ||
    (var before := events[..|events| - 1];
     var s := Last(x.entry, before);
     Path(t, p, x, before) && s.pc < |x.routine.code| && Step(t, p, x, s, events[|events| - 1]))
  }

  // ---- the invariant ----

  /** What holds at every point of every path. */
  ghost predicate At(t: Target, x: Activation, s: State) {
    var c := x.routine.code;
    && s.pc <= |c| && Kept(x.outer, x.entry, s)
    && (if s.pc <= 1 || s.pc == |c| then s.sp == x.entry.sp && s.fp == x.entry.fp else Inside(t, x, s))
  }

  ghost predicate Inside(t: Target, x: Activation, s: State)
    requires s.pc <= |x.routine.code|
  {
    && s.fp == x.entry.sp - FirstArgument(t) && s.mem(s.fp) == x.entry.fp
    && s.sp == s.fp - Depth(t, x.routine.code, 0, s.pc)
  }

  predicate Entered(x: Activation) {
    x.entry.pc == 0
  }

  ghost predicate Above(x: Activation) {
    forall a :: a in x.outer ==> a >= x.entry.sp
  }

  lemma MovesInside(t: Target, x: Activation, s: State, s': State)
    requires Sound(t, x.routine.code, x.routine.room) && Above(x) && At(t, x, s) && s.pc < |x.routine.code| - 1
    requires s.pc != 1 && Moves(t, x, s, s', 0 - Effect(t, x.routine.code[s.pc]))
    ensures At(t, x, s')
  {
    var c := x.routine.code;
    assert DepthOk(t, c, x.routine.room, s.pc);
    if s.pc >= 2 { assert s.fp in Keep(t, x, s.sp) by { assert FirstArgument(t) > 0; } }
  }

  lemma GoesInside(t: Target, x: Activation, s: State, s': State)
    requires Sound(t, x.routine.code, x.routine.room) && At(t, x, s) && 2 <= s.pc < |x.routine.code| - 1
    requires IsBranch(x.routine.code[s.pc]) && Goes(t, x, s, s', x.routine.code[s.pc].at)
    ensures At(t, x, s')
  {
    var c := x.routine.code;
    assert Lands(t, c, s.pc);
    var j :| 2 <= j < |c| && c[j] == Def(c[s.pc].at) && Depth(t, c, 0, j) == Depth(t, c, 0, s.pc);
    assert c[s'.pc] == c[j];
    assert s'.pc == j;
    assert s.fp in Keep(t, x, s.sp) by { assert FirstArgument(t) > 0; }
  }

  /** Inside, all that is kept lies above the stack pointer. */
  lemma KeepIsAbove(t: Target, x: Activation, s: State)
    requires Sound(t, x.routine.code, x.routine.room) && Above(x) && At(t, x, s) && 2 <= s.pc < |x.routine.code|
    ensures forall a :: a in Keep(t, x, s.sp) ==> a >= s.sp
  {
    assert DepthOk(t, x.routine.code, x.routine.room, s.pc);
  }

  /** A callee that gives back the stack and frame pointer and keeps what it must. */
  lemma BackInside(t: Target, x: Activation, s: State, s': State)
    requires Sound(t, x.routine.code, x.routine.room) && Above(x) && At(t, x, s) && 2 <= s.pc < |x.routine.code| - 1
    requires x.routine.code[s.pc].CallTo?
    requires s'.pc == s.pc + 1 && s'.sp == s.sp && s'.fp == s.fp
    requires Kept(Lent(t, x, s.sp, x.routine.code[s.pc].bytes), s, s')
    ensures At(t, x, s')
  {
    var c, bytes := x.routine.code, x.routine.code[s.pc].bytes;
    assert DepthOk(t, c, x.routine.room, s.pc);
    assert s.sp + bytes <= Bottom(t, x);
    forall a | a in x.outer ensures a in Lent(t, x, s.sp, bytes) {}
    assert s.fp in Lent(t, x, s.sp, bytes) by { assert FirstArgument(t) > 0; }
  }

  lemma SavesFrame(t: Target, p: Program, x: Activation, s: State, e: Event)
    requires Sound(t, x.routine.code, x.routine.room) && At(t, x, s) && s.pc == 1 && Step(t, p, x, s, e)
    ensures At(t, x, e.after)
  {
    assert DepthOk(t, x.routine.code, x.routine.room, 2);
  }

  lemma Leaves(t: Target, p: Program, x: Activation, s: State, e: Event)
    requires Sound(t, x.routine.code, x.routine.room) && At(t, x, s) && s.pc == |x.routine.code| - 1
    requires Step(t, p, x, s, e)
    ensures At(t, x, e.after)
  {
  }

  lemma {:induction false} StepKeeps(t: Target, p: Program, x: Activation, s: State, e: Event)
    requires AllSound(t, p) && Sound(t, x.routine.code, x.routine.room) && Above(x) && At(t, x, s)
    requires s.pc < |x.routine.code| && Step(t, p, x, s, e)
    ensures At(t, x, e.after)
    decreases e, 1
  {
    hide Depth, At, Moves, Goes, Keep, Lent, Kept, Inside, Above, Sound;
    KindOf(t, x, s.pc);
    var op := x.routine.code[s.pc];
    if s.pc == |x.routine.code| - 1 {
      Leaves(t, p, x, s, e);
    } else if s.pc == 1 {
      SavesFrame(t, p, x, s, e);
    } else if op.CallTo? {
      CallKeeps(t, p, x, s, e);
    } else if IsBranch(op) && Goes(t, x, s, e.after, op.at) {
      GoesInside(t, x, s, e.after);
    } else {
      MovesInside(t, x, s, e.after);
    }
  }

  lemma KindOf(t: Target, x: Activation, i: nat)
    requires Sound(t, x.routine.code, x.routine.room) && i < |x.routine.code|
    ensures var op := x.routine.code[i];
      && (i == |x.routine.code| - 1 <==> op.Leave?) && (i == 1 <==> op.SaveFrame?) && (i == 0 ==> op.Def?)
  {
  }

  lemma {:induction false} CallKeeps(t: Target, p: Program, x: Activation, s: State, e: Event)
    requires AllSound(t, p) && Sound(t, x.routine.code, x.routine.room) && Above(x) && At(t, x, s)
    requires 2 <= s.pc < |x.routine.code| - 1 && x.routine.code[s.pc].CallTo? && Step(t, p, x, s, e)
    ensures At(t, x, e.after) && Kept(Lent(t, x, s.sp, x.routine.code[s.pc].bytes), s, e.after)
    decreases e, 0
  {
    hide Depth, At, Keep, Lent, Inside, Above, Sound, Kept;
    var op := x.routine.code[s.pc];
    var lent := Lent(t, x, s.sp, op.bytes);
    if op.callee in p {
      var callee := Activation(p[op.callee], s.(pc := 0), lent);
      LentIsAbove(t, x, s, op.bytes, callee);
      var end := Last(callee.entry, e.inner);
      PathIsLevel(t, p, callee, e.inner);
      CalleeEnds(t, callee, end);
      SameKept(lent, s, end, e.after);
    }
    BackInside(t, x, s, e.after);
  }

  lemma LentIsAbove(t: Target, x: Activation, s: State, bytes: nat, callee: Activation)
    requires Sound(t, x.routine.code, x.routine.room) && Above(x) && At(t, x, s) && 2 <= s.pc < |x.routine.code|
    requires callee.outer == Lent(t, x, s.sp, bytes) && callee.entry.sp == s.sp
    ensures Above(callee)
  {
    hide At, Depth, Sound, Keep;
    KeepIsAbove(t, x, s);
  }

  lemma CalleeEnds(t: Target, x: Activation, s: State)
    requires At(t, x, s) && s.pc == |x.routine.code|
    ensures s.sp == x.entry.sp && s.fp == x.entry.fp && Kept(x.outer, x.entry, s)
  {
  }

  lemma SameKept(keep: iset<int>, s: State, end: State, s': State)
    requires Kept(keep, s.(pc := 0), end) && s'.mem == end.mem
    ensures Kept(keep, s, s')
  {
  }

  /** At every point of every path through a function, nested calls included, the
      stack pointer is below the frame pointer by exactly the depth that the code in
      front of that point adds up to, and at the end the caller has its stack pointer,
      its frame pointer and all it wants kept. */
  lemma {:induction false} PathIsLevel(t: Target, p: Program, x: Activation, events: seq<Event>)
    requires AllSound(t, p) && Sound(t, x.routine.code, x.routine.room) && Above(x) && Entered(x)
    requires Path(t, p, x, events)
    ensures At(t, x, Last(x.entry, events))
    decreases events
  {
    hide Depth, Step, Above, Sound, At;
    if events == [] {
      AtEntry(t, x);
    } else {
      var before := events[..|events| - 1];
      PathIsLevel(t, p, x, before);
      StepKeeps(t, p, x, Last(x.entry, before), events[|events| - 1]);
    }
  }

  lemma AtEntry(t: Target, x: Activation)
    requires Entered(x)
    ensures At(t, x, x.entry)
  {
  }

  // ---- what it means ----

  lemma {:induction false} ArmDepth(t: Target, c: seq<Op>, room: nat, i: nat)
    requires t.Arm64? && Sound(t, c, room) && i < |c|
    ensures Depth(t, c, 0, i) % 16 == 0
  {
    hide Effect;
    if i > 0 {
      ArmDepth(t, c, room, i - 1);
      assert DepthOk(t, c, room, i - 1);
    }
  }

  /** The same for a whole module: on every path through any of its functions the
      stack pointer is below that of the caller by return address, saved frame pointer
      and depth, on arm64 always by a multiple of 16; where the function ends, stack
      pointer, frame pointer and everything the caller keeps are as at the entry. */
  lemma ModuleIsLevel(t: Target, fs: seq<Function>, f: string, entry: State, outer: iset<int>, events: seq<Event>)
    requires AllFunctionsOk(fs) && f in Routines(t, fs, 0) && entry.pc == 0
    requires (forall a :: a in outer ==> a >= entry.sp)
    requires Path(t, Routines(t, fs, 0), Activation(Routines(t, fs, 0)[f], entry, outer), events)
    ensures var c, s := Routines(t, fs, 0)[f].code, Last(entry, events);
      && s.pc <= |c| && Kept(outer, entry, s)
      && (2 <= s.pc < |c| ==> entry.sp - s.sp == FirstArgument(t) + Depth(t, c, 0, s.pc))
      && (s.pc == |c| ==> s.sp == entry.sp && s.fp == entry.fp)
      && (t.Arm64? ==> (entry.sp - s.sp) % 16 == 0)
  {
    hide Path, Sound, Depth, Routines, AllFunctionsOk;
    var p := Routines(t, fs, 0);
    var x, s := Activation(p[f], entry, outer), Last(entry, events);
    RoutinesAreSound(t, fs, 0);
    PathIsLevel(t, p, x, events);
    if t.Arm64? && 2 <= s.pc < |p[f].code| { ArmDepth(t, p[f].code, p[f].room, s.pc); }
  }

  /** Code at position `i` of a routine, with the depths it has there. */
  ghost predicate Embedded(t: Target, c: seq<Op>, i: nat, code: seq<Op>, d: int) {
    && 2 <= i && i + |code| < |c| && (forall k :: 0 <= k < |code| ==> c[i + k] == code[k])
    && (forall k :: 0 <= k <= |code| ==> Depth(t, c, 0, i + k) == Depth(t, code, d, k))
  }

  lemma EmbeddedCode(t: Target, a: seq<Op>, code: seq<Op>, b: seq<Op>)
    requires 2 <= |a| && b != []
    ensures Embedded(t, (a + code) + b, |a|, code, Depth(t, a, 0, |a|))
  {
    var c, d := (a + code) + b, Depth(t, a, 0, |a|);
    forall k | 0 <= k <= |code| ensures Depth(t, c, 0, |a| + k) == Depth(t, code, d, k) {
      DepthFirst(t, a + code, b, 0, |a| + k);
      DepthSecond(t, a, code, 0, k);
    }
  }

  /** Where a path is inside such code, and what it has kept on the way. */
  ghost predicate Inner(t: Target, x: Activation, i: nat, n: nat, s: State, s': State) {
    i <= s'.pc <= i + n && s'.fp == s.fp && Kept(Cells(s.sp, Bottom(t, x)), s, s')
  }

  function Borrowed(op: Op): nat {
    if op.CallTo? then op.bytes else 0
  }

  lemma StepSpares(t: Target, p: Program, x: Activation, u: State, e: Event)
    requires AllSound(t, p) && Sound(t, x.routine.code, x.routine.room) && Above(x) && At(t, x, u)
    requires 2 <= u.pc < |x.routine.code| - 1 && Step(t, p, x, u, e)
    ensures Kept(Cells(u.sp + Borrowed(x.routine.code[u.pc]), Bottom(t, x)), u, e.after)
  {
    hide Depth, At, Inside, Above, Sound, Path;
    KindOf(t, x, u.pc);
    if x.routine.code[u.pc].CallTo? { CallKeeps(t, p, x, u, e); }
  }

  lemma InnerTarget(t: Target, p: Program, x: Activation, i: nat, code: seq<Op>, d: int, u: State, e: Event)
    requires Sound(t, x.routine.code, x.routine.room) && Embedded(t, x.routine.code, i, code, d)
    requires AllTargeted(t, code, d, d, {}) && i <= u.pc < i + |code| && Step(t, p, x, u, e)
    ensures i <= e.after.pc <= i + |code|
  {
    hide Depth, Path, Effect, Moves;
    var c, k := x.routine.code, u.pc - i;
    KindOf(t, x, u.pc);
    assert code[k] == c[u.pc];
    if IsBranch(c[u.pc]) && Goes(t, x, u, e.after, c[u.pc].at) {
      assert Targeted(t, code, d, d, k, {});
      var j :| 0 <= j < |code| && code[j] == Def(code[k].at);
      assert c[i + j] == c[e.after.pc];
    } else {
      NextPc(t, p, x, u, e);
    }
  }

  lemma NextPc(t: Target, p: Program, x: Activation, u: State, e: Event)
    requires u.pc < |x.routine.code| && Step(t, p, x, u, e) && !x.routine.code[u.pc].Leave?
    requires !(IsBranch(x.routine.code[u.pc]) && Goes(t, x, u, e.after, x.routine.code[u.pc].at))
    ensures e.after.pc == u.pc + 1
  {
    hide Path, Goes;
  }

  /** A step inside level code goes on inside it or to its end, and keeps what had
      been pushed before. */
  lemma InnerStep(t: Target, p: Program, x: Activation, i: nat, code: seq<Op>, d: int, s: State, u: State, e: Event)
    requires AllSound(t, p) && Sound(t, x.routine.code, x.routine.room) && Above(x)
    requires Embedded(t, x.routine.code, i, code, d) && Levels(t, code, d, d, d) && AllTargeted(t, code, d, d, {})
    requires At(t, x, s) && s.pc == i && At(t, x, u) && i <= u.pc < i + |code| && Step(t, p, x, u, e)
    requires Inner(t, x, i, |code|, s, u)
    ensures Inner(t, x, i, |code|, s, e.after) && At(t, x, e.after)
  {
    hide Depth, Path, Sound, AllSound, Effect, AllTargeted, Step, Above;
    var k := u.pc - i;
    assert code[k] == x.routine.code[u.pc];
    assert Fine(t, code[k], Depth(t, code, d, k), d);
    assert Depth(t, x.routine.code, 0, i + 0) == Depth(t, code, d, 0);
    StartDepth(t, code, d);
    assert u.sp + Borrowed(code[k]) <= s.sp;
    InnerTarget(t, p, x, i, code, d, u, e);
    StepSpares(t, p, x, u, e);
    StepKeeps(t, p, x, u, e);
  }

  /** Every path through level code stays inside it until it comes to its end. There
      the stack pointer is back where it was, and what had been pushed is still there,
      whatever calls were made on the way. */
  lemma {:induction false} InnerPath(t: Target, p: Program, x: Activation, i: nat, code: seq<Op>, d: int,
                                     a: seq<Event>, b: seq<Event>)
    requires AllSound(t, p) && Sound(t, x.routine.code, x.routine.room) && Above(x) && Entered(x)
    requires Embedded(t, x.routine.code, i, code, d) && Levels(t, code, d, d, d) && AllTargeted(t, code, d, d, {})
    requires Path(t, p, x, a + b) && Last(x.entry, a).pc == i
    requires forall k :: 0 <= k < |b| ==> Last(x.entry, a + b[..k]).pc != i + |code|
    ensures var s, s' := Last(x.entry, a), Last(x.entry, a + b);
      Inner(t, x, i, |code|, s, s') && At(t, x, s) && At(t, x, s')
    decreases |b|
  {
    hide Depth, Sound, AllSound, Effect, AllTargeted, Step, Above, Levels, Embedded, At, Inner;
    if b == [] {
      assert a + b == a;
      PathIsLevel(t, p, x, a);
      InnerStart(t, x, i, |code|, Last(x.entry, a));
    } else {
      var before := b[..|b| - 1];
      assert (a + b)[..|a + b| - 1] == a + before;
      forall k | 0 <= k < |before| ensures Last(x.entry, a + before[..k]).pc != i + |code| {
        assert before[..k] == b[..k];
      }
      InnerPath(t, p, x, i, code, d, a, before);
      var s, u := Last(x.entry, a), Last(x.entry, a + before);
      assert u.pc != i + |code|;
      InnerPc(t, x, i, |code|, s, u);
      InnerStep(t, p, x, i, code, d, s, u, b[|b| - 1]);
    }
  }

  lemma InnerStart(t: Target, x: Activation, i: nat, n: nat, s: State)
    requires s.pc == i
    ensures Inner(t, x, i, n, s, s)
  {
  }

  lemma InnerPc(t: Target, x: Activation, i: nat, n: nat, s: State, u: State)
    requires Inner(t, x, i, n, s, u) && u.pc != i + n
    ensures i <= u.pc < i + n
  {
  }
}
