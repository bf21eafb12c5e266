/** The emitted code goes where its source tree says, on all three targets: from the
    start of a value or statement, with any choices, it makes the calls of the run of the
    source in their order and comes to the place that the outcome names. */
module FlowProof {
  import opened Frames
  import opened Calls
  import opened StackCode
  import opened SourceFlow
  import opened CodeFlow
  import StackSteps
  import I386

  type Stmt = StackCode.Stmt

  type Arm = StackCode.Arm

  type State = CodeFlow.State

  /** From `s` the code comes to `s'`: behind the run's calls, at the given place, or
      where the run stopped. */
  ghost predicate Meets(c: seq<Op>, s: State, s': State, r: Run, at: nat) {
    && Reaches(c, s, s') && s'.calls == s.calls + r.calls
    && (if r.kind.Stopped? then Stuck(c, s') else s'.pc == at && s'.cs == r.cs)
  }

  /** It has the value of the run in the accumulator, too. */
  ghost predicate Computes(c: seq<Op>, s: State, s': State, r: Run, at: nat) {
    Meets(c, s, s', r, at) && (r.kind.Normal? ==> s'.acc == r.acc)
  }

  lemma Chain(c: seq<Op>, s: State, u: State, s': State, r: Run, q: Run, mid: nat, at: nat)
    requires Meets(c, s, u, r, mid) && Meets(c, u, s', q, at) && !r.kind.Stopped?
    ensures Meets(c, s, s', Then(r, q), at)
  {
    hide Reaches, Stuck;
    Onwards(c, s, u, s');
    assert (s.calls + r.calls) + q.calls == s.calls + (r.calls + q.calls);
  }

  lemma Stopping(c: seq<Op>, s: State, s': State, r: Run, at: nat, at': nat)
    requires Meets(c, s, s', r, at) && r.kind.Stopped?
    ensures forall q: Run :: q.kind.Stopped? && q.calls == r.calls ==> Meets(c, s, s', q, at')
  {
  }

  /** Simple code in front of a run, or behind it. */
  lemma After(c: seq<Op>, s: State, u: State, s': State, r: Run, at: nat)
    requires Reaches(c, s, u) && u.cs == s.cs && u.calls == s.calls && Meets(c, u, s', r, at)
    ensures Meets(c, s, s', r, at)
  {
    hide Reaches, Stuck;
    Onwards(c, s, u, s');
  }

  lemma Before(c: seq<Op>, s: State, u: State, s': State, r: Run, mid: nat, at: nat)
    requires Meets(c, s, u, r, mid) && !r.kind.Stopped? && Reaches(c, u, s') && Came(u, s', at)
    ensures forall q: Run :: !q.kind.Stopped? && q.calls == r.calls && q.cs == r.cs ==> Meets(c, s, s', q, at)
  {
    hide Reaches, Stuck;
    Onwards(c, s, u, s');
  }

  /** A value and a test of it. */
  lemma Tested(c: seq<Op>, s: State, u: State, r: Run, mid: nat, l: Label, equal: bool) returns (s': State)
    requires Computes(c, s, u, r, mid) && At(c, mid, [TestAcc, Branch(l, equal)])
    requires r.kind.Normal? || r.kind.Stopped?
    ensures var d := Decided(r);
      Meets(c, s, s', d, if d.acc.Known? && d.acc.value != equal then Find(c, l) else mid + 2)
  {
    hide Reaches, Find, At;
    if r.kind.Stopped? {
      s' := u;
    } else {
      s' := TestFlows(c, mid, l, equal, u);
      Onwards(c, s, u, s');
    }
  }

  // ---- values ----

  ghost predicate Flows(c: seq<Op>, i: nat, code: seq<Op>, s: State) {
    At(c, i, code) && Unique(c) && s.pc == i
  }

  lemma PlainFlows(c: seq<Op>, i: nat, s: State) returns (s': State)
    requires At(c, i, [Plain]) && s.pc == i
    ensures Reaches(c, s, s') && Came(s, s', i + 1) && s'.acc.Unknown?
  {
    s' := SimpleFlows(c, i, [Plain], s);
  }

  lemma PushFlows(t: Target, c: seq<Op>, i: nat, s: State) returns (s': State)
    requires At(c, i, PushAcc(t)) && s.pc == i
    ensures Reaches(c, s, s') && Came(s, s', i + |PushAcc(t)|)
  {
    s' := SimpleFlows(c, i, PushAcc(t), s);
  }

  /** What follows an operand that waited on the stack. */
  function Combine(t: Target): seq<Op> {
    [Plain] + (PopTo(t) + [Plain])
  }

  lemma CombineFlows(t: Target, c: seq<Op>, i: nat, s: State) returns (s': State)
    requires At(c, i, Combine(t)) && s.pc == i
    ensures Reaches(c, s, s') && Came(s, s', i + |Combine(t)|) && s'.acc.Unknown?
  {
    s' := SimpleFlows(c, i, Combine(t), s);
  }

  lemma {:induction false} ValueFlows(t: Target, v: Value, n: nat, c: seq<Op>, i: nat, s: State) returns (s': State)
    requires Flows(c, i, EmitValue(t, v, n).code, s)
    ensures Computes(c, s, s', RunValue(t, v, s.cs), i + |EmitValue(t, v, n).code|)
    decreases v, 4
  {
    hide At, Reaches, Find, Stuck, Unique, Meets;
    match v
    case StringLiteral(_) => s' := LeafFlows(c, i, s);
    case Leaf(_) => s' := LeafFlows(c, i, s);
    case Increment(_, postfix) => s' := IncrementFlows(t, v, n, c, i, s);
    case Wrap(_, a) =>
      var r := EmitValue(t, a, n);
      AtCat(c, i, r.code, [Plain]);
      var u := ValueFlows(t, a, n, c, i, s);
      s' := Forgotten(c, s, u, RunValue(t, a, s.cs), i + |r.code|);
    case Binary(_, _, _) => s' := BinaryFlows(t, v, n, c, i, s);
    case Logical(_, _, _, _) => s' := LogicalFlows(t, v, n, c, i, s);
    case Call(_, _, _) => s' := CallFlows(t, v, n, c, i, s);
    case Literal(_, _, _) => s' := LiteralFlows(t, v, 0, n, c, i, s);
    case FieldOf(_, offset, base) =>
      var k := offset / Word(t);
      var r := EmitChunk(t, base, k, n);
      AtCat(c, i, r.code, [Plain]);
      var u := ChunkFlows(t, base, k, n, c, i, s);
      s' := Forgotten(c, s, u, RunChunk(t, base, k, s.cs), i + |r.code|);
  }

  lemma LeafFlows(c: seq<Op>, i: nat, s: State) returns (s': State)
    requires At(c, i, [Plain]) && s.pc == i
    ensures Computes(c, s, s', Done(s.cs), i + 1)
  {
    s' := PlainFlows(c, i, s);
  }

  lemma IncrementFlows(t: Target, v: Value, n: nat, c: seq<Op>, i: nat, s: State) returns (s': State)
    requires v.Increment? && Flows(c, i, EmitValue(t, v, n).code, s)
    ensures Computes(c, s, s', Done(s.cs), i + |EmitValue(t, v, n).code|)
  {
    var code := EmitValue(t, v, n).code;
    s' := SimpleFlows(c, i, code, s);
    if v.postfix { s' := PostfixFlows(t, code, c, i, s); }
  }

  lemma PostfixFlows(t: Target, code: seq<Op>, c: seq<Op>, i: nat, s: State) returns (s': State)
    requires code == [Plain] + (PushAcc(t) + ([Plain] + PopTo(t))) && At(c, i, code) && s.pc == i
    ensures Reaches(c, s, s') && Came(s, s', i + |code|) && s'.acc.Unknown?
  {
    hide Reaches, At;
    var front := [Plain] + (PushAcc(t) + [Plain]);
    assert code == front + PopTo(t);
    AtCat(c, i, front, PopTo(t));
    var u := SimpleFlows(c, i, front, s);
    s' := PopFlows(t, c, i + |front|, u);
    Onwards(c, s, u, s');
  }

  lemma PopFlows(t: Target, c: seq<Op>, i: nat, s: State) returns (s': State)
    requires At(c, i, PopTo(t)) && s.pc == i
    ensures Reaches(c, s, s') && Came(s, s', i + |PopTo(t)|) && s'.acc.Unknown?
  {
    hide Reaches;
    AtEach(c, i, PopTo(t));
    var u := Next(c, s);
    OneStep(c, s);
    if t.Arm64? {
      OneStep(c, u);
      s' := Next(c, u);
      Onwards(c, s, u, s');
    } else {
      s' := u;
    }
  }

  /** A plain instruction behind a value. */
  lemma Forgotten(c: seq<Op>, s: State, u: State, r: Run, mid: nat) returns (s': State)
    requires Meets(c, s, u, r, mid) && (r.kind.Normal? || r.kind.Stopped?) && At(c, mid, [Plain])
    ensures Computes(c, s, s', Forget(r), mid + 1)
  {
    hide Reaches, At, Stuck;
    if r.kind.Stopped? {
      s' := u;
    } else {
      s' := PlainFlows(c, mid, u);
      Before(c, s, u, s', r, mid, mid + 1);
    }
  }

  lemma BinaryFlows(t: Target, v: Value, n: nat, c: seq<Op>, i: nat, s: State) returns (s': State)
    requires v.Binary? && Flows(c, i, EmitValue(t, v, n).code, s)
    ensures Computes(c, s, s', RunValue(t, v, s.cs), i + |EmitValue(t, v, n).code|)
    decreases v, 3
  {
    hide At, Reaches, Find, Stuck, Unique, Meets, PushAcc, Combine, EmitValue, RunValue;
    var a := EmitValue(t, v.lhs, n);
    var b := EmitValue(t, v.rhs, a.next);
    var r := RunValue(t, v.lhs, s.cs);
    BinaryCode(t, v, n);
    BinaryRun(t, v, s.cs);
    AtCat(c, i, a.code, PushAcc(t) + (b.code + Combine(t)));
    AtCat(c, i + |a.code|, PushAcc(t), b.code + Combine(t));
    AtCat(c, i + |a.code| + |PushAcc(t)|, b.code, Combine(t));
    var u := ValueFlows(t, v.lhs, n, c, i, s);
    if r.kind.Stopped? {
      s' := u;
      Stopping(c, s, s', r, i + |a.code|, i + |EmitValue(t, v, n).code|);
      Halted(c, s, s', r, i + |EmitValue(t, v, n).code|);
    } else {
      var j := i + |a.code| + |PushAcc(t)|;
      MeetsAt(c, s, u, r, i + |a.code|);
      var w := PushFlows(t, c, i + |a.code|, u);
      var x := ValueFlows(t, v.rhs, a.next, c, j, w);
      var q := RunValue(t, v.rhs, r.cs);
      After(c, u, w, x, q, j + |b.code|);
      Chain(c, s, u, x, r, q, i + |a.code|, j + |b.code|);
      s' := Combined(t, c, s, x, Then(r, q), j + |b.code|);
    }
  }

  lemma BinaryCode(t: Target, v: Value, n: nat)
    requires v.Binary?
    ensures var a := EmitValue(t, v.lhs, n);
      var b := EmitValue(t, v.rhs, a.next);
      EmitValue(t, v, n) == Emitted(a.code + (PushAcc(t) + (b.code + Combine(t))), b.next)
  {
  }

  lemma BinaryRun(t: Target, v: Value, cs: seq<bool>)
    requires v.Binary?
    ensures var r := RunValue(t, v.lhs, cs);
      RunValue(t, v, cs) == if r.kind.Normal? then Forget(Then(r, RunValue(t, v.rhs, r.cs))) else r
  {
  }

  lemma MeetsAt(c: seq<Op>, s: State, u: State, r: Run, mid: nat)
    requires Meets(c, s, u, r, mid) && !r.kind.Stopped?
    ensures u.pc == mid && u.cs == r.cs && u.calls == s.calls + r.calls
  {
  }

  lemma Combined(t: Target, c: seq<Op>, s: State, u: State, r: Run, mid: nat) returns (s': State)
    requires Meets(c, s, u, r, mid) && (r.kind.Normal? || r.kind.Stopped?) && At(c, mid, Combine(t))
    ensures Computes(c, s, s', Forget(r), mid + |Combine(t)|)
  {
    hide Reaches, At, Stuck, Combine;
    if r.kind.Stopped? {
      s' := u;
    } else {
      s' := CombineFlows(t, c, mid, u);
      Before(c, s, u, s', r, mid, mid + |Combine(t)|);
    }
  }

  // ---- logical operators ----

  function LogicExits(isAnd: bool, short: Label, end: Label): seq<Op> {
    [SetAcc(isAnd), Jump(end), Def(short), SetAcc(!isAnd), Def(end)]
  }

  lemma LogicalCode(t: Target, v: Value, n: nat)
    requires v.Logical?
    ensures var short, end := Numbered(ShortPrefix(v.isAnd), n), Numbered(I386.LogicEnd, n + 1);
      var a := EmitValue(t, v.lhs, n + 2);
      var b := EmitValue(t, v.rhs, a.next);
      var test := [TestAcc, Branch(short, v.isAnd)];
      EmitValue(t, v, n) ==
        Emitted(a.code + (test + (b.code + (test + LogicExits(v.isAnd, short, end)))), b.next)
  {
  }

  /** Both exits lead to the end, with the truth value that brought control there. */
  lemma ExitsFlow(c: seq<Op>, i: nat, isAnd: bool, short: Label, end: Label, jumped: bool, s: State)
      returns (s': State)
    requires At(c, i, LogicExits(isAnd, short, end)) && Unique(c) && s.pc == if jumped then Find(c, short) else i
    ensures Reaches(c, s, s') && Came(s, s', i + 5) && s'.acc == Known(isAnd != jumped)
  {
    hide Reaches, Find, Unique;
    var exits := LogicExits(isAnd, short, end);
    AtEach(c, i, exits);
    assert c[i] == exits[0] && c[i + 1] == exits[1] && c[i + 2] == exits[2];
    assert c[i + 3] == exits[3] && c[i + 4] == exits[4];
    FindAt(c, short, i + 2);
    FindAt(c, end, i + 4);
    var u := Next(c, s);
    OneStep(c, s);
    var w := Next(c, u);
    OneStep(c, u);
    Onwards(c, s, u, w);
    s' := Next(c, w);
    OneStep(c, w);
    Onwards(c, s, w, s');
  }

  lemma LogicalFlows(t: Target, v: Value, n: nat, c: seq<Op>, i: nat, s: State) returns (s': State)
    requires v.Logical? && Flows(c, i, EmitValue(t, v, n).code, s)
    ensures Computes(c, s, s', RunValue(t, v, s.cs), i + |EmitValue(t, v, n).code|)
    decreases v, 3
  {
    hide At, Reaches, Find, Stuck, Unique, Meets, LogicExits, EmitValue, RunValue;
    var short, end := Numbered(ShortPrefix(v.isAnd), n), Numbered(I386.LogicEnd, n + 1);
    var a := EmitValue(t, v.lhs, n + 2);
    var b := EmitValue(t, v.rhs, a.next);
    var test, exits := [TestAcc, Branch(short, v.isAnd)], LogicExits(v.isAnd, short, end);
    LogicalCode(t, v, n);
    var j := i + |a.code|;
    var k := j + 2 + |b.code|;
    AtCat(c, i, a.code, test + (b.code + (test + exits)));
    AtCat(c, j, test, b.code + (test + exits));
    AtCat(c, j + 2, b.code, test + exits);
    AtCat(c, k, test, exits);
    ExitsLength(v.isAnd, short, end);
    var r := RunValue(t, v.lhs, s.cs);
    var u := ValueFlows(t, v.lhs, n + 2, c, i, s);
    var w := Tested(c, s, u, r, j, short, v.isAnd);
    var d := Decided(r);
    LogicalRun(t, v, s.cs);
    if d.kind.Stopped? {
      s' := w;
      var at := if d.acc.Known? && d.acc.value != v.isAnd then Find(c, short) else j + 2;
      Stopping(c, s, w, d, at, i + |EmitValue(t, v, n).code|);
      Halted(c, s, w, d, i + |EmitValue(t, v, n).code|);
    } else if d.acc.value != v.isAnd {
      s' := Exited(c, s, w, d, k + 2, v.isAnd, short, end);
    } else {
      s' := SecondFlows(t, v, a.next, short, end, c, j + 2, s, w, d);
    }
  }

  lemma LogicalRun(t: Target, v: Value, cs: seq<bool>)
    requires v.Logical?
    ensures var d := Decided(RunValue(t, v.lhs, cs));
      && (d.kind.Normal? ==> d.acc.Known?)
      && RunValue(t, v, cs) ==
         if d.kind.Normal? && d.acc.value == v.isAnd then Then(d, Decided(RunValue(t, v.rhs, d.cs))) else d
  {
  }

  /** The right operand, its test, and the exits. */
  lemma SecondFlows(t: Target, v: Value, n: nat, short: Label, end: Label, c: seq<Op>, j: nat, s: State, w: State,
                    d: Run) returns (s': State)
    requires v.Logical? && Unique(c) && d.kind.Normal? && Meets(c, s, w, d, j)
    requires At(c, j, EmitValue(t, v.rhs, n).code
      + ([TestAcc, Branch(short, v.isAnd)] + LogicExits(v.isAnd, short, end)))
    ensures Computes(c, s, s', Then(d, Decided(RunValue(t, v.rhs, d.cs))), j + |EmitValue(t, v.rhs, n).code| + 7)
    decreases v, 2
  {
    hide At, Reaches, Find, Stuck, Unique, Meets, LogicExits, EmitValue, RunValue;
    var b := EmitValue(t, v.rhs, n);
    var test, exits := [TestAcc, Branch(short, v.isAnd)], LogicExits(v.isAnd, short, end);
    var k := j + |b.code|;
    AtCat(c, j, b.code, test + exits);
    AtCat(c, k, test, exits);
    MeetsAt(c, s, w, d, j);
    var q := RunValue(t, v.rhs, d.cs);
    var x := ValueFlows(t, v.rhs, n, c, j, w);
    var y := Tested(c, w, x, q, k, short, v.isAnd);
    var e := Decided(q);
    var at := if e.acc.Known? && e.acc.value != v.isAnd then Find(c, short) else k + 2;
    Chain(c, s, w, y, d, e, j, at);
    if e.kind.Stopped? {
      s' := y;
      Stopping(c, s, y, Then(d, e), at, k + 7);
      Halted(c, s, y, Then(d, e), k + 7);
    } else {
      s' := Exited(c, s, y, Then(d, e), k + 2, v.isAnd, short, end);
    }
  }

  lemma ExitsLength(isAnd: bool, short: Label, end: Label)
    ensures |LogicExits(isAnd, short, end)| == 5
  {
  }

  lemma Exited(c: seq<Op>, s: State, u: State, r: Run, i: nat, isAnd: bool, short: Label, end: Label)
      returns (s': State)
    requires At(c, i, LogicExits(isAnd, short, end)) && Unique(c) && r.kind.Normal? && r.acc.Known?
    requires Meets(c, s, u, r, if r.acc.value != isAnd then Find(c, short) else i)
    ensures Computes(c, s, s', r, i + 5)
  {
    hide At, Reaches, Find, Unique, LogicExits;
    s' := ExitsFlow(c, i, isAnd, short, end, r.acc.value != isAnd, u);
    Before(c, s, u, s', r, u.pc, i + 5);
  }

  // ---- chunks, literals and calls ----

  lemma ChunkFlows(t: Target, v: Value, k: nat, n: nat, c: seq<Op>, i: nat, s: State) returns (s': State)
    requires Flows(c, i, EmitChunk(t, v, k, n).code, s)
    ensures Computes(c, s, s', RunChunk(t, v, k, s.cs), i + |EmitChunk(t, v, k, n).code|)
    decreases v, 5
  {
    hide At, Reaches, Find, Stuck, Unique, Meets, EmitValue, EmitLiteralChunk;
    if v.Literal? { s' := LiteralFlows(t, v, k, n, c, i, s); }
    else if k == 0 { s' := ValueFlows(t, v, n, c, i, s); }
    else { s' := LeafFlows(c, i, s); }
  }

  lemma LiteralFlows(t: Target, v: Value, k: nat, n: nat, c: seq<Op>, i: nat, s: State) returns (s': State)
    requires v.Literal? && Flows(c, i, EmitLiteralChunk(t, v, k, n).code, s)
    ensures Computes(c, s, s', RunLiteral(t, v, k, s.cs), i + |EmitLiteralChunk(t, v, k, n).code|)
    decreases v, 3
  {
    hide At, Reaches, Find, Stuck, Unique, Meets, EmitFields;
    var r := EmitFields(t, v.fields, k, n);
    var tag := if v.isEnum && k == 0 then PushAcc(t) + ([Plain] + (PopTo(t) + [Plain])) else [];
    var front := [Plain] + tag;
    assert front + r.code == [Plain] + (tag + r.code);
    AtCat(c, i, front, r.code);
    var u := SimpleFlows(c, i, front, s);
    s' := FieldsFlow(t, v.fields, k, n, c, i + |front|, u);
    After(c, s, u, s', RunFields(t, v.fields, k, s.cs), i + |front| + |r.code|);
  }

  lemma FieldsFlow(t: Target, fields: seq<Field>, k: nat, n: nat, c: seq<Op>, i: nat, s: State) returns (s': State)
    requires Flows(c, i, EmitFields(t, fields, k, n).code, s) && s.acc.Unknown?
    ensures Computes(c, s, s', RunFields(t, fields, k, s.cs), i + |EmitFields(t, fields, k, n).code|)
    decreases fields, 2
  {
    hide At, Reaches, Find, Stuck, Unique, EmitField;
    if fields == [] {
      s' := s;
      Stays(c, s);
    } else {
      var a := EmitField(t, fields[0], k, n);
      var b := EmitFields(t, fields[1..], k, a.next);
      AtCat(c, i, a.code, b.code);
      var r := RunField(t, fields[0], k, s.cs);
      var u := FieldFlows(t, fields[0], k, n, c, i, s);
      if r.kind.Stopped? {
        s' := u;
      } else {
        s' := FieldsFlow(t, fields[1..], k, a.next, c, i + |a.code|, u);
        Chain(c, s, u, s', r, RunFields(t, fields[1..], k, r.cs), i + |a.code|, i + |a.code| + |b.code|);
      }
    }
  }

  lemma FieldFlows(t: Target, f: Field, k: nat, n: nat, c: seq<Op>, i: nat, s: State) returns (s': State)
    requires Flows(c, i, EmitField(t, f, k, n).code, s) && s.acc.Unknown?
    ensures Computes(c, s, s', RunField(t, f, k, s.cs), i + |EmitField(t, f, k, n).code|)
    decreases f, 0
  {
    hide At, Reaches, Find, Stuck, Unique, EmitValue, Combine, PushAcc;
    if f.offset / Word(t) != k {
      s' := s;
      Stays(c, s);
    } else {
      var r := EmitValue(t, f.value, n);
      FieldCode(t, f, k, n);
      AtCat(c, i, PushAcc(t), r.code + Combine(t));
      var j := i + |PushAcc(t)|;
      AtCat(c, j, r.code, Combine(t));
      var u := PushFlows(t, c, i, s);
      var w := ValueFlows(t, f.value, n, c, j, u);
      var q := RunValue(t, f.value, s.cs);
      After(c, s, u, w, q, j + |r.code|);
      s' := Combined(t, c, s, w, q, j + |r.code|);
    }
  }

  lemma FieldCode(t: Target, f: Field, k: nat, n: nat)
    requires f.offset / Word(t) == k
    ensures var r := EmitValue(t, f.value, n);
      EmitField(t, f, k, n) == Emitted(PushAcc(t) + (r.code + Combine(t)), r.next)
  {
  }

  /** The code of a call: padding, arguments, pops into registers, call and cleanup. */
  lemma CallCodeIs(t: Target, v: Value, n: nat) returns (pad: seq<Op>, pops: seq<Op>, call: Op, clean: seq<Op>)
    requires v.Call?
    ensures var a := EmitPushed(t, v.args, |v.args|, false, n);
      var b := EmitPushed(t, v.args, |v.args|, true, a.next);
      EmitCallOf(t, v, n).code == pad + (a.code + (b.code + (pops + ([call] + clean))))
    ensures call.CallTo? && call.callee == v.callee
    ensures (forall k :: 0 <= k < |pad| ==> Simple(pad[k])) && (forall k :: 0 <= k < |pops| ==> Simple(pops[k]))
    ensures forall k :: 0 <= k < |clean| ==> clean[k].RaiseSp?
  {
    hide EmitPushed, RegistersBefore, StackBefore, Padding, CleanupBytes;
    var ns := ArgChunks(t, v.args);
    pad := if Padding(t, ns) > 0 then [LowerSp(Padding(t, ns))] else [];
    clean := if CleanupBytes(t, ns) > 0 then [RaiseSp(CleanupBytes(t, ns))] else [];
    pops := PopsInto(t, RegistersBefore(t, ns, |ns|));
    call := CallTo(v.callee, PushBytes(t) * StackBefore(t, ns, |ns|));
    SimplePops(t, RegistersBefore(t, ns, |ns|));
  }

  lemma {:induction false} SimplePops(t: Target, k: nat)
    ensures forall i :: 0 <= i < |PopsInto(t, k)| ==> Simple(PopsInto(t, k)[i])
  {
    if k > 0 { SimplePops(t, k - 1); }
  }

  lemma CallFlows(t: Target, v: Value, n: nat, c: seq<Op>, i: nat, s: State) returns (s': State)
    requires v.Call? && Flows(c, i, EmitCallOf(t, v, n).code, s)
    ensures Computes(c, s, s', RunCall(t, v, s.cs), i + |EmitCallOf(t, v, n).code|)
    decreases v, 3
  {
    hide At, Reaches, Find, Stuck, Unique, Meets, EmitPushed, EmitCallOf, RunArguments;
    var a := EmitPushed(t, v.args, |v.args|, false, n);
    var b := EmitPushed(t, v.args, |v.args|, true, a.next);
    var pad, pops, call, clean := CallCodeIs(t, v, n);
    var last := pops + ([call] + clean);
    AtCat(c, i, pad, a.code + (b.code + last));
    AtCat(c, i + |pad|, a.code, b.code + last);
    var j := i + |pad| + |a.code|;
    AtCat(c, j, b.code, last);
    var k := j + |b.code|;
    var p := RunArguments(t, v.args, |v.args|, false, s.cs);
    var u := SimpleFlows(c, i, pad, s);
    var w := PushedFlow(t, v.args, |v.args|, false, n, c, i + |pad|, u);
    After(c, s, u, w, p, j);
    if p.kind.Stopped? {
      s' := w;
      Stopping(c, s, w, p, j, k + |last|);
      Halted(c, s, w, p, k + |last|);
    } else {
      MeetsAt(c, s, w, p, j);
      var q := RunArguments(t, v.args, |v.args|, true, p.cs);
      var x := PushedFlow(t, v.args, |v.args|, true, a.next, c, j, w);
      Chain(c, s, w, x, p, q, j, k);
      if q.kind.Stopped? {
        s' := x;
        Stopping(c, s, x, Then(p, q), k, k + |last|);
        Halted(c, s, x, Then(p, q), k + |last|);
      } else {
        s' := Called(c, s, x, Then(p, q), k, pops, call, clean);
        assert (p.calls + q.calls) + [v.callee] == p.calls + (q.calls + [v.callee]);
      }
    }
  }

  lemma Nothing(c: seq<Op>, s: State)
    ensures Meets(c, s, s, Done(s.cs), s.pc)
  {
    Stays(c, s);
  }

  lemma Halted(c: seq<Op>, s: State, s': State, r: Run, at: nat)
    requires Meets(c, s, s', r, at) && r.kind.Stopped?
    ensures Computes(c, s, s', r, at)
  {
  }

  lemma Called(c: seq<Op>, s: State, u: State, r: Run, i: nat, pops: seq<Op>, call: Op, clean: seq<Op>)
      returns (s': State)
    requires At(c, i, pops + ([call] + clean)) && Meets(c, s, u, r, i) && r.kind.Normal? && call.CallTo?
    requires (forall k :: 0 <= k < |pops| ==> Simple(pops[k])) && forall k :: 0 <= k < |clean| ==> clean[k].RaiseSp?
    ensures Computes(c, s, s', Run(Normal, Unknown, r.cs, r.calls + [call.callee]), i + |pops + ([call] + clean)|)
  {
    hide At, Reaches, Find, Stuck;
    AtCat(c, i, pops, [call] + clean);
    AtCat(c, i + |pops|, [call], clean);
    AtEach(c, i + |pops|, [call]);
    var w := SimpleFlows(c, i, pops, u);
    Onwards(c, s, u, w);
    var x := CallStep(c, w, call);
    Onwards(c, s, w, x);
    s' := RaiseFlows(c, i + |pops| + 1, clean, x);
    Onwards(c, s, x, s');
    assert (s.calls + r.calls) + [call.callee] == s.calls + (r.calls + [call.callee]);
  }

  lemma CallStep(c: seq<Op>, s: State, call: Op) returns (s': State)
    requires s.pc < |c| && c[s.pc] == call && call.CallTo?
    ensures Reaches(c, s, s') && s'.pc == s.pc + 1 && s'.cs == s.cs && s'.calls == s.calls + [call.callee]
    ensures s'.acc.Unknown?
  {
    hide Reaches;
    OneStep(c, s);
    s' := Next(c, s);
  }

  lemma {:induction false} RaiseFlows(c: seq<Op>, i: nat, code: seq<Op>, s: State) returns (s': State)
    requires At(c, i, code) && s.pc == i && forall k :: 0 <= k < |code| ==> code[k].RaiseSp?
    ensures Reaches(c, s, s') && Came(s, s', i + |code|) && s'.acc == s.acc
    decreases |code|
  {
    hide Reaches;
    if code == [] {
      s' := s;
      Stays(c, s);
    } else {
      AtEach(c, i, code);
      assert code == [code[0]] + code[1..];
      AtCat(c, i, [code[0]], code[1..]);
      OneStep(c, s);
      var u := Next(c, s);
      s' := RaiseFlows(c, i + 1, code[1..], u);
      Onwards(c, s, u, s');
    }
  }

  lemma PushedFlow(t: Target, args: seq<Value>, k: nat, wanted: bool, n: nat, c: seq<Op>, i: nat, s: State)
      returns (s': State)
    requires k <= |args| && Flows(c, i, EmitPushed(t, args, k, wanted, n).code, s)
    ensures Meets(c, s, s', RunArguments(t, args, k, wanted, s.cs), i + |EmitPushed(t, args, k, wanted, n).code|)
    decreases args, 2, k
  {
    hide At, Reaches, Find, Stuck, Unique, EmitChunksDown, RunChunksDown, InRegisters, ArgChunks, Meets;
    if k == 0 {
      s' := s;
      Nothing(c, s);
    } else if InRegisters(t, ArgChunks(t, args), k - 1) != wanted {
      s' := PushedFlow(t, args, k - 1, wanted, n, c, i, s);
    } else {
      var m := Chunks(t, args[k - 1].size);
      var a := EmitChunksDown(t, args[k - 1], m, n);
      var b := EmitPushed(t, args, k - 1, wanted, a.next);
      AtCat(c, i, a.code, b.code);
      var r := RunChunksDown(t, args[k - 1], m, s.cs);
      var u := ChunksDownFlow(t, args[k - 1], m, n, c, i, s);
      if r.kind.Stopped? {
        s' := u;
        Stopping(c, s, u, r, i + |a.code|, i + |a.code| + |b.code|);
      } else {
        MeetsAt(c, s, u, r, i + |a.code|);
        s' := PushedFlow(t, args, k - 1, wanted, a.next, c, i + |a.code|, u);
        Chain(c, s, u, s', r, RunArguments(t, args, k - 1, wanted, r.cs), i + |a.code|, i + |a.code| + |b.code|);
      }
    }
  }

  lemma ChunksDownFlow(t: Target, v: Value, k: nat, n: nat, c: seq<Op>, i: nat, s: State) returns (s': State)
    requires Flows(c, i, EmitChunksDown(t, v, k, n).code, s)
    ensures Meets(c, s, s', RunChunksDown(t, v, k, s.cs), i + |EmitChunksDown(t, v, k, n).code|)
    decreases v, 6, k
  {
    hide At, Reaches, Find, Stuck, Unique, EmitChunk, RunChunk, PushAcc, Meets;
    if k == 0 {
      s' := s;
      Nothing(c, s);
    } else {
      var a := EmitChunk(t, v, k - 1, n);
      var b := EmitChunksDown(t, v, k - 1, a.next);
      AtCat(c, i, a.code + PushAcc(t), b.code);
      AtCat(c, i, a.code, PushAcc(t));
      var r := RunChunk(t, v, k - 1, s.cs);
      var u := ChunkFlows(t, v, k - 1, n, c, i, s);
      if r.kind.Stopped? {
        s' := u;
        Stopping(c, s, u, r, i + |a.code|, i + |EmitChunksDown(t, v, k, n).code|);
      } else {
        var j := i + |a.code + PushAcc(t)|;
        MeetsAt(c, s, u, r, i + |a.code|);
        var w := PushFlows(t, c, i + |a.code|, u);
        Before(c, s, u, w, r, i + |a.code|, j);
        MeetsAt(c, s, w, r, j);
        s' := ChunksDownFlow(t, v, k - 1, a.next, c, j, w);
        Chain(c, s, w, s', r, RunChunksDown(t, v, k - 1, r.cs), j, j + |b.code|);
      }
    }
  }

  // ---- values in statements ----

  lemma {:induction false} ChunksUpFlow(t: Target, v: Value, k: nat, m: nat, n: nat, c: seq<Op>, i: nat, s: State)
      returns (s': State)
    requires Flows(c, i, EmitChunksUp(t, v, k, m, n).code, s)
    ensures Meets(c, s, s', RunChunksUp(t, v, k, m, s.cs), i + |EmitChunksUp(t, v, k, m, n).code|)
    decreases m - k, 0
  {
    hide At, Reaches, Find, Stuck, Unique, EmitChunk, RunChunk, Meets;
    if k >= m {
      s' := s;
      Nothing(c, s);
    } else {
      var a := EmitChunk(t, v, k, n);
      var b := EmitChunksUp(t, v, k + 1, m, a.next);
      AtCat(c, i, a.code + [Plain], b.code);
      AtCat(c, i, a.code, [Plain]);
      var r := RunChunk(t, v, k, s.cs);
      var u := ChunkFlows(t, v, k, n, c, i, s);
      var at := i + |a.code| + 1 + |b.code|;
      if r.kind.Stopped? {
        s' := u;
        Stopping(c, s, u, r, i + |a.code|, at);
      } else {
        s' := ChunksUpRest(t, v, k, m, a, c, i, s, u, r);
      }
    }
  }

  lemma ChunksUpRest(t: Target, v: Value, k: nat, m: nat, a: Emitted, c: seq<Op>, i: nat, s: State, u: State, r: Run)
      returns (s': State)
    requires k < m && Meets(c, s, u, r, i + |a.code|) && !r.kind.Stopped? && Unique(c)
    requires At(c, i + |a.code|, [Plain]) && At(c, i + |a.code| + 1, EmitChunksUp(t, v, k + 1, m, a.next).code)
    ensures Meets(c, s, s', Then(r, RunChunksUp(t, v, k + 1, m, r.cs)),
                  i + |a.code| + 1 + |EmitChunksUp(t, v, k + 1, m, a.next).code|)
    decreases m - k - 1, 1
  {
    hide At, Reaches, Find, Stuck, Unique, EmitChunksUp, RunChunksUp, Meets;
    var j := i + |a.code|;
    MeetsAt(c, s, u, r, j);
    var w := PlainFlows(c, j, u);
    Before(c, s, u, w, r, j, j + 1);
    s' := ChunksUpFlow(t, v, k + 1, m, a.next, c, j + 1, w);
    Chain(c, s, w, s', r, RunChunksUp(t, v, k + 1, m, r.cs), j + 1,
          j + 1 + |EmitChunksUp(t, v, k + 1, m, a.next).code|);
  }

  /** A value and a plain instruction. */
  lemma StoredFlows(t: Target, v: Value, n: nat, c: seq<Op>, i: nat, s: State) returns (s': State)
    requires Flows(c, i, EmitValue(t, v, n).code + [Plain], s)
    ensures Meets(c, s, s', Forget(RunValue(t, v, s.cs)), i + |EmitValue(t, v, n).code| + 1)
  {
    hide At, Reaches, Find, Stuck, Unique, EmitValue, RunValue, Meets;
    var r, j := Forget(RunValue(t, v, s.cs)), i + |EmitValue(t, v, n).code|;
    AtCat(c, i, EmitValue(t, v, n).code, [Plain]);
    var u := ValueFlows(t, v, n, c, i, s);
    MeetsForget(c, s, u, RunValue(t, v, s.cs), j);
    if r.kind.Stopped? {
      s' := u;
      Stopping(c, s, u, r, j, j + 1);
    } else {
      MeetsAt(c, s, u, r, j);
      s' := PlainFlows(c, j, u);
      Before(c, s, u, s', r, j, j + 1);
    }
  }

  lemma MeetsForget(c: seq<Op>, s: State, s': State, r: Run, at: nat)
    requires Meets(c, s, s', r, at)
    ensures Meets(c, s, s', Forget(r), at)
  {
  }

  lemma ToSlotsFlow(t: Target, v: Value, n: nat, c: seq<Op>, i: nat, s: State) returns (s': State)
    requires Flows(c, i, EmitToSlots(t, v, n).code, s)
    ensures Meets(c, s, s', RunToSlots(t, v, s.cs), i + |EmitToSlots(t, v, n).code|)
  {
    hide At, Reaches, Find, Stuck, Unique, EmitValue, RunValue, Meets, EmitChunksUp, RunChunksUp, Chunks;
    if t.Arm64? && v.Call? && Chunks(t, v.size) == 2 { s' := StoredFlows(t, v, n, c, i, s); }
    else { s' := ChunksUpFlow(t, v, 0, Chunks(t, v.size), n, c, i, s); }
  }

  /** A returned value: later chunks while the first one waits on the stack. */
  lemma ReturnedFlow(t: Target, v: Value, n: nat, c: seq<Op>, i: nat, s: State) returns (s': State)
    requires Flows(c, i, EmitReturned(t, v, n).code, s)
    ensures Meets(c, s, s', RunReturned(t, v, s.cs), i + |EmitReturned(t, v, n).code|)
  {
    hide At, Reaches, Find, Stuck, Unique, EmitValue, RunValue, Meets, EmitChunksUp, RunChunksUp, Chunks, EmitChunk,
      RunChunk, PushAcc, PopTo;
    var k := Chunks(t, v.size);
    if t.X64? || k == 1 {
      s' := ValueFlows(t, v, n, c, i, s);
    } else {
      var a := EmitChunk(t, v, 0, n);
      var b := EmitChunksUp(t, v, 1, k, a.next);
      AtCat(c, i, a.code, PushAcc(t) + (b.code + PopTo(t)));
      var r := RunChunk(t, v, 0, s.cs);
      var u := ChunkFlows(t, v, 0, n, c, i, s);
      if r.kind.Stopped? {
        s' := u;
        Stopping(c, s, u, r, i + |a.code|, i + |EmitReturned(t, v, n).code|);
      } else {
        s' := SavedFlow(t, v, k, a, c, i, s, u, r);
      }
    }
  }

  lemma SavedFlow(t: Target, v: Value, k: nat, a: Emitted, c: seq<Op>, i: nat, s: State, u: State, r: Run)
      returns (s': State)
    requires Meets(c, s, u, r, i + |a.code|) && !r.kind.Stopped? && Unique(c)
    requires At(c, i + |a.code|, PushAcc(t) + (EmitChunksUp(t, v, 1, k, a.next).code + PopTo(t)))
    ensures Meets(c, s, s', Then(r, RunChunksUp(t, v, 1, k, r.cs)),
                  i + |a.code + (PushAcc(t) + (EmitChunksUp(t, v, 1, k, a.next).code + PopTo(t)))|)
  {
    hide At, Reaches, Find, Stuck, Unique, Meets, EmitChunksUp, RunChunksUp, PushAcc, PopTo;
    var b, q := EmitChunksUp(t, v, 1, k, a.next), RunChunksUp(t, v, 1, k, r.cs);
    var j := i + |a.code|;
    var l := j + |PushAcc(t)|;
    AtCat(c, j, PushAcc(t), b.code + PopTo(t));
    AtCat(c, l, b.code, PopTo(t));
    MeetsAt(c, s, u, r, j);
    var w := PushFlows(t, c, j, u);
    Before(c, s, u, w, r, j, l);
    var x := ChunksUpFlow(t, v, 1, k, a.next, c, l, w);
    Chain(c, s, w, x, r, q, l, l + |b.code|);
    if q.kind.Stopped? {
      s' := x;
      Stopping(c, s, x, Then(r, q), l + |b.code|, l + |b.code| + |PopTo(t)|);
    } else {
      MeetsAt(c, s, x, Then(r, q), l + |b.code|);
      s' := PopFlows(t, c, l + |b.code|, x);
      Before(c, s, x, s', Then(r, q), l + |b.code|, l + |b.code| + |PopTo(t)|);
    }
  }

  // ---- statements ----

  /** Where control is after a run: behind the code, at one of the labels of the
      innermost loop, or at the return label. */
  function Place(c: seq<Op>, kind: Kind, at: nat, lo: Loop, ret: Label): nat {
    match kind
    case Normal => at
    case Broke => Find(c, EndLabel(lo))
    case Continued => Find(c, StartLabel(lo))
    case Returned => Find(c, ret)
    case Stopped => at
  }

  lemma DefFlows(c: seq<Op>, i: nat, l: Label, s: State) returns (s': State)
    requires At(c, i, [Def(l)]) && s.pc == i
    ensures Reaches(c, s, s') && Came(s, s', i + 1)
  {
    s' := SimpleFlows(c, i, [Def(l)], s);
  }

  lemma DefAt(c: seq<Op>, i: nat, l: Label)
    requires At(c, i, [Def(l)]) && Unique(c)
    ensures Find(c, l) == i
  {
    AtEach(c, i, [Def(l)]);
    FindAt(c, l, i);
  }

  /** What a run that completes does next; any other run is where it goes already. */
  lemma Joined(c: seq<Op>, s: State, u: State, s': State, r: Run, mid: nat, at: nat, lo: Loop, ret: Label)
    requires Meets(c, s, u, r, Place(c, r.kind, mid, lo, ret))
    requires if r.kind.Normal? then Reaches(c, u, s') && Came(u, s', at) else s' == u
    ensures Meets(c, s, s', r, Place(c, r.kind, at, lo, ret))
  {
    hide Reaches, Find, Stuck;
    if r.kind.Normal? { Before(c, s, u, s', r, mid, at); }
  }

  lemma {:induction false} StmtFlows(t: Target, st: Stmt, n: nat, lo: Loop, ret: Label, c: seq<Op>, i: nat, s: State)
      returns (s': State)
    requires Flows(c, i, EmitStmt(t, st, n, lo, ret).code, s)
    ensures var r := RunStmt(t, st, s.cs);
      Meets(c, s, s', r, Place(c, r.kind, i + |EmitStmt(t, st, n, lo, ret).code|, lo, ret))
    decreases |s.cs|, st, 3
  {
    hide At, Reaches, Find, Stuck, Unique, Meets, EmitValue, RunValue, EmitToSlots, RunToSlots, EmitChunksUp,
      RunChunksUp, EmitReturned, RunReturned, Chunks, EmitIf, EmitWhile, EmitFor, EmitMatch, RunLoop, Choose, RunBody,
      EmitBody;
    if Refused(t, st) {
      s' := s;
      Nothing(c, s);
      return;
    }
    match st
    case Let(v) => s' := ToSlotsFlow(t, v, n, c, i, s);
    case Assign(isLocal, v) =>
      if isLocal && !t.Arm64? { s' := ChunksUpFlow(t, v, 0, Chunks(t, v.size), n, c, i, s); }
      else { s' := StoredFlows(t, v, n, c, i, s); }
    case Store(v, target) => s' := StoreFlows(t, v, target, n, c, i, s);
    case Expr(v) => s' := ValueFlows(t, v, n, c, i, s);
    case If(_, _, _) => s' := IfFlows(t, st, n, lo, ret, c, i, s);
    case While(_, _) => s' := WhileFlows(t, st, n, lo, ret, c, i, s);
    case For(_, _, _, _) => s' := ForFlows(t, st, n, lo, ret, c, i, s);
    case Match(_, _) => s' := MatchFlows(t, st, n, lo, ret, c, i, s);
    case Break => s' := ExitFlows(c, i, EndLabel(lo), Broke, s);
    case Continue => s' := ExitFlows(c, i, StartLabel(lo), Continued, s);
    case Return(v) => s' := ReturnFlows(t, v, n, ret, c, i, s);
  }

  lemma ExitFlows(c: seq<Op>, i: nat, l: Label, kind: Kind, s: State) returns (s': State)
    requires Flows(c, i, [Jump(l)], s) && !kind.Stopped?
    ensures Meets(c, s, s', Run(kind, Unknown, s.cs, []), Find(c, l))
  {
    hide Reaches, Find;
    s' := JumpFlows(c, i, l, s);
  }

  lemma ReturnFlows(t: Target, v: Value, n: nat, ret: Label, c: seq<Op>, i: nat, s: State) returns (s': State)
    requires Flows(c, i, EmitReturned(t, v, n).code + [Jump(ret)], s)
    ensures var r := RunReturned(t, v, s.cs);
      Meets(c, s, s', if r.kind.Normal? then r.(kind := Returned) else r,
            if r.kind.Normal? then Find(c, ret) else i + |EmitReturned(t, v, n).code| + 1)
  {
    hide At, Reaches, Find, Stuck, Unique, Meets, EmitReturned, RunReturned;
    var r, j := RunReturned(t, v, s.cs), i + |EmitReturned(t, v, n).code|;
    AtCat(c, i, EmitReturned(t, v, n).code, [Jump(ret)]);
    var u := ReturnedFlow(t, v, n, c, i, s);
    if r.kind.Stopped? {
      s' := u;
      Stopping(c, s, u, r, j, j + 1);
    } else {
      MeetsAt(c, s, u, r, j);
      s' := JumpFlows(c, j, ret, u);
      Before(c, s, u, s', r, j, Find(c, ret));
    }
  }

  lemma StoreFlows(t: Target, v: Value, target: Value, n: nat, c: seq<Op>, i: nat, s: State) returns (s': State)
    requires Flows(c, i, EmitStmt(t, Store(v, target), n, NoLoop, ArmLabel(0)).code, s)
    ensures Meets(c, s, s', RunStmt(t, Store(v, target), s.cs),
                  i + |EmitStmt(t, Store(v, target), n, NoLoop, ArmLabel(0)).code|)
  {
    hide At, Reaches, Find, Stuck, Unique, Meets, EmitValue, RunValue, PushAcc, PopTo;
    var a := EmitValue(t, v, n);
    var b := EmitValue(t, target, a.next);
    var last := PopTo(t) + [Plain];
    var j, r := i + |a.code|, RunValue(t, v, s.cs);
    var k := j + |PushAcc(t)|;
    AtCat(c, i, a.code, PushAcc(t) + (b.code + last));
    AtCat(c, j, PushAcc(t), b.code + last);
    AtCat(c, k, b.code, last);
    var m := k + |b.code|;
    var u := ValueFlows(t, v, n, c, i, s);
    if r.kind.Stopped? {
      s' := u;
      Stopping(c, s, u, r, j, m + |last|);
    } else {
      MeetsAt(c, s, u, r, j);
      var w := PushFlows(t, c, j, u);
      Before(c, s, u, w, r, j, k);
      var q := RunValue(t, target, r.cs);
      var x := ValueFlows(t, target, a.next, c, k, w);
      Chain(c, s, w, x, r, q, k, m);
      s' := StoreEnds(t, c, m, s, x, Then(r, q));
    }
  }

  lemma StoreEnds(t: Target, c: seq<Op>, i: nat, s: State, u: State, r: Run) returns (s': State)
    requires Meets(c, s, u, r, i) && At(c, i, PopTo(t) + [Plain])
    ensures Meets(c, s, s', r, i + |PopTo(t)| + 1)
  {
    hide Reaches, At, Stuck;
    if r.kind.Stopped? {
      s' := u;
    } else {
      s' := SimpleFlows(c, i, PopTo(t) + [Plain], u);
      Before(c, s, u, s', r, i, i + |PopTo(t)| + 1);
    }
  }

  lemma IfFlows(t: Target, st: Stmt, n: nat, lo: Loop, ret: Label, c: seq<Op>, i: nat, s: State) returns (s': State)
    requires st.If? && !Refused(t, st) && Flows(c, i, EmitIf(t, st, n, lo, ret).code, s)
    ensures var r := RunStmt(t, st, s.cs);
      Meets(c, s, s', r, Place(c, r.kind, i + |EmitIf(t, st, n, lo, ret).code|, lo, ret))
    decreases |s.cs|, st, 2
  {
    hide At, Reaches, Find, Stuck, Unique, Meets, EmitValue, RunValue, EmitBody, RunBody, RunStmt;
    var other, end := Numbered(I386.Else, n), Numbered(I386.EndIf, n + 1);
    var v := EmitValue(t, st.cond, n + 2);
    var a := EmitBody(t, st.thenBody, v.next, lo, ret);
    var b := EmitBody(t, st.elseBody, a.next, lo, ret);
    var j, k, m := IfPlaces(c, i, v.code, a.code, b.code, other, end);
    var r := RunValue(t, st.cond, s.cs);
    var d := Decided(r);
    var u := ValueFlows(t, st.cond, n + 2, c, i, s);
    var w := Tested(c, s, u, r, j, other, true);
    IfRun(t, st, s.cs);
    if d.kind.Stopped? {
      s' := w;
      Stopping(c, s, w, d, if d.acc.Known? && d.acc.value != true then Find(c, other) else j + 2, m + 1);
    } else if d.acc.value {
      MeetsAt(c, s, w, d, j + 2);
      var q := RunBody(t, st.thenBody, d.cs);
      var x := BodyFlows(t, st.thenBody, v.next, lo, ret, c, j + 2, w);
      Chain(c, s, w, x, d, q, j + 2, Place(c, q.kind, k, lo, ret));
      s' := ThenEnds(c, s, x, Then(d, q), k, m, end, lo, ret);
    } else {
      MeetsAt(c, s, w, d, k + 1);
      var w' := DefFlows(c, k + 1, other, w);
      Before(c, s, w, w', d, k + 1, k + 2);
      var q := RunBody(t, st.elseBody, d.cs);
      var x := BodyFlows(t, st.elseBody, a.next, lo, ret, c, k + 2, w');
      Chain(c, s, w', x, d, q, k + 2, Place(c, q.kind, m, lo, ret));
      s' := ElseEnds(c, s, x, Then(d, q), m, end, lo, ret);
    }
  }

  lemma IfPlaces(c: seq<Op>, i: nat, v: seq<Op>, a: seq<Op>, b: seq<Op>, other: Label, end: Label)
      returns (j: nat, k: nat, m: nat)
    requires Unique(c)
    requires At(c, i, v + ([TestAcc, Branch(other, true)] + (a + ([Jump(end), Def(other)] + (b + [Def(end)])))))
    ensures j == i + |v| && k == j + 2 + |a| && m == k + 2 + |b|
    ensures At(c, i, v) && At(c, j, [TestAcc, Branch(other, true)]) && At(c, j + 2, a) && At(c, k, [Jump(end)])
    ensures At(c, k + 1, [Def(other)]) && At(c, k + 2, b) && At(c, m, [Def(end)])
    ensures Find(c, other) == k + 1 && Find(c, end) == m
  {
    hide At, Find, Unique;
    var test := [TestAcc, Branch(other, true)];
    j := i + |v|;
    k := j + 2 + |a|;
    m := k + 2 + |b|;
    AtCat(c, i, v, test + (a + ([Jump(end), Def(other)] + (b + [Def(end)]))));
    AtCat(c, j, test, a + ([Jump(end), Def(other)] + (b + [Def(end)])));
    AtCat(c, j + 2, a, [Jump(end), Def(other)] + (b + [Def(end)]));
    JumpDef(c, k, end, other, b + [Def(end)]);
    AtCat(c, k + 2, b, [Def(end)]);
    DefAt(c, k + 1, other);
    DefAt(c, m, end);
  }

  lemma ThenEnds(c: seq<Op>, s: State, x: State, r: Run, k: nat, m: nat, end: Label, lo: Loop, ret: Label)
      returns (s': State)
    requires Meets(c, s, x, r, Place(c, r.kind, k, lo, ret))
    requires At(c, k, [Jump(end)]) && At(c, m, [Def(end)]) && Find(c, end) == m
    ensures Meets(c, s, s', r, Place(c, r.kind, m + 1, lo, ret))
  {
    hide At, Reaches, Find, Stuck, Meets;
    s' := x;
    if r.kind.Normal? {
      MeetsAt(c, s, x, r, k);
      var y := JumpFlows(c, k, end, x);
      s' := DefFlows(c, m, end, y);
      Onwards(c, x, y, s');
    }
    Joined(c, s, x, s', r, k, m + 1, lo, ret);
  }

  lemma ElseEnds(c: seq<Op>, s: State, x: State, r: Run, m: nat, end: Label, lo: Loop, ret: Label)
      returns (s': State)
    requires Meets(c, s, x, r, Place(c, r.kind, m, lo, ret)) && At(c, m, [Def(end)])
    ensures Meets(c, s, s', r, Place(c, r.kind, m + 1, lo, ret))
  {
    hide At, Reaches, Find, Stuck, Meets;
    s' := x;
    if r.kind.Normal? {
      MeetsAt(c, s, x, r, m);
      s' := DefFlows(c, m, end, x);
    }
    Joined(c, s, x, s', r, m, m + 1, lo, ret);
  }

  lemma JumpDef(c: seq<Op>, i: nat, l: Label, l': Label, rest: seq<Op>)
    requires At(c, i, [Jump(l), Def(l')] + rest)
    ensures At(c, i, [Jump(l)]) && At(c, i + 1, [Def(l')]) && At(c, i + 2, rest)
  {
    hide At;
    AtCat(c, i, [Jump(l), Def(l')], rest);
    assert [Jump(l), Def(l')] == [Jump(l)] + [Def(l')];
    AtCat(c, i, [Jump(l)], [Def(l')]);
  }

  lemma IfRun(t: Target, st: Stmt, cs: seq<bool>)
    requires st.If? && !Refused(t, st)
    ensures var d := Decided(RunValue(t, st.cond, cs));
      && (d.kind.Normal? ==> d.acc.Known?) && (d.kind.Normal? || d.kind.Stopped?)
      && RunStmt(t, st, cs) ==
         if d.kind.Normal? then Then(d, RunBody(t, if d.acc.value then st.thenBody else st.elseBody, d.cs)) else d
  {
    hide RunValue, RunBody;
  }

  lemma BodyFlows(t: Target, body: seq<Stmt>, n: nat, lo: Loop, ret: Label, c: seq<Op>, i: nat, s: State)
      returns (s': State)
    requires Flows(c, i, EmitBody(t, body, n, lo, ret).code, s)
    ensures var r := RunBody(t, body, s.cs);
      Meets(c, s, s', r, Place(c, r.kind, i + |EmitBody(t, body, n, lo, ret).code|, lo, ret))
    decreases |s.cs|, body, 0
  {
    hide At, Reaches, Find, Stuck, Unique, Meets, EmitStmt, RunStmt;
    if body == [] {
      s' := s;
      Nothing(c, s);
    } else {
      var a := EmitStmt(t, body[0], n, lo, ret);
      var b := EmitBody(t, body[1..], a.next, lo, ret);
      AtCat(c, i, a.code, b.code);
      var r := RunStmt(t, body[0], s.cs);
      var u := StmtFlows(t, body[0], n, lo, ret, c, i, s);
      if r.kind.Normal? {
        MeetsAt(c, s, u, r, i + |a.code|);
        var q := RunBody(t, body[1..], r.cs);
        s' := BodyFlows(t, body[1..], a.next, lo, ret, c, i + |a.code|, u);
        Chain(c, s, u, s', r, q, i + |a.code|, Place(c, q.kind, i + |a.code| + |b.code|, lo, ret));
      } else {
        s' := u;
        Joined(c, s, u, u, r, i + |a.code|, i + |a.code| + |b.code|, lo, ret);
      }
    }
  }

  // ---- loops ----

  /** What happens in a round of a loop before its body. */
  lemma LoopRun(t: Target, st: Stmt, cs: seq<bool>)
    requires st.While? || st.For?
    ensures var d := Decided(RunValue(t, st.cond, cs));
      && (d.kind.Normal? ==> d.acc.Known?) && (d.kind.Normal? || d.kind.Stopped?)
      && (d.kind.Normal? && d.acc.value ==> |d.cs| < |cs|)
      && (!d.kind.Normal? || !d.acc.value ==> RunLoop(t, st, cs) == d)
  {
    hide RunValue, RunBody, RunStmt;
  }

  lemma WhileRun(t: Target, st: Stmt, cs: seq<bool>)
    requires st.While?
    requires var d := Decided(RunValue(t, st.cond, cs)); d.kind.Normal? && d.acc.Known? && d.acc.value
    ensures var d := Decided(RunValue(t, st.cond, cs));
      var b := RunBody(t, st.body, d.cs);
      RunLoop(t, st, cs) ==
        if b.kind.Broke? then Then(d, b.(kind := Normal))
        else if b.kind.Returned? || b.kind.Stopped? then Then(d, b)
        else Then(d, Then(b, RunLoop(t, st, b.cs)))
  {
    hide RunValue, RunBody;
  }

  lemma ThenThen(r: Run, q: Run, p: Run)
    ensures Then(Then(r, q), p) == Then(r, Then(q, p))
  {
  }

  lemma WhileFlows(t: Target, st: Stmt, n: nat, lo: Loop, ret: Label, c: seq<Op>, i: nat, s: State)
      returns (s': State)
    requires st.While? && Flows(c, i, EmitWhile(t, st, n, ret).code, s)
    ensures var r := RunLoop(t, st, s.cs);
      Meets(c, s, s', r, Place(c, r.kind, i + |EmitWhile(t, st, n, ret).code|, lo, ret))
    decreases |s.cs|, st, 2
  {
    hide At, Reaches, Find, Stuck, Unique, Meets, EmitValue, RunValue, EmitBody, RunBody, RunLoop;
    var start, end := Numbered(I386.WhileStart, n), Numbered(I386.WhileEnd, n + 1);
    var v := EmitValue(t, st.cond, n + 2);
    var b := EmitBody(t, st.body, v.next, InLoop(start, end), ret);
    var j, k := WhilePlaces(c, i, v.code, b.code, start, end);
    var r := RunValue(t, st.cond, s.cs);
    var d := Decided(r);
    var s0 := DefFlows(c, i, start, s);
    var u := ValueFlows(t, st.cond, n + 2, c, i + 1, s0);
    var w := Tested(c, s0, u, r, j, end, true);
    After(c, s, s0, w, d, if d.acc.Known? && d.acc.value != true then Find(c, end) else j + 2);
    LoopRun(t, st, s.cs);
    if d.kind.Stopped? {
      s' := w;
      Stopping(c, s, w, d, if d.acc.Known? && d.acc.value != true then Find(c, end) else j + 2, k + 2);
    } else if !d.acc.value {
      MeetsAt(c, s, w, d, k + 1);
      s' := DefFlows(c, k + 1, end, w);
      Before(c, s, w, s', d, k + 1, k + 2);
    } else {
      MeetsAt(c, s, w, d, j + 2);
      s' := RoundFlows(t, st, n, lo, ret, c, i, s, w, d, j + 2);
    }
  }

  lemma WhilePlaces(c: seq<Op>, i: nat, v: seq<Op>, b: seq<Op>, start: Label, end: Label) returns (j: nat, k: nat)
    requires Unique(c)
    requires At(c, i, [Def(start)] + (v + ([TestAcc, Branch(end, true)] + (b + [Jump(start), Def(end)]))))
    ensures j == i + 1 + |v| && k == j + 2 + |b|
    ensures At(c, i, [Def(start)]) && At(c, i + 1, v) && At(c, j, [TestAcc, Branch(end, true)]) && At(c, j + 2, b)
    ensures At(c, k, [Jump(start)]) && At(c, k + 1, [Def(end)]) && Find(c, start) == i && Find(c, end) == k + 1
  {
    hide At, Find, Unique;
    var test, last := [TestAcc, Branch(end, true)], [Jump(start), Def(end)];
    j := i + 1 + |v|;
    k := j + 2 + |b|;
    AtCat(c, i, [Def(start)], v + (test + (b + last)));
    AtCat(c, i + 1, v, test + (b + last));
    AtCat(c, j, test, b + last);
    AtCat(c, j + 2, b, last);
    assert last + [] == last;
    JumpDef(c, k, start, end, []);
    DefAt(c, i, start);
    DefAt(c, k + 1, end);
  }

  /** The body of a loop, and what comes after it. */
  lemma RoundFlows(t: Target, st: Stmt, n: nat, lo: Loop, ret: Label, c: seq<Op>, i: nat, s: State, w: State, d: Run,
                   j: nat) returns (s': State)
    requires st.While? && Flows(c, i, EmitWhile(t, st, n, ret).code, s)
    requires d == Decided(RunValue(t, st.cond, s.cs)) && d.kind.Normal? && d.acc.Known? && d.acc.value
    requires Meets(c, s, w, d, j) && |w.cs| < |s.cs|
    requires var v := EmitValue(t, st.cond, n + 2);
      var start, end := Numbered(I386.WhileStart, n), Numbered(I386.WhileEnd, n + 1);
      var b := EmitBody(t, st.body, v.next, InLoop(start, end), ret).code;
      && j == i + 1 + |v.code| + 2 && At(c, j, b) && At(c, j + |b|, [Jump(start)]) && At(c, j + |b| + 1, [Def(end)])
      && Find(c, start) == i && Find(c, end) == j + |b| + 1 && |EmitWhile(t, st, n, ret).code| == j + |b| + 2 - i
    ensures var r := RunLoop(t, st, s.cs);
      Meets(c, s, s', r, Place(c, r.kind, i + |EmitWhile(t, st, n, ret).code|, lo, ret))
    decreases |s.cs|, st, 1
  {
    hide At, Reaches, Find, Stuck, Unique, Meets, EmitValue, RunValue, EmitBody, RunBody, RunLoop, EmitWhile;
    var v := EmitValue(t, st.cond, n + 2);
    var start, end := Numbered(I386.WhileStart, n), Numbered(I386.WhileEnd, n + 1);
    var b := EmitBody(t, st.body, v.next, InLoop(start, end), ret).code;
    var q := RunBody(t, st.body, d.cs);
    WhileRun(t, st, s.cs);
    MeetsAt(c, s, w, d, j);
    var x := BodyFlows(t, st.body, v.next, InLoop(start, end), ret, c, j, w);
    Chain(c, s, w, x, d, q, j, Place(c, q.kind, j + |b|, InLoop(start, end), ret));
    if q.kind.Broke? {
      MeetsAt(c, s, x, Then(d, q), j + |b| + 1);
      s' := DefFlows(c, j + |b| + 1, end, x);
      Before(c, s, x, s', Then(d, q), j + |b| + 1, j + |b| + 2);
    } else if q.kind.Returned? || q.kind.Stopped? {
      s' := x;
      if q.kind.Stopped? { Stopping(c, s, x, Then(d, q), j + |b|, j + |b| + 2); }
    } else {
      var y := x;
      if q.kind.Normal? {
        MeetsAt(c, s, x, Then(d, q), j + |b|);
        y := JumpFlows(c, j + |b|, start, x);
        Before(c, s, x, y, Then(d, q), j + |b|, i);
      }
      MeetsAt(c, s, y, Then(d, q), i);
      var p := RunLoop(t, st, q.cs);
      s' := WhileFlows(t, st, n, lo, ret, c, i, y);
      Chain(c, s, y, s', Then(d, q), p, i, Place(c, p.kind, i + |EmitWhile(t, st, n, ret).code|, lo, ret));
      ThenThen(d, q, p);
    }
  }

  lemma ForRun(t: Target, st: Stmt, cs: seq<bool>)
    requires st.For?
    requires var d := Decided(RunValue(t, st.cond, cs)); d.kind.Normal? && d.acc.Known? && d.acc.value
    ensures var d := Decided(RunValue(t, st.cond, cs));
      var b := RunBody(t, st.body, d.cs);
      RunLoop(t, st, cs) ==
        if b.kind.Broke? then Then(d, b.(kind := Normal))
        else if b.kind.Returned? || b.kind.Stopped? then Then(d, b)
        else
          var g := RunStmt(t, st.step, b.cs);
          Then(d, Then(b, if g.kind.Normal? then Then(g, RunLoop(t, st, g.cs)) else g))
  {
    hide RunValue, RunBody, RunStmt;
  }

  lemma ForFlows(t: Target, st: Stmt, n: nat, lo: Loop, ret: Label, c: seq<Op>, i: nat, s: State) returns (s': State)
    requires st.For? && !Refused(t, st) && Flows(c, i, EmitFor(t, st, n, lo, ret).code, s)
    ensures var r := RunStmt(t, st, s.cs);
      Meets(c, s, s', r, Place(c, r.kind, i + |EmitFor(t, st, n, lo, ret).code|, lo, ret))
    decreases |s.cs|, st, 2
  {
    hide At, Reaches, Find, Stuck, Unique, Meets, EmitValue, RunValue, EmitBody, RunBody, RunLoop, EmitStmt, EmitFor,
      StackSteps.ForLoop;
    var a := EmitStmt(t, st.init, n + 3, lo, ret);
    var labels := ForLabels(n);
    StackSteps.ForParts(t, st, n, lo, ret);
    var l := StackSteps.ForLoop(t, st, labels.0, labels.1, labels.2, a.next, lo, ret);
    AtCat(c, i, a.code, l.code);
    var r := RunStmt(t, st.init, s.cs);
    var at := i + |a.code| + |l.code|;
    var u := StmtFlows(t, st.init, n + 3, lo, ret, c, i, s);
    if r.kind.Normal? {
      MeetsAt(c, s, u, r, i + |a.code|);
      var q := RunLoop(t, st, r.cs);
      s' := ForLoopFlows(t, st, n, a.next, lo, ret, c, i + |a.code|, u);
      Chain(c, s, u, s', r, q, i + |a.code|, Place(c, q.kind, at, lo, ret));
    } else {
      s' := u;
      Joined(c, s, u, u, r, i + |a.code|, at, lo, ret);
    }
  }

  function ForLabels(n: nat): (Label, Label, Label) {
    (Numbered(I386.ForCondition, n), Numbered(I386.ForIncrement, n + 1), Numbered(I386.ForEnd, n + 2))
  }

  /** The places in the code of a loop behind its initializer. */
  ghost predicate ForPlaced(t: Target, st: Stmt, n: nat, n1: nat, lo: Loop, ret: Label, c: seq<Op>, i: nat, j: nat,
                            k: nat, m: nat)
    requires st.For?
  {
    var (cond, step, end) := ForLabels(n);
    var v := EmitValue(t, st.cond, n1);
    var b := EmitBody(t, st.body, v.next, InLoop(step, end), ret);
    var g := EmitStmt(t, st.step, b.next, lo, ret);
    && j == i + 1 + |v.code| + 2 && k == j + |b.code| && m == k + 1 + |g.code|
    && At(c, i, [Def(cond)]) && At(c, i + 1, v.code) && At(c, j - 2, [TestAcc, Branch(end, true)])
    && At(c, j, b.code) && At(c, k, [Def(step)]) && At(c, k + 1, g.code)
    && At(c, m, [Jump(cond)]) && At(c, m + 1, [Def(end)])
    && Find(c, cond) == i && Find(c, step) == k && Find(c, end) == m + 1
    && |StackSteps.ForLoop(t, st, cond, step, end, n1, lo, ret).code| == m + 2 - i
  }

  lemma ForPlaces(t: Target, st: Stmt, n: nat, n1: nat, lo: Loop, ret: Label, c: seq<Op>, i: nat)
      returns (j: nat, k: nat, m: nat)
    requires st.For? && Unique(c)
    requires var (cond, step, end) := ForLabels(n);
      At(c, i, StackSteps.ForLoop(t, st, cond, step, end, n1, lo, ret).code)
    ensures ForPlaced(t, st, n, n1, lo, ret, c, i, j, k, m)
  {
    hide At, Find, Unique, EmitValue, EmitBody, EmitStmt;
    var (cond, step, end) := ForLabels(n);
    var v := EmitValue(t, st.cond, n1);
    var b := EmitBody(t, st.body, v.next, InLoop(step, end), ret);
    var g := EmitStmt(t, st.step, b.next, lo, ret);
    j, k, m := LoopPlaces(c, i, v.code, b.code, g.code, cond, step, end);
  }

  lemma LoopPlaces(c: seq<Op>, i: nat, v: seq<Op>, b: seq<Op>, g: seq<Op>, cond: Label, step: Label, end: Label)
      returns (j: nat, k: nat, m: nat)
    requires Unique(c)
    requires At(c, i, [Def(cond)] + (v + ([TestAcc, Branch(end, true)] + (b
      + ([Def(step)] + (g + [Jump(cond), Def(end)]))))))
    ensures j == i + 1 + |v| + 2 && k == j + |b| && m == k + 1 + |g|
    ensures At(c, i, [Def(cond)]) && At(c, i + 1, v) && At(c, j - 2, [TestAcc, Branch(end, true)])
    ensures At(c, j, b) && At(c, k, [Def(step)]) && At(c, k + 1, g) && At(c, m, [Jump(cond)])
    ensures At(c, m + 1, [Def(end)]) && Find(c, cond) == i && Find(c, step) == k && Find(c, end) == m + 1
  {
    hide At, Find, Unique;
    var test, last := [TestAcc, Branch(end, true)], [Jump(cond), Def(end)];
    j := i + 1 + |v| + 2;
    k := j + |b|;
    m := k + 1 + |g|;
    AtCat(c, i, [Def(cond)], v + (test + (b + ([Def(step)] + (g + last)))));
    AtCat(c, i + 1, v, test + (b + ([Def(step)] + (g + last))));
    AtCat(c, j - 2, test, b + ([Def(step)] + (g + last)));
    AtCat(c, j, b, [Def(step)] + (g + last));
    AtCat(c, k, [Def(step)], g + last);
    AtCat(c, k + 1, g, last);
    assert last + [] == last;
    JumpDef(c, m, cond, end, []);
    DefAt(c, i, cond);
    DefAt(c, k, step);
    DefAt(c, m + 1, end);
  }

  lemma ForLoopFlows(t: Target, st: Stmt, n: nat, n1: nat, lo: Loop, ret: Label, c: seq<Op>, i: nat, s: State)
      returns (s': State)
    requires st.For?
    requires var (cond, step, end) := ForLabels(n);
      Flows(c, i, StackSteps.ForLoop(t, st, cond, step, end, n1, lo, ret).code, s)
    ensures var r := RunLoop(t, st, s.cs);
      var (cond, step, end) := ForLabels(n);
      var l := StackSteps.ForLoop(t, st, cond, step, end, n1, lo, ret);
      Meets(c, s, s', r, Place(c, r.kind, i + |l.code|, lo, ret))
    decreases |s.cs|, st, 1
  {
    hide At, Reaches, Find, Stuck, Unique, Meets, EmitValue, RunValue, EmitBody, RunBody, RunLoop, EmitStmt, RunStmt,
      StackSteps.ForLoop;
    var (cond, step, end) := ForLabels(n);
    var j, k, m := ForPlaces(t, st, n, n1, lo, ret, c, i);
    var r := RunValue(t, st.cond, s.cs);
    var d := Decided(r);
    var s0 := DefFlows(c, i, cond, s);
    var u := ValueFlows(t, st.cond, n1, c, i + 1, s0);
    var w := Tested(c, s0, u, r, j - 2, end, true);
    var at := if d.acc.Known? && d.acc.value != true then Find(c, end) else j - 2 + 2;
    After(c, s, s0, w, d, at);
    LoopRun(t, st, s.cs);
    if d.kind.Stopped? {
      s' := w;
      Stopping(c, s, w, d, at, m + 2);
    } else if !d.acc.value {
      MeetsAt(c, s, w, d, m + 1);
      s' := DefFlows(c, m + 1, end, w);
      Before(c, s, w, s', d, m + 1, m + 2);
    } else {
      MeetsAt(c, s, w, d, j);
      s' := ForRoundFlows(t, st, n, n1, lo, ret, c, i, s, w, d, j, k, m);
    }
  }

  lemma ForRoundFlows(t: Target, st: Stmt, n: nat, n1: nat, lo: Loop, ret: Label, c: seq<Op>, i: nat, s: State,
                      w: State, d: Run, j: nat, k: nat, m: nat) returns (s': State)
    requires st.For? && ForPlaced(t, st, n, n1, lo, ret, c, i, j, k, m)
    requires var (cond, step, end) := ForLabels(n);
      Flows(c, i, StackSteps.ForLoop(t, st, cond, step, end, n1, lo, ret).code, s)
    requires d == Decided(RunValue(t, st.cond, s.cs)) && d.kind.Normal? && d.acc.Known? && d.acc.value
    requires Meets(c, s, w, d, j) && |w.cs| < |s.cs|
    ensures var r := RunLoop(t, st, s.cs); Meets(c, s, s', r, Place(c, r.kind, m + 2, lo, ret))
    decreases |s.cs|, st, 0
  {
    hide At, Reaches, Find, Stuck, Unique, Meets, EmitValue, RunValue, EmitBody, RunBody, RunLoop, EmitStmt, RunStmt,
      StackSteps.ForLoop;
    var (cond, step, end) := ForLabels(n);
    var v := EmitValue(t, st.cond, n1);
    var b := EmitBody(t, st.body, v.next, InLoop(step, end), ret);
    var q := RunBody(t, st.body, d.cs);
    ForRun(t, st, s.cs);
    MeetsAt(c, s, w, d, j);
    var x := BodyFlows(t, st.body, v.next, InLoop(step, end), ret, c, j, w);
    Chain(c, s, w, x, d, q, j, Place(c, q.kind, k, InLoop(step, end), ret));
    if q.kind.Broke? {
      MeetsAt(c, s, x, Then(d, q), m + 1);
      s' := DefFlows(c, m + 1, end, x);
      Before(c, s, x, s', Then(d, q), m + 1, m + 2);
    } else if q.kind.Returned? || q.kind.Stopped? {
      s' := x;
      if q.kind.Stopped? { Stopping(c, s, x, Then(d, q), k, m + 2); }
    } else {
      MeetsAt(c, s, x, Then(d, q), k);
      var y := DefFlows(c, k, step, x);
      Before(c, s, x, y, Then(d, q), k, k + 1);
      s' := StepFlows(t, st, n, n1, lo, ret, c, i, s, y, d, q, b.next, j, k, m);
    }
  }

  /** The increment and the next round. */
  lemma StepFlows(t: Target, st: Stmt, n: nat, n1: nat, lo: Loop, ret: Label, c: seq<Op>, i: nat, s: State, y: State,
                  d: Run, q: Run, n2: nat, j: nat, k: nat, m: nat) returns (s': State)
    requires st.For? && ForPlaced(t, st, n, n1, lo, ret, c, i, j, k, m)
    requires var (cond, step, end) := ForLabels(n);
      && Flows(c, i, StackSteps.ForLoop(t, st, cond, step, end, n1, lo, ret).code, s)
      && n2 == EmitBody(t, st.body, EmitValue(t, st.cond, n1).next, InLoop(step, end), ret).next
    requires !Then(d, q).kind.Stopped? && Meets(c, s, y, Then(d, q), k + 1) && |y.cs| < |s.cs|
    ensures var g := RunStmt(t, st.step, q.cs);
      var p := if g.kind.Normal? then Then(g, RunLoop(t, st, g.cs)) else g;
      Meets(c, s, s', Then(d, Then(q, p)), Place(c, p.kind, m + 2, lo, ret))
    decreases |y.cs|, st, 4
  {
    hide At, Reaches, Find, Stuck, Unique, Meets, EmitValue, RunValue, EmitBody, RunBody, RunLoop, EmitStmt, RunStmt,
      StackSteps.ForLoop;
    var (cond, step, end) := ForLabels(n);
    var g := RunStmt(t, st.step, q.cs);
    MeetsAt(c, s, y, Then(d, q), k + 1);
    var z := StmtFlows(t, st.step, n2, lo, ret, c, k + 1, y);
    if g.kind.Normal? {
      MeetsAt(c, y, z, g, m);
      var z' := JumpFlows(c, m, cond, z);
      Before(c, y, z, z', g, m, i);
      var p := RunLoop(t, st, g.cs);
      s' := ForLoopFlows(t, st, n, n1, lo, ret, c, i, z');
      Chain(c, y, z', s', g, p, i, Place(c, p.kind, m + 2, lo, ret));
      Chain(c, s, y, s', Then(d, q), Then(g, p), k + 1, Place(c, p.kind, m + 2, lo, ret));
      ThenThen(d, q, Then(g, p));
    } else {
      s' := z;
      Joined(c, y, z, z, g, m, m + 2, lo, ret);
      Chain(c, s, y, z, Then(d, q), g, k + 1, Place(c, g.kind, m + 2, lo, ret));
      ThenThen(d, q, g);
    }
  }

  // ---- match ----

  lemma {:induction false} ArmTestsFlow(patterns: seq<Pattern>, arm: Label, c: seq<Op>, i: nat, s: State)
      returns (s': State)
    requires Flows(c, i, DispatchArm(patterns, arm), s)
    ensures Reaches(c, s, s') && s'.calls == s.calls
    ensures match ChooseIn(patterns, s.cs)
      case Out => Stuck(c, s')
      case Hit(_, cs) => s'.cs == cs && s'.pc == Find(c, arm)
      case Miss(cs) => s'.cs == cs && s'.pc == i + |DispatchArm(patterns, arm)|
    decreases |patterns|
  {
    hide At, Reaches, Find, Stuck, Unique;
    if patterns == [] {
      s' := s;
      Stays(c, s);
    } else {
      var rest := DispatchArm(patterns[1..], arm);
      match patterns[0]
      case Default =>
        assert [] + rest == rest;
        s' := ArmTestsFlow(patterns[1..], arm, c, i, s);
      case Always =>
        AtCat(c, i, [Jump(arm)], rest);
        s' := JumpFlows(c, i, arm, s);
      case Test =>
        AtCat(c, i, [Plain, Branch(arm, true)], rest);
        s' := CompareFlows(c, i, arm, s);
        if s.cs != [] && !s.cs[0] {
          var u := s';
          s' := ArmTestsFlow(patterns[1..], arm, c, i + 2, u);
          Onwards(c, s, u, s');
        }
    }
  }

  /** The tests come to the label of the first arm that fits. */
  lemma {:induction false} DispatchFlow(arms: seq<Arm>, label0: nat, c: seq<Op>, i: nat, s: State) returns (s': State)
    requires Flows(c, i, Dispatch(arms, label0), s)
    ensures Reaches(c, s, s') && s'.calls == s.calls
    ensures match Choose(arms, s.cs)
      case Out => Stuck(c, s')
      case Hit(arm, cs) => s'.cs == cs && s'.pc == Find(c, ArmLabel(label0 + arm))
      case Miss(cs) => s'.cs == cs && s'.pc == i + |Dispatch(arms, label0)|
    decreases |arms|
  {
    hide At, Reaches, Find, Stuck, Unique, DispatchArm, ChooseIn;
    if arms == [] {
      s' := s;
      Stays(c, s);
    } else {
      var first := DispatchArm(arms[0].patterns, ArmLabel(label0));
      AtCat(c, i, first, Dispatch(arms[1..], label0 + 1));
      var u := ArmTestsFlow(arms[0].patterns, ArmLabel(label0), c, i, s);
      s' := u;
      if ChooseIn(arms[0].patterns, s.cs).Miss? {
        s' := DispatchFlow(arms[1..], label0 + 1, c, i + |first|, u);
        Onwards(c, s, u, s');
      }
    }
  }

  lemma {:induction false} FallbackIsLast(arms: seq<Arm>, label0: nat, end: Label)
    ensures Fallback(arms, label0, end) ==
      var i := LastDefault(arms); if i < |arms| then ArmLabel(label0 + i) else end
    decreases |arms|
  {
    if arms != [] {
      var rest, next := arms[1..], if Default in arms[0].patterns then ArmLabel(label0) else end;
      FallbackIsLast(rest, label0 + 1, next);
      assert forall j :: 0 <= j < |rest| ==> rest[j] == arms[j + 1];
      var i, k := LastDefault(arms), LastDefault(rest);
      if k < |rest| {
        assert Default in arms[k + 1].patterns;
        assert i == k + 1;
      } else if Default in arms[0].patterns {
        assert i == 0;
      } else {
        assert forall j :: 0 <= j < |arms| ==> Default !in arms[j].patterns;
      }
    }
  }

  /** Where the code of an arm is. */
  lemma {:induction false} ArmPlaced(t: Target, arms: seq<Arm>, label0: nat, n: nat, end: Label, lo: Loop, ret: Label,
                                     c: seq<Op>, i: nat, k: nat) returns (j: nat, m: nat)
    requires At(c, i, EmitArms(t, arms, label0, n, end, lo, ret).code) && k < |arms|
    ensures var body := EmitBody(t, arms[k].body, m, lo, ret).code;
      && At(c, j, [Def(ArmLabel(label0 + k))]) && At(c, j + 1, [Plain]) && At(c, j + 2, body)
      && At(c, j + 2 + |body|, [Jump(end)])
    decreases |arms|
  {
    hide At, EmitBody;
    var a := EmitBody(t, arms[0].body, n, lo, ret);
    var b := EmitArms(t, arms[1..], label0 + 1, a.next, end, lo, ret);
    var head := [Def(ArmLabel(label0)), Plain];
    AtCat(c, i, head, a.code + ([Jump(end)] + b.code));
    AtCat(c, i + 2, a.code, [Jump(end)] + b.code);
    AtCat(c, i + 2 + |a.code|, [Jump(end)], b.code);
    if k == 0 {
      assert head == [Def(ArmLabel(label0))] + [Plain];
      AtCat(c, i, [Def(ArmLabel(label0))], [Plain]);
      j, m := i, n;
    } else {
      j, m := ArmPlaced(t, arms[1..], label0 + 1, a.next, end, lo, ret, c, i + 3 + |a.code|, k - 1);
    }
  }

  lemma MatchFlows(t: Target, st: Stmt, n: nat, lo: Loop, ret: Label, c: seq<Op>, i: nat, s: State)
      returns (s': State)
    requires st.Match? && !Refused(t, st) && Flows(c, i, EmitMatch(t, st, n, lo, ret).code, s)
    ensures var r := RunStmt(t, st, s.cs);
      Meets(c, s, s', r, Place(c, r.kind, i + |EmitMatch(t, st, n, lo, ret).code|, lo, ret))
    decreases |s.cs|, st, 2
  {
    hide At, Reaches, Find, Stuck, Unique, Meets, EmitToSlots, RunToSlots, EmitArms, Dispatch, Fallback, Choose,
      LastDefault, RunBody;
    var end := Numbered(I386.MatchEnd, n);
    var v := EmitToSlots(t, st.value, n + 1 + |st.arms|);
    var b := EmitArms(t, st.arms, n + 1, v.next, end, lo, ret);
    var tests, jump := Dispatch(st.arms, n + 1), [Jump(Fallback(st.arms, n + 1, end))];
    var j := i + |v.code|;
    var k := j + |tests|;
    var m := k + 1 + |b.code|;
    MatchPlaces(c, i, v.code, tests, Fallback(st.arms, n + 1, end), b.code, end);
    var r := RunToSlots(t, st.value, s.cs);
    var u := ToSlotsFlow(t, st.value, n + 1 + |st.arms|, c, i, s);
    if r.kind.Stopped? {
      s' := u;
      Stopping(c, s, u, r, j, m + 1);
    } else {
      MeetsAt(c, s, u, r, j);
      var w := DispatchFlow(st.arms, n + 1, c, j, u);
      var chosen := Choose(st.arms, r.cs);
      if chosen.Out? {
        s' := w;
        OutMeets(c, s, u, w, r, j, m + 1);
      } else {
        var x := w;
        FallbackIsLast(st.arms, n + 1, end);
        if chosen.Miss? {
          x := JumpFlows(c, k, Fallback(st.arms, n + 1, end), w);
          Onwards(c, u, w, x);
        }
        var arm := if chosen.Hit? then chosen.arm else LastDefault(st.arms);
        s' := ArmFlows(t, st, n, v.next, lo, ret, c, k + 1, u, x, chosen.cs, arm, m);
        var q := if arm < |st.arms| then RunBody(t, st.arms[arm].body, chosen.cs) else Done(chosen.cs);
        Chain(c, s, u, s', r, q, j, Place(c, q.kind, m + 1, lo, ret));
      }
    }
  }

  lemma MatchPlaces(c: seq<Op>, i: nat, v: seq<Op>, tests: seq<Op>, fallback: Label, b: seq<Op>, end: Label)
    requires Unique(c) && At(c, i, v + (tests + ([Jump(fallback)] + (b + [Def(end)]))))
    ensures var j := i + |v|;
      var k := j + |tests|;
      var m := k + 1 + |b|;
      && At(c, i, v) && At(c, j, tests) && At(c, k, [Jump(fallback)]) && At(c, k + 1, b) && At(c, m, [Def(end)])
      && Find(c, end) == m
  {
    hide At, Find, Unique;
    var jump, j := [Jump(fallback)], i + |v|;
    var k := j + |tests|;
    AtCat(c, i, v, tests + (jump + (b + [Def(end)])));
    AtCat(c, j, tests, jump + (b + [Def(end)]));
    AtCat(c, k, jump, b + [Def(end)]);
    AtCat(c, k + 1, b, [Def(end)]);
    DefAt(c, k + 1 + |b|, end);
  }

  lemma OutMeets(c: seq<Op>, s: State, u: State, w: State, r: Run, j: nat, at: nat)
    requires Meets(c, s, u, r, j) && !r.kind.Stopped? && Reaches(c, u, w) && w.calls == u.calls && Stuck(c, w)
    ensures Meets(c, s, w, Run(Stopped, Unknown, [], r.calls), at)
  {
    hide Reaches, Stuck;
    Onwards(c, s, u, w);
  }

  /** From the tests to the end of the match, through the chosen arm if there is one. */
  lemma ArmFlows(t: Target, st: Stmt, n: nat, n1: nat, lo: Loop, ret: Label, c: seq<Op>, i: nat, u: State, x: State,
                 cs: seq<bool>, arm: nat, m: nat) returns (s': State)
    requires st.Match? && Unique(c) && arm <= |st.arms| && |cs| <= |u.cs|
    requires var end := Numbered(I386.MatchEnd, n);
      && At(c, i, EmitArms(t, st.arms, n + 1, n1, end, lo, ret).code) && At(c, m, [Def(end)]) && Find(c, end) == m
      && x.pc == Find(c, if arm < |st.arms| then ArmLabel(n + 1 + arm) else end)
    requires Reaches(c, u, x) && x.calls == u.calls && x.cs == cs
    ensures var q := if arm < |st.arms| then RunBody(t, st.arms[arm].body, cs) else Done(cs);
      Meets(c, u, s', q, Place(c, q.kind, m + 1, lo, ret))
    decreases |cs|, st, 1
  {
    hide At, Reaches, Find, Stuck, Unique, Meets, EmitArms, EmitBody, RunBody;
    var end := Numbered(I386.MatchEnd, n);
    if arm == |st.arms| {
      s' := DefFlows(c, m, end, x);
      Arrived(c, u, x, s', m + 1);
    } else {
      var body := st.arms[arm].body;
      var j, n2 := ArmPlaced(t, st.arms, n + 1, n1, end, lo, ret, c, i, arm);
      DefAt(c, j, ArmLabel(n + 1 + arm));
      var y := DefFlows(c, j, ArmLabel(n + 1 + arm), x);
      var y' := PlainFlows(c, j + 1, y);
      Onwards(c, x, y, y');
      var q := RunBody(t, body, cs);
      var k := j + 2 + |EmitBody(t, body, n2, lo, ret).code|;
      var z := BodyFlows(t, body, n2, lo, ret, c, j + 2, y');
      s' := z;
      if q.kind.Normal? {
        MeetsAt(c, y', z, q, k);
        var z' := JumpFlows(c, k, end, z);
        s' := DefFlows(c, m, end, z');
        Onwards(c, z, z', s');
      }
      Joined(c, y', z, s', q, k, m + 1, lo, ret);
      Onwards(c, u, x, y');
      FromThere(c, u, x, y', s', q, Place(c, q.kind, m + 1, lo, ret));
    }
  }

  lemma Arrived(c: seq<Op>, u: State, x: State, s': State, at: nat)
    requires Reaches(c, u, x) && x.calls == u.calls && Reaches(c, x, s') && Came(x, s', at)
    ensures Meets(c, u, s', Done(x.cs), at)
  {
    hide Reaches;
    Onwards(c, u, x, s');
  }

  lemma FromThere(c: seq<Op>, u: State, x: State, y: State, s': State, q: Run, at: nat)
    requires Reaches(c, u, y) && y.calls == u.calls && Meets(c, y, s', q, at)
    ensures Meets(c, u, s', q, at)
  {
    hide Reaches, Stuck;
    Onwards(c, u, y, s');
  }
}
