/** Runs of the emitted code of one function, as far as control goes: every test that
    is not decided by a known truth value takes a choice, and calls are recorded. */
module CodeFlow {
  import opened Frames
  import opened Calls
  import opened StackCode
  import opened SourceFlow

  /** `flag` tells whether the last comparison found its sides equal, if that is known. */
  datatype State = Point(pc: nat, acc: Truth, flag: Truth, cs: seq<bool>, calls: seq<string>)

  /** Where a label is defined, or behind the code. */
  function Find(c: seq<Op>, l: Label): (i: nat)
    ensures i <= |c|
    ensures i < |c| ==> c[i] == Def(l)
  {
    if c == [] then 0 else if c[0] == Def(l) then 0 else 1 + Find(c[1..], l)
  }

  predicate Unique(c: seq<Op>) {
    forall i, j :: 0 <= i < j < |c| && c[i].Def? ==> c[i] != c[j]
  }

  lemma {:induction false} FindAt(c: seq<Op>, l: Label, i: nat)
    requires Unique(c) && i < |c| && c[i] == Def(l)
    ensures Find(c, l) == i
  {
    FindFirst(c, l, i);
  }

  lemma {:induction false} FindFirst(c: seq<Op>, l: Label, i: nat)
    requires i < |c| && c[i] == Def(l)
    ensures Find(c, l) <= i
  {
    if i > 0 && c[0] != Def(l) { FindFirst(c[1..], l, i - 1); }
  }

  /** The code ends here, or a test needs a choice and there is none. */
  predicate Stuck(c: seq<Op>, s: State) {
    s.pc < |c| && s.cs == [] && ((c[s.pc].TestAcc? && s.acc.Unknown?) || (c[s.pc].Branch? && s.flag.Unknown?))
  }

  function Next(c: seq<Op>, s: State): State
    requires s.pc < |c| && !Stuck(c, s)
  {
    match c[s.pc]
    case Plain => Point(s.pc + 1, Unknown, Unknown, s.cs, s.calls)
    case SetAcc(b) => s.(pc := s.pc + 1, acc := Known(b))
    case TestAcc =>
      if s.acc.Known? then s.(pc := s.pc + 1, flag := Known(!s.acc.value))
      else s.(pc := s.pc + 1, flag := Known(!s.cs[0]), cs := s.cs[1..])
    case PushWord => s.(pc := s.pc + 1)
    case PopWord => s.(pc := s.pc + 1, acc := Unknown)
    case LowerSp(_) => s.(pc := s.pc + 1)
    case RaiseSp(_) => s.(pc := s.pc + 1)
    case Def(_) => s.(pc := s.pc + 1)
    case Jump(l) => s.(pc := Find(c, l))
    case Branch(l, equal) =>
      if s.flag.Known? then s.(pc := if s.flag.value == equal then Find(c, l) else s.pc + 1)
      else s.(pc := if s.cs[0] == equal then Find(c, l) else s.pc + 1, cs := s.cs[1..])
    case CallTo(f, _) => Point(s.pc + 1, Unknown, Unknown, s.cs, s.calls + [f])
    case SaveFrame => s.(pc := s.pc + 1)
    case Leave => s.(pc := |c|)
  }

  function Steps(c: seq<Op>, s: State, n: nat): State
    decreases n
  {
    if n == 0 || s.pc >= |c| || Stuck(c, s) then s else Steps(c, Next(c, s), n - 1)
  }

  ghost predicate Reaches(c: seq<Op>, s: State, s': State) {
    exists n: nat :: Steps(c, s, n) == s'
  }

  lemma {:induction false} StepsMore(c: seq<Op>, s: State, n: nat, m: nat)
    ensures Steps(c, s, n + m) == Steps(c, Steps(c, s, n), m)
    decreases n
  {
    hide Next;
    if n > 0 && s.pc < |c| && !Stuck(c, s) { StepsMore(c, Next(c, s), n - 1, m); }
  }

  lemma Onwards(c: seq<Op>, s: State, u: State, s': State)
    requires Reaches(c, s, u) && Reaches(c, u, s')
    ensures Reaches(c, s, s')
  {
    var n: nat :| Steps(c, s, n) == u;
    var m: nat :| Steps(c, u, m) == s';
    StepsMore(c, s, n, m);
    assert Steps(c, s, n + m) == s';
  }

  lemma Stays(c: seq<Op>, s: State)
    ensures Reaches(c, s, s)
  {
    assert Steps(c, s, 0) == s;
  }

  lemma OneStep(c: seq<Op>, s: State)
    requires s.pc < |c| && !Stuck(c, s)
    ensures Reaches(c, s, Next(c, s))
  {
    assert Steps(c, Next(c, s), 0) == Next(c, s);
    assert Steps(c, s, 1) == Next(c, s);
  }

  /** A run has one end. */
  lemma OneEnd(c: seq<Op>, s: State, u: State, s': State)
    requires Reaches(c, s, u) && Reaches(c, s, s')
    requires (u.pc >= |c| || Stuck(c, u)) && (s'.pc >= |c| || Stuck(c, s'))
    ensures u == s'
  {
    var n: nat :| Steps(c, s, n) == u;
    var m: nat :| Steps(c, s, m) == s';
    if n <= m { StepsMore(c, s, n, m - n); } else { StepsMore(c, s, m, n - m); }
  }

  // ---- pieces of code ----

  predicate At(c: seq<Op>, i: nat, code: seq<Op>) {
    i + |code| <= |c| && c[i..i + |code|] == code
  }

  lemma AtCat(c: seq<Op>, i: nat, a: seq<Op>, b: seq<Op>)
    requires At(c, i, a + b)
    ensures At(c, i, a) && At(c, i + |a|, b)
  {
    var w := c[i..i + |a + b|];
    assert a == w[..|a|] == c[i..i + |a|];
    assert b == w[|a|..] == c[i + |a|..i + |a| + |b|];
  }

  lemma AtEach(c: seq<Op>, i: nat, code: seq<Op>)
    requires At(c, i, code)
    ensures i + |code| <= |c| && forall k :: 0 <= k < |code| ==> c[i + k] == code[k]
  {
    assert forall k :: 0 <= k < |code| ==> c[i..i + |code|][k] == code[k];
  }

  /** Instructions that just go on. */
  predicate Simple(op: Op) {
    op.Plain? || op.PushWord? || op.PopWord? || op.LowerSp? || op.RaiseSp? || op.Def? || op.SaveFrame?
  }

  /** Control has come to `pc`, and nothing else has happened. */
  predicate Came(s: State, s': State, pc: nat) {
    s'.pc == pc && s'.cs == s.cs && s'.calls == s.calls
  }

  lemma {:induction false} SimpleFlows(c: seq<Op>, i: nat, code: seq<Op>, s: State) returns (s': State)
    requires At(c, i, code) && s.pc == i && forall k :: 0 <= k < |code| ==> Simple(code[k])
    ensures Reaches(c, s, s') && Came(s, s', i + |code|)
    ensures code != [] && code[|code| - 1].Plain? ==> s'.acc.Unknown? && s'.flag.Unknown?
    decreases |code|
  {
    hide Reaches;
    if code == [] {
      s' := s;
      Stays(c, s);
    } else {
      var last := |code| - 1;
      assert code == code[..last] + [code[last]];
      AtCat(c, i, code[..last], [code[last]]);
      AtEach(c, i, code);
      var u := SimpleFlows(c, i, code[..last], s);
      OneStep(c, u);
      s' := Next(c, u);
      Onwards(c, s, u, s');
    }
  }

  lemma JumpFlows(c: seq<Op>, i: nat, l: Label, s: State) returns (s': State)
    requires At(c, i, [Jump(l)]) && s.pc == i
    ensures Reaches(c, s, s') && Came(s, s', Find(c, l))
  {
    AtEach(c, i, [Jump(l)]);
    OneStep(c, s);
    s' := Next(c, s);
  }

  /** A test of the accumulator: the branch on equality with zero is taken if the value is
      false, the other one if it is true. */
  lemma TestFlows(c: seq<Op>, i: nat, l: Label, equal: bool, s: State) returns (s': State)
    requires At(c, i, [TestAcc, Branch(l, equal)]) && s.pc == i
    ensures Reaches(c, s, s') && s'.calls == s.calls
    ensures if s.acc.Unknown? && s.cs == [] then Stuck(c, s') else
      var truth := if s.acc.Known? then s.acc.value else s.cs[0];
      s'.cs == (if s.acc.Known? then s.cs else s.cs[1..]) && s'.pc == if truth != equal then Find(c, l) else i + 2
  {
    hide Reaches, Find;
    AtEach(c, i, [TestAcc, Branch(l, equal)]);
    assert c[i] == TestAcc && c[i + 1] == Branch(l, equal);
    if s.acc.Unknown? && s.cs == [] {
      s' := s;
      Stays(c, s);
    } else {
      var u := Next(c, s);
      OneStep(c, s);
      OneStep(c, u);
      s' := Next(c, u);
      Onwards(c, s, u, s');
    }
  }

  /** A comparison with a pattern. */
  lemma CompareFlows(c: seq<Op>, i: nat, l: Label, s: State) returns (s': State)
    requires At(c, i, [Plain, Branch(l, true)]) && s.pc == i
    ensures Reaches(c, s, s') && s'.calls == s.calls
    ensures if s.cs == [] then Stuck(c, s') else
      s'.cs == s.cs[1..] && s'.pc == if s.cs[0] then Find(c, l) else i + 2
  {
    hide Reaches, Find;
    AtEach(c, i, [Plain, Branch(l, true)]);
    assert c[i] == Plain && c[i + 1] == Branch(l, true);
    var u := Next(c, s);
    OneStep(c, s);
    if s.cs == [] {
      s' := u;
    } else {
      OneStep(c, u);
      s' := Next(c, u);
      Onwards(c, s, u, s');
    }
  }
}
