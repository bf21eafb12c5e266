/** The diagnostics that are not about uninitialized or unknown names: each tells of a
    program that is not well structured, and every such program draws one. */
module SemaStructure {
  import opened DefiniteAssignment
  import opened AssignmentSound

  // ---- diagnostics other than those on names ----

  predicate Named(d: Diagnostic) {
    d.Uninitialized? || d.UnknownName?
  }

  predicate AllNamed(diags: seq<Diagnostic>) {
    forall d :: d in diags ==> Named(d)
  }

  /** Names that a statement leaves in scope. */
  function Declares(st: Stmt): set<string>
    decreases st, 1
  {
    match st
    case Let(x, _) => {x}
    case Unsafe(body) => DeclaresAll(body)
    case _ => {}
  }

  function DeclaresAll(body: seq<Stmt>): set<string>
    decreases body, 0
  {
    if body == [] then {} else Declares(body[0]) + DeclaresAll(body[1..])
  }

  /** Names are declared once, loop exits stand in loops, patterns have their places and
      matches on enums name every variant. */
  predicate Structured(names: set<string>, st: Stmt, depth: nat)
    decreases st, 1
  {
    match st
    case Let(x, _) => x !in names
    case If(_, a, b) => StructuredAll(names, a, depth) && StructuredAll(names, b, depth)
    case Match(_, on, arms) =>
      && StructuredArms(names, arms, depth) && AllInPlace(arms)
      && (on.Enum? && !HasDefault(arms) ==> forall v: nat :: v < on.n ==> Covered(arms, v))
    case While(_, body) => StructuredAll(names, body, depth + 1)
    case For(init, _, step, body) =>
      var inside := names + Declares(init);
      Structured(names, init, depth) && StructuredAll(inside, body, depth + 1) && Structured(inside, step, depth)
    case Break => depth > 0
    case Continue => depth > 0
    case Unsafe(body) => StructuredAll(names, body, depth)
    case _ => true
  }

  predicate StructuredAll(names: set<string>, body: seq<Stmt>, depth: nat)
    decreases body, 0
  {
    body == [] || (Structured(names, body[0], depth) && StructuredAll(names + Declares(body[0]), body[1..], depth))
  }

  predicate StructuredArms(names: set<string>, arms: seq<Arm>, depth: nat)
    decreases arms, 0
  {
    arms == [] ||
    (New(names, arms[0].bindings) && StructuredAll(names + NamesOf(arms[0].bindings), arms[0].body, depth) &&
     StructuredArms(names, arms[1..], depth))
  }

  function NamesOf(bindings: seq<string>): set<string> {
    set x | x in bindings
  }

  predicate New(names: set<string>, bindings: seq<string>) {
    && (forall i :: 0 <= i < |bindings| ==> bindings[i] !in names)
    && (forall i, j :: 0 <= i < j < |bindings| ==> bindings[i] != bindings[j])
  }

  /** A default pattern is alone and nothing comes after it; bindings belong to one pattern. */
  predicate InPlace(arms: seq<Arm>, i: nat)
    requires i < |arms|
  {
    && (arms[i].bindings != [] ==> |arms[i].patterns| == 1)
    && (Default in arms[i].patterns ==>
          |arms[i].patterns| == 1 && forall j :: i < j < |arms| ==> arms[j].patterns == [])
  }

  lemma {:induction false} ExpressionsNamed(gl: set<string>, locals: Locals, e: Expr)
    ensures AllNamed(CheckExpr(gl, locals, e))
    decreases e, 1
  {
    match e
    case Name(_) =>
    case Node(args) => AllExpressionsNamed(gl, locals, args);
    case Short(a, b) =>
      ExpressionsNamed(gl, locals, a);
      ExpressionsNamed(gl, locals, b);
    case Try(a) => ExpressionsNamed(gl, locals, a);
  }

  lemma AllExpressionsNamed(gl: set<string>, locals: Locals, args: seq<Expr>)
    ensures AllNamed(CheckAll(gl, locals, args))
    decreases args, 0
  {
    if args != [] {
      ExpressionsNamed(gl, locals, args[0]);
      AllExpressionsNamed(gl, locals, args[1..]);
    }
  }

  lemma NamedCat()
    ensures forall a, b {:trigger AllNamed(a + b)} :: AllNamed(a + b) <==> AllNamed(a) && AllNamed(b)
  {
    forall a: seq<Diagnostic>, b: seq<Diagnostic> ensures AllNamed(a + b) <==> AllNamed(a) && AllNamed(b) {
      if AllNamed(a + b) {
        assert forall d :: d in a ==> d in a + b;
        assert forall d :: d in b ==> d in a + b;
      }
    }
  }

  /** Just these are the programs without diagnostics of the other kinds. */
  lemma {:induction false} StructureDecides(gl: set<string>, locals: Locals, st: Stmt, depth: nat)
    ensures Analyze(gl, locals, st, depth).locals.Keys == locals.Keys + Declares(st)
    ensures AllNamed(Analyze(gl, locals, st, depth).diags) <==> Structured(locals.Keys, st, depth)
    decreases st, 1
  {
    hide CheckExpr, AllNamed, HasDefault, Merge, AllInPlace, AnalyzeAll, StructuredAll, DeclaresAll;
    NamedCat();
    SingleNamed();
    match st
    case Let(x, i) => if i.Some? { ExpressionsNamed(gl, locals, i.value); }
    case Assign(_, e) => ExpressionsNamed(gl, locals, e);
    case Expr(e) => ExpressionsNamed(gl, locals, e);
    case If(_, _, _) => StructureDecidesIf(gl, locals, st, depth);
    case Match(_, _, _) => StructureDecidesMatch(gl, locals, st, depth);
    case While(c, body) =>
      ExpressionsNamed(gl, locals, c);
      StructureDecidesAll(gl, locals, body, depth + 1);
    case For(_, _, _, _) => StructureDecidesFor(gl, locals, st, depth);
    case Break =>
    case Continue =>
    case Return(e) => ExpressionsNamed(gl, locals, e);
    case Unsafe(body) => StructureDecidesAll(gl, locals, body, depth);
    case Defer(e) => ExpressionsNamed(gl, locals, e);
  }

  lemma StructureDecidesIf(gl: set<string>, locals: Locals, st: Stmt, depth: nat)
    requires st.If?
    ensures Analyze(gl, locals, st, depth).locals.Keys == locals.Keys + Declares(st)
    ensures AllNamed(Analyze(gl, locals, st, depth).diags) <==> Structured(locals.Keys, st, depth)
    decreases st, 0
  {
    hide CheckExpr, AllNamed, Merge, AnalyzeAll, StructuredAll;
    NamedCat();
    ExpressionsNamed(gl, locals, st.cond);
    StructureDecidesAll(gl, locals, st.thenBody, depth);
    StructureDecidesAll(gl, locals, st.elseBody, depth);
    MergeKeys(locals);
  }

  lemma StructureDecidesFor(gl: set<string>, locals: Locals, st: Stmt, depth: nat)
    requires st.For?
    ensures Analyze(gl, locals, st, depth).locals.Keys == locals.Keys + Declares(st)
    ensures AllNamed(Analyze(gl, locals, st, depth).diags) <==> Structured(locals.Keys, st, depth)
    decreases st, 0
  {
    hide CheckExpr, AllNamed, AnalyzeAll, StructuredAll;
    NamedCat();
    StructureDecides(gl, locals, st.init, depth);
    var inner := Analyze(gl, locals, st.init, depth).locals;
    ExpressionsNamed(gl, inner, st.cond);
    StructureDecidesAll(gl, inner, st.body, depth + 1);
    StructureDecides(gl, inner, st.step, depth);
  }

  lemma SingleNamed()
    ensures AllNamed([]) && forall d :: AllNamed([d]) <==> Named(d)
  {
    forall d ensures AllNamed([d]) <==> Named(d) { assert d in [d]; }
  }

  lemma MergeKeys(locals: Locals)
    ensures forall branches :: Merge(locals, branches).Keys == locals.Keys
  {
  }

  lemma StructureDecidesAll(gl: set<string>, locals: Locals, body: seq<Stmt>, depth: nat)
    ensures AnalyzeAll(gl, locals, body, depth).locals.Keys == locals.Keys + DeclaresAll(body)
    ensures AllNamed(AnalyzeAll(gl, locals, body, depth).diags) <==> StructuredAll(locals.Keys, body, depth)
    decreases body, 0
  {
    hide Analyze, AllNamed, Structured, Declares;
    NamedCat();
    SingleNamed();
    if body != [] {
      StructureDecides(gl, locals, body[0], depth);
      var r := Analyze(gl, locals, body[0], depth);
      StructureDecidesAll(gl, r.locals, body[1..], depth);
    }
  }

  lemma StructureDecidesMatch(gl: set<string>, locals: Locals, st: Stmt, depth: nat)
    requires st.Match?
    ensures Analyze(gl, locals, st, depth).locals.Keys == locals.Keys + Declares(st)
    ensures AllNamed(Analyze(gl, locals, st, depth).diags) <==> Structured(locals.Keys, st, depth)
    decreases st, 0
  {
    hide CheckExpr, AllNamed, HasDefault, Merge, AllInPlace, AnalyzeArms, StructuredArms, Covered;
    NamedCat();
    SingleNamed();
    MergeKeys(locals);
    ExpressionsNamed(gl, locals, st.value);
    StructureDecidesArms(gl, locals, st.arms, depth, false);
    PatternsDecide(st.arms, false);
    if st.on.Enum? { MissingNamed(st.arms, st.on.n); }
  }

  lemma {:induction false} MissingNamed(arms: seq<Arm>, n: nat)
    ensures AllNamed(Missing(arms, n)) <==> forall v: nat :: v < n ==> Covered(arms, v)
  {
    var m := Missing(arms, n);
    if m != [] {
      MissingKind(arms, n);
      assert m[0] in m && !Named(m[0]);
    }
  }

  lemma {:induction false} MissingKind(arms: seq<Arm>, n: nat)
    ensures forall d :: d in Missing(arms, n) ==> d.MissingVariant?
  {
    if n > 0 { MissingKind(arms, n - 1); }
  }

  /** No arm draws a diagnostic for its patterns. */
  predicate PatternsAccepted(arms: seq<Arm>, saw: bool) {
    arms == [] ||
    (CheckPatterns(arms[0], 0, saw) == [] && PatternsAccepted(arms[1..], saw || Default in arms[0].patterns))
  }

  lemma {:induction false} StructureDecidesArms(gl: set<string>, locals: Locals, arms: seq<Arm>, depth: nat, saw: bool)
    ensures AllNamed(AnalyzeArms(gl, locals, arms, depth, saw).diags) <==>
      StructuredArms(locals.Keys, arms, depth) && PatternsAccepted(arms, saw)
    decreases arms, 0
  {
    hide AllNamed, CheckPatterns, BindLocals, New, BodyDiverges, AnalyzeAll;
    NamedCat();
    SingleNamed();
    if arms != [] {
      var b := BindLocals(locals, arms[0].bindings);
      BindingsDecide(locals, arms[0].bindings);
      StructureDecidesAll(gl, b.locals, arms[0].body, depth);
      StructureDecidesArms(gl, locals, arms[1..], depth, saw || Default in arms[0].patterns);
      PatternsNamed(arms[0], 0, saw);
    }
  }

  lemma {:induction false} PatternsNamed(arm: Arm, k: nat, saw: bool)
    ensures AllNamed(CheckPatterns(arm, k, saw)) <==> CheckPatterns(arm, k, saw) == []
    decreases |arm.patterns| - k
  {
    var d := CheckPatterns(arm, k, saw);
    PatternKinds(arm, k, saw);
    if d != [] { assert d[0] in d; }
  }

  lemma {:induction false} PatternKinds(arm: Arm, k: nat, saw: bool)
    ensures forall d :: d in CheckPatterns(arm, k, saw) ==> !Named(d)
    decreases |arm.patterns| - k
  {
    if k < |arm.patterns| { PatternKinds(arm, k + 1, saw || arm.patterns[k].Default?); }
  }

  lemma {:induction false} BindingsDecide(locals: Locals, bindings: seq<string>)
    ensures AllNamed(BindLocals(locals, bindings).diags) <==> New(locals.Keys, bindings)
    ensures BindLocals(locals, bindings).locals.Keys == locals.Keys + NamesOf(bindings)
    decreases |bindings|
  {
    hide AllNamed;
    NamedCat();
    SingleNamed();
    if bindings != [] {
      var x, rest := bindings[0], bindings[1..];
      var next := if x in locals then locals else locals[x := false];
      BindingsDecide(next, rest);
      assert next.Keys == locals.Keys + {x} && bindings == [x] + rest;
      assert NamesOf(bindings) == {x} + NamesOf(rest);
      NewMore(locals.Keys, x, rest);
    }
  }

  lemma NewMore(names: set<string>, x: string, rest: seq<string>)
    ensures New(names, [x] + rest) <==> x !in names && New(names + {x}, rest)
  {
    var all := [x] + rest;
    assert forall i :: 0 <= i < |rest| ==> rest[i] == all[i + 1];
    if New(names, all) {
      assert forall k :: 1 <= k < |all| ==> all[0] != all[k];
      assert all[0] !in names;
    }
  }

  predicate NoPatterns(arms: seq<Arm>) {
    forall arm :: arm in arms ==> arm.patterns == []
  }

  predicate AllInPlace(arms: seq<Arm>) {
    forall i {:trigger InPlace(arms, i)} :: 0 <= i < |arms| ==> InPlace(arms, i)
  }

  lemma {:induction false} PatternsDecide(arms: seq<Arm>, saw: bool)
    ensures PatternsAccepted(arms, saw) <==> AllInPlace(arms) && (saw ==> NoPatterns(arms))
    decreases |arms|
  {
    if arms != [] {
      hide CheckPatterns, AllInPlace, NoPatterns;
      PatternsDecide(arms[1..], saw || Default in arms[0].patterns);
      ArmDecides(arms[0], saw);
      PlacesMore(arms);
    } else {
      hide CheckPatterns;
    }
  }

  lemma PlacesMore(arms: seq<Arm>)
    requires arms != []
    ensures NoPatterns(arms) <==> arms[0].patterns == [] && NoPatterns(arms[1..])
    ensures AllInPlace(arms) <==>
      && AllInPlace(arms[1..]) && (arms[0].bindings != [] ==> |arms[0].patterns| == 1)
      && (Default in arms[0].patterns ==> |arms[0].patterns| == 1 && NoPatterns(arms[1..]))
  {
    var rest := arms[1..];
    assert forall i :: 0 <= i < |rest| ==> rest[i] == arms[i + 1];
    FirstInPlace(arms);
    if AllInPlace(arms) {
      forall i | 0 <= i < |rest| ensures InPlace(rest, i) { assert InPlace(arms, i + 1); }
      assert InPlace(arms, 0);
    }
    if AllInPlace(rest) && InPlace(arms, 0) {
      forall i | 0 <= i < |arms| ensures InPlace(arms, i) {
        if i > 0 {
          assert InPlace(rest, i - 1);
          assert forall j :: i < j < |arms| ==> arms[j] == rest[j - 1];
        }
      }
    }
  }

  lemma FirstInPlace(arms: seq<Arm>)
    requires arms != []
    ensures InPlace(arms, 0) <==>
      (arms[0].bindings != [] ==> |arms[0].patterns| == 1)
      && (Default in arms[0].patterns ==> |arms[0].patterns| == 1 && NoPatterns(arms[1..]))
  {
    assert forall j :: 0 < j < |arms| ==> arms[j] == arms[1..][j - 1];
    assert forall j :: 0 <= j < |arms[1..]| ==> arms[1..][j] == arms[j + 1];
  }

  lemma ArmDecides(arm: Arm, saw: bool)
    ensures CheckPatterns(arm, 0, saw) == [] <==>
      (saw ==> arm.patterns == []) && (arm.bindings != [] ==> |arm.patterns| == 1)
      && (Default in arm.patterns ==> |arm.patterns| == 1)
  {
    PatternsFrom(arm, 0, saw);
    assert arm.patterns[0..] == arm.patterns;
  }

  lemma {:induction false} PatternsFrom(arm: Arm, k: nat, saw: bool)
    requires k <= |arm.patterns|
    ensures CheckPatterns(arm, k, saw) == [] <==>
      (saw ==> k == |arm.patterns|) && (arm.bindings != [] ==> |arm.patterns| == 1)
      && (Default in arm.patterns[k..] ==> |arm.patterns| == 1)
    decreases |arm.patterns| - k
  {
    if k < |arm.patterns| {
      PatternsFrom(arm, k + 1, saw || arm.patterns[k].Default?);
      assert arm.patterns[k..] == [arm.patterns[k]] + arm.patterns[k + 1..];
    }
  }

  // ---- loop exits ----

  /** Holds a `break` or `continue` that is in none of its loops. */
  predicate Strays(st: Stmt)
    decreases st, 1
  {
    match st
    case Break => true
    case Continue => true
    case If(_, a, b) => StraysAll(a) || StraysAll(b)
    case Match(_, _, arms) => StraysArms(arms)
    case For(init, _, step, _) => Strays(init) || Strays(step)
    case Unsafe(body) => StraysAll(body)
    case _ => false
  }

  predicate StraysAll(body: seq<Stmt>)
    decreases body, 0
  {
    body != [] && (Strays(body[0]) || StraysAll(body[1..]))
  }

  predicate StraysArms(arms: seq<Arm>)
    decreases arms, 0
  {
    arms != [] && (StraysAll(arms[0].body) || StraysArms(arms[1..]))
  }

  lemma {:induction false} ExpressionsInPlace(gl: set<string>, locals: Locals, e: Expr)
    ensures OutsideLoop !in CheckExpr(gl, locals, e)
  {
    ExpressionsNamed(gl, locals, e);
  }

  /** The diagnostic comes for just such exits. */
  lemma {:induction false} ExitsDecide(gl: set<string>, locals: Locals, st: Stmt, depth: nat)
    ensures OutsideLoop in Analyze(gl, locals, st, depth).diags <==> depth == 0 && Strays(st)
    decreases st, 1
  {
    hide CheckExpr, Merge, HasDefault, AnalyzeArms, AnalyzeAll, StraysAll;
    match st
    case Let(_, i) => if i.Some? { ExpressionsInPlace(gl, locals, i.value); }
    case Assign(_, e) => ExpressionsInPlace(gl, locals, e);
    case Expr(e) => ExpressionsInPlace(gl, locals, e);
    case If(_, _, _) => ExitsDecideIf(gl, locals, st, depth);
    case Match(e, on, arms) =>
      ExpressionsInPlace(gl, locals, e);
      ExitsDecideArms(gl, locals, arms, depth, false);
      if on.Enum? { MissingKind(arms, on.n); }
    case While(c, body) =>
      ExpressionsInPlace(gl, locals, c);
      ExitsDecideAll(gl, locals, body, depth + 1);
    case For(_, _, _, _) => ExitsDecideFor(gl, locals, st, depth);
    case Break =>
    case Continue =>
    case Return(e) => ExpressionsInPlace(gl, locals, e);
    case Unsafe(body) => ExitsDecideAll(gl, locals, body, depth);
    case Defer(e) => ExpressionsInPlace(gl, locals, e);
  }

  lemma ExitsDecideIf(gl: set<string>, locals: Locals, st: Stmt, depth: nat)
    requires st.If?
    ensures OutsideLoop in Analyze(gl, locals, st, depth).diags <==> depth == 0 && Strays(st)
    decreases st, 0
  {
    hide CheckExpr, Merge, AnalyzeAll, StraysAll;
    ExpressionsInPlace(gl, locals, st.cond);
    ExitsDecideAll(gl, locals, st.thenBody, depth);
    ExitsDecideAll(gl, locals, st.elseBody, depth);
  }

  lemma ExitsDecideFor(gl: set<string>, locals: Locals, st: Stmt, depth: nat)
    requires st.For?
    ensures OutsideLoop in Analyze(gl, locals, st, depth).diags <==> depth == 0 && Strays(st)
    decreases st, 0
  {
    hide CheckExpr, AnalyzeAll;
    var inner := Analyze(gl, locals, st.init, depth).locals;
    ExitsDecide(gl, locals, st.init, depth);
    ExpressionsInPlace(gl, inner, st.cond);
    ExitsDecideAll(gl, inner, st.body, depth + 1);
    ExitsDecide(gl, inner, st.step, depth);
  }

  lemma ExitsDecideAll(gl: set<string>, locals: Locals, body: seq<Stmt>, depth: nat)
    ensures OutsideLoop in AnalyzeAll(gl, locals, body, depth).diags <==> depth == 0 && StraysAll(body)
    decreases body, 0
  {
    if body != [] {
      hide Analyze, Strays;
      ExitsDecide(gl, locals, body[0], depth);
      ExitsDecideAll(gl, Analyze(gl, locals, body[0], depth).locals, body[1..], depth);
    }
  }

  lemma ExitsDecideArms(gl: set<string>, locals: Locals, arms: seq<Arm>, depth: nat, saw: bool)
    ensures OutsideLoop in AnalyzeArms(gl, locals, arms, depth, saw).diags <==> depth == 0 && StraysArms(arms)
    decreases arms, 0
  {
    if arms != [] {
      hide AnalyzeAll, CheckPatterns, BindLocals, StraysAll;
      ExitsDecideAll(gl, BindLocals(locals, arms[0].bindings).locals, arms[0].body, depth);
      ExitsDecideArms(gl, locals, arms[1..], depth, saw || Default in arms[0].patterns);
      PatternExits(arms[0], 0, saw);
      BindingExits(locals, arms[0].bindings);
    }
  }

  lemma {:induction false} PatternExits(arm: Arm, k: nat, saw: bool)
    ensures OutsideLoop !in CheckPatterns(arm, k, saw)
    decreases |arm.patterns| - k
  {
    if k < |arm.patterns| { PatternExits(arm, k + 1, saw || arm.patterns[k].Default?); }
  }

  lemma {:induction false} BindingExits(locals: Locals, names: seq<string>)
    ensures OutsideLoop !in BindLocals(locals, names).diags
    decreases |names|
  {
    if names != [] { BindingExits(if names[0] in locals then locals else locals[names[0] := false], names[1..]); }
  }

  /** Without it no run leaves the function by a loop exit. */
  lemma {:induction false} ExitsStay(gl: set<string>, st: Stmt, env: Env, cs: seq<nat>)
    requires !Strays(st)
    ensures var k := Exec(gl, st, env, cs).kind; !k.Broke? && !k.Continued?
    decreases |cs|, st, 2
  {
    hide Eval, EvalAll;
    EvaluationStays(gl);
    match st
    case If(c, a, b) =>
      var r := Eval(gl, c, env, cs);
      if r.kind.Normal? && r.cs != [] { ExitsStayAll(gl, if r.cs[0] != 0 then a else b, env, r.cs[1..]); }
    case Match(e, on, arms) =>
      var r := Eval(gl, e, env, cs);
      if r.kind.Normal? && r.cs != [] && (on.Wide? || on.n != 0) {
        ExitsStayArms(gl, arms, if on.Wide? then r.cs[0] else r.cs[0] % on.n, env, r.cs[1..]);
      }
    case While(_, _) => ExitsStayLoop(gl, st, env, cs);
    case For(init, _, _, _) =>
      ExitsStay(gl, init, env, cs);
      var r := Exec(gl, init, env, cs);
      if r.kind.Normal? { ExitsStayLoop(gl, st, r.env, r.cs); }
    case Unsafe(body) => ExitsStayAll(gl, body, env, cs);
    case _ =>
  }

  lemma EvaluationStays(gl: set<string>)
    ensures forall e, env, cs {:trigger Eval(gl, e, env, cs)} ::
      var k := Eval(gl, e, env, cs).kind; !k.Broke? && !k.Continued?
  {
    forall e, env, cs ensures var k := Eval(gl, e, env, cs).kind; !k.Broke? && !k.Continued? {
      EvalStays(gl, e, env, cs);
    }
  }

  lemma {:induction false} EvalStays(gl: set<string>, e: Expr, env: Env, cs: seq<nat>)
    ensures var k := Eval(gl, e, env, cs).kind; !k.Broke? && !k.Continued?
    decreases e, 1
  {
    match e
    case Name(_) =>
    case Node(args) => EvalAllStays(gl, args, env, cs);
    case Short(a, b) =>
      EvalStays(gl, a, env, cs);
      var r := Eval(gl, a, env, cs);
      if r.cs != [] { EvalStays(gl, b, env, r.cs[1..]); }
    case Try(a) => EvalStays(gl, a, env, cs);
  }

  lemma EvalAllStays(gl: set<string>, args: seq<Expr>, env: Env, cs: seq<nat>)
    ensures var k := EvalAll(gl, args, env, cs).kind; !k.Broke? && !k.Continued?
    decreases args, 0
  {
    if args != [] {
      EvalStays(gl, args[0], env, cs);
      EvalAllStays(gl, args[1..], env, Eval(gl, args[0], env, cs).cs);
    }
  }

  lemma ExitsStayAll(gl: set<string>, body: seq<Stmt>, env: Env, cs: seq<nat>)
    requires !StraysAll(body)
    ensures var k := ExecBody(gl, body, env, cs).kind; !k.Broke? && !k.Continued?
    decreases |cs|, body, 0
  {
    hide Exec, Eval, Strays;
    EvaluationStays(gl);
    if body == [] {
    } else if body[0].Defer? {
      ExitsStayAll(gl, body[1..], env, cs);
    } else {
      ExitsStay(gl, body[0], env, cs);
      var r := Exec(gl, body[0], env, cs);
      if r.kind.Normal? { ExitsStayAll(gl, body[1..], r.env, r.cs); }
    }
  }

  lemma ExitsStayArms(gl: set<string>, arms: seq<Arm>, v: nat, env: Env, cs: seq<nat>)
    requires !StraysArms(arms)
    ensures var k := ExecArms(gl, arms, v, env, cs).kind; !k.Broke? && !k.Continued?
    decreases |cs|, arms, 1
  {
    if arms == [] {
    } else if Hits(arms[0], v) {
      ExitsStayAll(gl, arms[0].body, Bind(env, arms[0].bindings), cs);
    } else {
      ExitsStayArms(gl, arms[1..], v, env, cs);
    }
  }

  lemma ExitsStayLoop(gl: set<string>, st: Stmt, env: Env, cs: seq<nat>)
    requires (st.While? || st.For?) && !Strays(st)
    ensures var k := ExecLoop(gl, st, env, cs).kind; !k.Broke? && !k.Continued?
    decreases |cs|, st, 1
  {
    hide Eval, Restrict, Scoped;
    EvaluationStays(gl);
    var r := Eval(gl, st.cond, env, cs);
    if !r.kind.Normal? || r.cs == [] || r.cs[0] == 0 { return; }
    var b := ExecBlock(gl, st.body, env, r.cs[1..]);
    var back := Restrict(b.env, env.Keys);
    if b.kind.Broke? || (!b.kind.Normal? && !b.kind.Continued?) { return; }
    if st.For? {
      ExitsStay(gl, st.step, back, b.cs);
      var q := Exec(gl, st.step, back, b.cs);
      if q.kind.Normal? { ExitsStayLoop(gl, st, q.env, q.cs); }
    } else {
      ExitsStayLoop(gl, st, back, b.cs);
    }
  }

  /** Loop exits are in place just if no run can leave the function by one. */
  lemma AcceptedStaysInLoops(gl: set<string>, params: set<string>, body: seq<Stmt>, cs: seq<nat>)
    requires OutsideLoop !in AnalyzeAll(gl, Entry(params), body, 0).diags
    ensures !StraysAll(body)
    ensures var k := ExecBody(gl, body, Start(params), cs).kind; !k.Broke? && !k.Continued?
  {
    hide ExecBody, AnalyzeAll, StraysAll;
    ExitsDecideAll(gl, Entry(params), body, 0);
    ExitsStayAll(gl, body, Start(params), cs);
  }
}
