/** The analyzer as the compiler has it: an object that walks the statements,
    updates the state of the locals and collects diagnostics. */
module SemaAnalyzer {
  import opened DefiniteAssignment

  lemma Cat(a: seq<Diagnostic>, b: seq<Diagnostic>, c: seq<Diagnostic>)
    ensures (a + b) + c == a + (b + c)
  {
  }

  lemma Cat3(o: seq<Diagnostic>, a: seq<Diagnostic>, b: seq<Diagnostic>, c: seq<Diagnostic>)
    ensures ((o + a) + b) + c == o + (a + b + c)
  {
    Cat(o, a, b);
    Cat(o, a + b, c);
  }

  lemma EmptyConverges()
    ensures !BodyDiverges([])
  {
  }

  class Analyzer {
    const statics: set<string>
    var diagnostics: seq<Diagnostic>

    constructor (statics: set<string>)
      ensures this.statics == statics && diagnostics == []
    {
      this.statics := statics;
      diagnostics := [];
    }

    method Error(d: Diagnostic)
      modifies this
      ensures diagnostics == old(diagnostics) + [d]
    {
      diagnostics := diagnostics + [d];
    }

    method CheckExpr(locals: Locals, e: DefiniteAssignment.Expr)
      modifies this
      ensures diagnostics == old(diagnostics) + DefiniteAssignment.CheckExpr(statics, locals, e)
      decreases e, 1
    {
      match e
      case Name(x) =>
        if x in locals {
          if locals[x] { Error(Uninitialized(x)); }
        } else if x !in statics {
          Error(UnknownName(x));
        }
      case Node(args) => CheckArguments(locals, args);
      case Short(a, b) =>
        CheckExpr(locals, a);
        CheckExpr(locals, b);
      case Try(a) => CheckExpr(locals, a);
    }

    method CheckArguments(locals: Locals, args: seq<DefiniteAssignment.Expr>)
      modifies this
      ensures diagnostics == old(diagnostics) + CheckAll(statics, locals, args)
      decreases args, 0
    {
      hide DefiniteAssignment.CheckExpr;
      for i := 0 to |args|
        invariant diagnostics + CheckAll(statics, locals, args[i..])
               == old(diagnostics) + CheckAll(statics, locals, args)
      {
        assert args[i..][1..] == args[i + 1..] && args[i..][0] == args[i];
        Cat(diagnostics, DefiniteAssignment.CheckExpr(statics, locals, args[i]), CheckAll(statics, locals,
            args[i + 1..]));
        CheckExpr(locals, args[i]);
      }
    }

    /** The state behind a join of the branches that get there. */
    method MergeUninitState(locals: Locals, branches: seq<Locals>) returns (out: Locals)
      ensures out == Merge(locals, branches)
    {
      out := locals;
      if branches == [] { return; }
      var todo := locals.Keys;
      while todo != {}
        invariant todo <= locals.Keys && out.Keys == locals.Keys
        invariant forall x :: x in todo ==> out[x] == locals[x]
        invariant forall x :: x in locals && x !in todo ==> out[x] == Merge(locals, branches)[x]
        decreases todo
      {
        var x :| x in todo;
        var anyUninit := false;
        for i := 0 to |branches|
          invariant anyUninit <==> exists j :: 0 <= j < i && x in branches[j] && branches[j][x]
        {
          if x in branches[i] && branches[i][x] { anyUninit := true; }
        }
        assert anyUninit <==> exists b :: b in branches && x in b && b[x];
        out := out[x := anyUninit];
        todo := todo - {x};
      }
    }

    /** Checks one statement and returns the state of the locals behind it. */
    method AnalyzeStatement(locals: Locals, st: Stmt, depth: nat) returns (out: Locals)
      modifies this
      ensures var r := Analyze(statics, locals, st, depth); out == r.locals && diagnostics == old(diagnostics) + r.diags
      decreases st, 1
    {
      hide DefiniteAssignment.CheckExpr, AnalyzeAll;
      out := locals;
      match st
      case Let(x, init) =>
        if x in locals { Error(Duplicate(x)); }
        if init.Some? { CheckExpr(locals, init.value); }
        if x !in locals { out := locals[x := init.None?]; }
      case Assign(x, e) =>
        if x !in locals {
          if x !in statics { Error(UnknownName(x)); }
          CheckExpr(locals, e);
        } else {
          CheckExpr(locals, e);
          out := locals[x := false];
        }
      case Expr(e) => CheckExpr(locals, e);
      case If(_, _, _) => out := AnalyzeIf(locals, st, depth);
      case Match(_, _, _) => out := AnalyzeMatch(locals, st, depth);
      case While(c, body) =>
        CheckExpr(locals, c);
        var bodyLocals := AnalyzeStatements(locals, body, depth + 1);
      case For(_, _, _, _) => AnalyzeFor(locals, st, depth);
      case Break => if depth == 0 { Error(OutsideLoop); }
      case Continue => if depth == 0 { Error(OutsideLoop); }
      case Return(e) => CheckExpr(locals, e);
      case Unsafe(body) => out := AnalyzeStatements(locals, body, depth);
      case Defer(e) => CheckExpr(locals, e);
    }

    method AnalyzeStatements(locals: Locals, body: seq<Stmt>, depth: nat) returns (out: Locals)
      modifies this
      ensures var r := AnalyzeAll(statics, locals, body, depth);
        out == r.locals && diagnostics == old(diagnostics) + r.diags
      decreases body, 0
    {
      hide Analyze;
      out := locals;
      ghost var goal := AnalyzeAll(statics, locals, body, depth);
      for i := 0 to |body|
        invariant AnalyzeAll(statics, out, body[i..], depth).locals == goal.locals
        invariant diagnostics + AnalyzeAll(statics, out, body[i..], depth).diags == old(diagnostics) + goal.diags
      {
        assert body[i..][1..] == body[i + 1..] && body[i..][0] == body[i];
        ghost var r := Analyze(statics, out, body[i], depth);
        Cat(diagnostics, r.diags, AnalyzeAll(statics, r.locals, body[i + 1..], depth).diags);
        out := AnalyzeStatement(out, body[i], depth);
      }
    }

    method AnalyzeFor(locals: Locals, st: Stmt, depth: nat)
      requires st.For?
      modifies this
      ensures diagnostics == old(diagnostics) + Analyze(statics, locals, st, depth).diags
      decreases st, 0
    {
      hide DefiniteAssignment.CheckExpr, AnalyzeAll;
      ghost var o, i := diagnostics, Analyze(statics, locals, st.init, depth);
      var forLocals := AnalyzeStatement(locals, st.init, depth);
      CheckExpr(forLocals, st.cond);
      var bodyLocals := AnalyzeStatements(forLocals, st.body, depth + 1);
      forLocals := AnalyzeStatement(forLocals, st.step, depth);
      ghost var d := DefiniteAssignment.CheckExpr(statics, i.locals, st.cond);
      ghost var p := AnalyzeAll(statics, i.locals, st.body, depth + 1);
      ghost var q := Analyze(statics, i.locals, st.step, depth);
      Cat3(o, i.diags, d, p.diags);
      Cat(o, i.diags + d + p.diags, q.diags);
    }

    method AnalyzeIf(locals: Locals, st: Stmt, depth: nat) returns (out: Locals)
      requires st.If?
      modifies this
      ensures var r := Analyze(statics, locals, st, depth); out == r.locals && diagnostics == old(diagnostics) + r.diags
      decreases st, 0
    {
      hide DefiniteAssignment.CheckExpr, AnalyzeAll, BodyDiverges, Merge;
      EmptyConverges();
      ghost var o, d := diagnostics, DefiniteAssignment.CheckExpr(statics, locals, st.cond);
      ghost var p := AnalyzeAll(statics, locals, st.thenBody, depth);
      ghost var q := AnalyzeAll(statics, locals, st.elseBody, depth);
      CheckExpr(locals, st.cond);
      var thenLocals := AnalyzeStatements(locals, st.thenBody, depth);
      var elseLocals := AnalyzeStatements(locals, st.elseBody, depth);
      var branches := [];
      if !BodyDiverges(st.thenBody) { branches := branches + [thenLocals]; }
      if st.elseBody == [] || !BodyDiverges(st.elseBody) { branches := branches + [elseLocals]; }
      Cat3(o, d, p.diags, q.diags);
      assert branches
          == (if BodyDiverges(st.thenBody) then [] else [p.locals])
           + (if BodyDiverges(st.elseBody) then [] else [q.locals]);
      out := MergeUninitState(locals, branches);
    }

    method AnalyzeMatch(locals: Locals, st: Stmt, depth: nat) returns (out: Locals)
      requires st.Match?
      modifies this
      ensures var r := Analyze(statics, locals, st, depth); out == r.locals && diagnostics == old(diagnostics) + r.diags
      decreases st, 0
    {
      hide DefiniteAssignment.CheckExpr, AnalyzeArms, Missing, HasDefault, Merge, Covered;
      ghost var o, d := diagnostics, DefiniteAssignment.CheckExpr(statics, locals, st.value);
      ghost var p := AnalyzeArms(statics, locals, st.arms, depth, false);
      ghost var missing := if st.on.Enum? && !HasDefault(st.arms) then Missing(st.arms, st.on.n) else [];
      Cat3(o, d, p.diags, missing);
      CheckExpr(locals, st.value);
      var branches := AnalyzeMatchArms(locals, st.arms, depth, false);
      var exhaustive := SawDefault(st.arms);
      if st.on.Enum? && !exhaustive {
        exhaustive := ReportMissing(st.arms, st.on.n);
      }
      if !exhaustive { branches := branches + [locals]; }
      assert exhaustive <==> HasDefault(st.arms) || (st.on.Enum? && missing == []);
      assert branches == p.branches + if exhaustive then [] else [locals];
      assert diagnostics == ((o + d) + p.diags) + missing;
      out := MergeUninitState(locals, branches);
    }

    method SawDefault(arms: seq<Arm>) returns (saw: bool)
      ensures saw <==> HasDefault(arms)
    {
      saw := false;
      for i := 0 to |arms|
        invariant saw <==> exists j :: 0 <= j < i && Default in arms[j].patterns
      {
        if Default in arms[i].patterns { saw := true; }
      }
    }

    /** Reports the variants that no arm names, and tells whether there were none. */
    method ReportMissing(arms: seq<Arm>, n: nat) returns (complete: bool)
      modifies this
      ensures diagnostics == old(diagnostics) + Missing(arms, n)
      ensures complete <==> Missing(arms, n) == []
    {
      complete := true;
      for v := 0 to n
        invariant diagnostics == old(diagnostics) + Missing(arms, v)
        invariant complete <==> Missing(arms, v) == []
      {
        var covered := IsCovered(arms, v);
        if !covered {
          complete := false;
          Error(MissingVariant(v));
        }
      }
    }

    method IsCovered(arms: seq<Arm>, v: nat) returns (covered: bool)
      ensures covered <==> Covered(arms, v)
    {
      covered := false;
      for i := 0 to |arms|
        invariant covered <==> exists j :: 0 <= j < i && Tag(v) in arms[j].patterns
      {
        if Tag(v) in arms[i].patterns { covered := true; }
      }
    }

    /** Checks the arms and returns the states at the ends of those that do not
        diverge. */
    method AnalyzeMatchArms(locals: Locals, arms: seq<Arm>, depth: nat, saw: bool) returns (branches: seq<Locals>)
      modifies this
      ensures var r := AnalyzeArms(statics, locals, arms, depth, saw);
        branches == r.branches && diagnostics == old(diagnostics) + r.diags
      decreases arms, 0
    {
      hide AnalyzeAll, BodyDiverges, BindLocals, CheckPatterns;
      branches := [];
      if arms != [] {
        ghost var o, a := diagnostics, CheckPatterns(arms[0], 0, saw);
        ghost var b := BindLocals(locals, arms[0].bindings);
        ghost var p := AnalyzeAll(statics, b.locals, arms[0].body, depth).diags;
        var sawDefault := CheckArmPatterns(arms[0], saw);
        var armLocals := BindPattern(locals, arms[0].bindings);
        armLocals := AnalyzeStatements(armLocals, arms[0].body, depth);
        var rest := AnalyzeMatchArms(locals, arms[1..], depth, sawDefault);
        Cat3(o, a, b.diags, p);
        Cat(o, a + b.diags + p, AnalyzeArms(statics, locals, arms[1..], depth, sawDefault).diags);
        branches := (if BodyDiverges(arms[0].body) then [] else [armLocals]) + rest;
      }
    }

    /** Reports default patterns out of place, and tells whether there has been one. */
    method CheckArmPatterns(arm: Arm, saw: bool) returns (sawDefault: bool)
      modifies this
      ensures diagnostics == old(diagnostics) + CheckPatterns(arm, 0, saw)
      ensures sawDefault <==> saw || Default in arm.patterns
    {
      hide DefiniteAssignment.CheckPattern;
      sawDefault := saw;
      for k := 0 to |arm.patterns|
        invariant diagnostics + CheckPatterns(arm, k, sawDefault) == old(diagnostics) + CheckPatterns(arm, 0, saw)
        invariant sawDefault <==> saw || Default in arm.patterns[..k]
      {
        var pattern := arm.patterns[k];
        ghost var rest := CheckPatterns(arm, k + 1, sawDefault || pattern.Default?);
        Cat(diagnostics, DefiniteAssignment.CheckPattern(arm, k, sawDefault), rest);
        CheckPattern(arm, k, sawDefault);
        assert arm.patterns[..k + 1] == arm.patterns[..k] + [pattern];
        if pattern.Default? { sawDefault := true; }
      }
      assert arm.patterns[..|arm.patterns|] == arm.patterns;
      if arm.bindings != [] && |arm.patterns| != 1 { Error(BindingNotAlone); }
    }

    method CheckPattern(arm: Arm, k: nat, saw: bool)
      requires k < |arm.patterns|
      modifies this
      ensures diagnostics == old(diagnostics) + DefiniteAssignment.CheckPattern(arm, k, saw)
    {
      if saw { Error(DefaultNotLast); }
      if arm.patterns[k].Default? {
        if |arm.patterns| != 1 { Error(DefaultNotAlone); }
      }
    }

    method BindPattern(locals: Locals, names: seq<string>) returns (out: Locals)
      modifies this
      ensures var r := BindLocals(locals, names); out == r.locals && diagnostics == old(diagnostics) + r.diags
    {
      out := locals;
      for i := 0 to |names|
        invariant BindLocals(out, names[i..]).locals == BindLocals(locals, names).locals
        invariant diagnostics + BindLocals(out, names[i..]).diags == old(diagnostics) + BindLocals(locals, names).diags
      {
        assert names[i..][1..] == names[i + 1..] && names[i..][0] == names[i];
        ghost var before := diagnostics;
        ghost var rest := BindLocals(if names[i] in out then out else out[names[i] := false], names[i + 1..]).diags;
        if names[i] in out {
          Error(Duplicate(names[i]));
          Cat(before, [Duplicate(names[i])], rest);
        } else {
          out := out[names[i] := false];
          assert [] + rest == rest;
        }
      }
    }

    /** Checks a function body whose parameters are `params`. */
    method AnalyzeFunction(params: set<string>, body: seq<Stmt>)
      modifies this
      ensures diagnostics == old(diagnostics) + AnalyzeAll(statics, map x | x in params :: false, body, 0).diags
    {
      var locals := AnalyzeStatements(map x | x in params :: false, body, 0);
    }
  }
}
