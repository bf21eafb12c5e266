/** A well-typed module that uses every kind of statement, so that the theorems about
    well-typed modules speak of something. */
module TypingExample {
  import opened Words
  import opened Ir
  import opened IrSemantics
  import opened Typing

  function I(): Value {
    Local("i", I32)
  }

  function N(): Value {
    Local("n", I32)
  }

  function Less(a: Value, b: Value): Value {
    Binary(Lt, a, b, Bool)
  }

  function Looping(): Stmt {
    While(And(Less(I(), N()), Not(BoolLit(false))), [
      Assign("i", Binary(Add, I(), IntLit(I32, 1), I32)),
      If(Binary(Eq, I(), IntLit(I32, 3), Bool), [Break], [Continue])])
  }

  function Counting(): Stmt {
    For(Let(1, "j", Cast(IntLit(U32, 0), I32)), Or(Less(Local("j", I32), N()), BoolLit(false)),
        Assign("j", Binary(Sub, Local("j", I32), IntLit(I32, -1), I32)),
        [Expr(Incr(true, true, true, "i", I32))])
  }

  function Choosing(): Stmt {
    Match(2, N(), [
      Arm([IntPattern(1), IntPattern(2)], [Return(Neg(I()))]),
      Arm([Default], [Return(Call("f", [Binary(Div, N(), IntLit(I32, 2), I32)], I32))])])
  }

  function Sample(): Function {
    Function("f", [Param("n", I32)], I32, [Let(0, "i", IntLit(I32, 0)), Looping(), Counting(), Choosing()])
  }

  function Types(): Signatures {
    map["f" := Signature([I32], I32)]
  }

  lemma SampleIsTyped(x: Externs)
    ensures TypedModule(Types(), Module([Sample()]), x)
  {
    hide TypedFunction;
    FunctionIsTyped();
    var m := Module([Sample()]);
    assert m.functions[0].name == "f" && m.Defines("f");
  }

  lemma FunctionIsTyped()
    ensures TypedFunction(Types(), Sample())
  {
    hide TypedStmt, Looping, Counting, Choosing, MustReturn;
    var g0: Context, g: Context, f := map["n" := I32], map["n" := I32, "i" := I32], Sample();
    Params();
    FirstIsTyped(g0);
    StatementsAreTyped(g);
    Leaves(Looping(), Counting(), Choosing());
    assert f.body[1..] == [Looping(), Counting(), Choosing()];
    assert f.body[1..][1..] == [Counting(), Choosing()] && f.body[1..][1..][1..] == [Choosing()];
    assert f.body[1..][1..][1..][1..] == [];
    assert g0["i" := I32] == g;
    BodyIsTyped(g, Looping(), Counting(), Choosing());
    assert MustReturn(f.body) by { Returns(); }
  }

  lemma Params()
    ensures ParamContext(Sample().params) == map["n" := I32] && ParamTypes(Sample().params) == [I32]
  {
    var ps := Sample().params;
    assert ps[..0] == [] && ps[0] == Param("n", I32);
    assert ParamContext([]) == map[];
  }

  lemma FirstIsTyped(g: Context)
    requires g == map["n" := I32]
    ensures TypedStmt(Types(), g, Let(0, "i", IntLit(I32, 0)), I32, false)
    ensures After(Let(0, "i", IntLit(I32, 0)), g) == g["i" := I32]
  {
  }

  lemma Leaves(a: Stmt, b: Stmt, c: Stmt)
    requires a == Looping() && b == Counting() && c == Choosing()
    ensures !a.Let? && !b.Let? && !c.Let?
  {
  }

  lemma BodyIsTyped(g: Context, a: Stmt, b: Stmt, c: Stmt)
    requires !a.Let? && !b.Let? && !c.Let?
    requires TypedStmt(Types(), g, a, I32, false) && TypedStmt(Types(), g, b, I32, false)
    requires TypedStmt(Types(), g, c, I32, false)
    ensures TypedBody(Types(), g, [a, b, c], I32, false)
  {
    hide TypedStmt;
    assert [a, b, c][1..] == [b, c] && [b, c][1..] == [c] && [c][1..] == [];
    assert TypedBody(Types(), g, [c], I32, false);
    assert TypedBody(Types(), g, [b, c], I32, false);
  }

  lemma StatementsAreTyped(g: Context)
    requires g == map["n" := I32, "i" := I32]
    ensures TypedStmt(Types(), g, Looping(), I32, false)
    ensures TypedStmt(Types(), g, Counting(), I32, false)
    ensures TypedStmt(Types(), g, Choosing(), I32, false)
  {
    hide TypedStmt;
    LoopingIsTyped(g);
    CountingIsTyped(g);
    ChoosingIsTyped(g);
  }

  lemma LoopingIsTyped(g: Context)
    requires g == map["n" := I32, "i" := I32]
    ensures TypedStmt(Types(), g, Looping(), I32, false)
  {
    var a := Assign("i", Binary(Add, I(), IntLit(I32, 1), I32));
    var b := If(Binary(Eq, I(), IntLit(I32, 3), Bool), [Break], [Continue]);
    LoopValues(g);
    hide TypedValue;
    LeavingIsTyped(g, b);
    assert [a, b][1..] == [b] && [b][1..] == [];
    assert TypedBody(Types(), g, [b], I32, true);
  }

  lemma LoopValues(g: Context)
    requires g == map["n" := I32, "i" := I32]
    ensures TypedValue(Types(), g, And(Less(I(), N()), Not(BoolLit(false))))
    ensures TypedValue(Types(), g, Binary(Add, I(), IntLit(I32, 1), I32))
    ensures TypedValue(Types(), g, Binary(Eq, I(), IntLit(I32, 3), Bool))
  {
  }

  lemma LeavingIsTyped(g: Context, b: Stmt)
    requires b == If(Binary(Eq, I(), IntLit(I32, 3), Bool), [Break], [Continue])
    requires TypedValue(Types(), g, b.cond)
    ensures TypedStmt(Types(), g, b, I32, true)
  {
    hide TypedValue;
    assert [Break][1..] == [] && [Continue][1..] == [];
    assert TypedBody(Types(), g, [Break], I32, true) && TypedBody(Types(), g, [Continue], I32, true);
  }

  lemma CountingIsTyped(g: Context)
    requires g == map["n" := I32, "i" := I32]
    ensures TypedStmt(Types(), g, Counting(), I32, false)
  {
    var s := Counting();
    CountValues(g["j" := I32]);
    StartValue(g);
    hide TypedValue;
    assert s.body[1..] == [];
    assert TypedBody(Types(), g["j" := I32], s.body, I32, true);
    assert TypedStmt(Types(), g["j" := I32], s.step, I32, false);
  }

  lemma StartValue(g: Context)
    ensures TypedValue(Types(), g, Cast(IntLit(U32, 0), I32))
    ensures After(Counting().init, g) == g["j" := I32]
  {
  }

  lemma CountValues(g: Context)
    requires g == map["n" := I32, "i" := I32, "j" := I32]
    ensures TypedValue(Types(), g, Or(Less(Local("j", I32), N()), BoolLit(false)))
    ensures TypedValue(Types(), g, Binary(Sub, Local("j", I32), IntLit(I32, -1), I32))
    ensures TypedValue(Types(), g, Incr(true, true, true, "i", I32))
  {
  }

  lemma ChoosingIsTyped(g: Context)
    requires g == map["n" := I32, "i" := I32]
    ensures TypedStmt(Types(), g, Choosing(), I32, false)
  {
    var arms := Choosing().arms;
    var half := Binary(Div, N(), IntLit(I32, 2), I32);
    assert [half][1..] == [];
    assert TypedArgs(Types(), g, [half]);
    assert arms[0].body[1..] == [] && arms[1].body[1..] == [] && arms[1..] == [arms[1]] && arms[1..][1..] == [];
    assert TypedBody(Types(), g, arms[0].body, I32, false);
    assert TypedBody(Types(), g, arms[1].body, I32, false);
    PatternsAre(arms);
  }

  lemma PatternsAre(arms: seq<Arm>)
    requires arms == Choosing().arms
    ensures PatternsFit(arms, I32)
  {
    assert Default !in arms[0].patterns;
  }

  lemma Returns()
    ensures MustReturn(Sample().body)
  {
    var arms := Choosing().arms;
    assert arms[1..] == [arms[1]] && arms[1..][1..] == [];
    assert arms[|arms| - 1].patterns[0] == Default;
    assert MustReturn(arms[0].body) && MustReturn(arms[1].body);
    assert StmtReturns(Choosing());
  }
}
