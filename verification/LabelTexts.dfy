/** Labels as the assembler sees them: those of the code, and those of string literals
    and statics. */
module LabelTexts {
  import opened Frames
  import opened Paths
  import opened Decimals
  import opened StackCode
  import opened StackModule
  import opened StackStatements
  import opened LabelTree
  import I386

  type Stmt = StackCode.Stmt
  type Arm = StackCode.Arm

  // ---- modules with data ----

  /** A static array; `strings` says which of its initializers are string literals. */
  datatype Buffer = Buffer(path: Path, strings: seq<bool>)

  /** A function with a body. Only instances of generic functions have a suffix. */
  datatype Item = Item(path: Path, suffix: Name, locals: nat, body: seq<Stmt>)

  datatype Module = Module(buffers: seq<Buffer>, scalars: seq<Path>, items: seq<Item>)

  function SymbolOf(f: Item): string {
    Symbol(f.path) + f.suffix
  }

  function Functions(items: seq<Item>): (fs: seq<Function>)
    ensures |fs| == |items|
    ensures forall i :: 0 <= i < |fs| ==> fs[i].name == SymbolOf(items[i]) && fs[i].body == items[i].body
  {
    seq(|items|, i requires 0 <= i < |items| => Function(SymbolOf(items[i]), items[i].locals, items[i].body))
  }

  function StaticNames(m: Module): (names: seq<string>)
    ensures |names| == |m.scalars| + |m.buffers|
  {
    seq(|m.scalars|, i requires 0 <= i < |m.scalars| => Symbol(m.scalars[i]))
    + seq(|m.buffers|, i requires 0 <= i < |m.buffers| => Symbol(m.buffers[i].path))
  }

  // ---- string literals ----

  function Strings(v: Value): nat
    decreases v, 1
  {
    match v
    case StringLiteral(_) => 1
    case Wrap(_, a) => Strings(a)
    case Binary(_, a, b) => Strings(a) + Strings(b)
    case Logical(_, _, a, b) => Strings(a) + Strings(b)
    case Call(_, _, args) => StringsInAll(args)
    case Literal(_, _, fields) => StringsInFields(fields)
    case FieldOf(_, _, base) => Strings(base)
    case _ => 0
  }

  function StringsInAll(args: seq<Value>): nat
    decreases args, 0
  {
    if args == [] then 0 else Strings(args[0]) + StringsInAll(args[1..])
  }

  function StringsInFields(fields: seq<Field>): nat
    decreases fields, 0
  {
    if fields == [] then 0 else StringsInField(fields[0]) + StringsInFields(fields[1..])
  }

  function StringsInField(f: Field): nat
    decreases f, 0
  {
    Strings(f.value)
  }

  function StringsInStmt(st: Stmt): nat
    decreases st, 1
  {
    match st
    case Let(v) => Strings(v)
    case Assign(_, v) => Strings(v)
    case Store(v, target) => Strings(target) + Strings(v)
    case Expr(v) => Strings(v)
    case If(c, a, b) => Strings(c) + StringsInBody(a) + StringsInBody(b)
    case While(c, body) => Strings(c) + StringsInBody(body)
    case For(init, c, step, body) => StringsInStmt(init) + Strings(c) + StringsInStmt(step) + StringsInBody(body)
    case Match(v, arms) => Strings(v) + StringsInArms(arms)
    case Return(v) => Strings(v)
    case _ => 0
  }

  function StringsInArms(arms: seq<Arm>): nat
    decreases arms, 0
  {
    if arms == [] then 0 else StringsInBody(arms[0].body) + StringsInArms(arms[1..])
  }

  function StringsInBody(body: seq<Stmt>): nat
    decreases body, 0
  {
    if body == [] then 0 else StringsInStmt(body[0]) + StringsInBody(body[1..])
  }

  function StringsInItems(items: seq<Item>): nat {
    if items == [] then 0 else StringsInBody(items[0].body) + StringsInItems(items[1..])
  }

  // ---- labels ----

  /** A label of the code, of a string literal, of a static, or of a string literal in the
      initializer of a static. */
  datatype Mark = Code(l: Label) | StringAt(k: nat) | StaticOf(name: string) | StringOf(name: string, i: nat)

  predicate IsEntry(k: Mark) {
    k.Code? && k.l.FunctionOf?
  }

  function PrefixText(p: I386.Prefix): string {
    match p
    case Else => "L_else_"
    case EndIf => "L_end_if_"
    case MatchEnd => "L_match_end_"
    case MatchArm => "L_match_arm_"
    case WhileStart => "L_while_start_"
    case WhileEnd => "L_while_end_"
    case ForCondition => "L_for_condition_"
    case ForIncrement => "L_for_increment_"
    case ForEnd => "L_for_end_"
    case LogicFalse => "L_logic_false_"
    case LogicTrue => "L_logic_true_"
    case LogicEnd => "L_logic_end_"
  }

  /** The text of any label but that of an entry, without the dot. */
  function LocalText(k: Mark): string
    requires !IsEntry(k)
  {
    match k
    case Code(l) => if l.ReturnOf? then "L_return_" + l.f else PrefixText(l.prefix) + Decimal(l.id)
    case StringAt(k) => "Lstr" + Decimal(k)
    case StaticOf(name) => "Lstatic_" + name
    case StringOf(name, i) => "Lstaticstr_" + (name + "_") + Decimal(i)
  }

  /** On x86 all labels but entries begin with a dot. On Mach-O the names of functions
      get an underscore. */
  function Text(t: Target, macos: bool, k: Mark): string {
    if IsEntry(k) then (if t.Arm64? && macos then "_" + k.l.f else k.l.f)
    else (if t.Arm64? then "" else ".") + LocalText(k)
  }

  /** The labels that a module defines, in the order of its output. */
  function Definitions(t: Target, m: Module): seq<Mark> {
    DataMarks(m) + CodeMarks(EmitFunctions(t, Functions(m.items), 0).code)
  }

  function DataMarks(m: Module): seq<Mark> {
    BufferStrings(m.buffers) + (seq(StringsInItems(m.items), (k: nat) => StringAt(k)) + StaticMarks(StaticNames(m)))
  }

  function StaticMarks(names: seq<string>): seq<Mark> {
    seq(|names|, i requires 0 <= i < |names| => StaticOf(names[i]))
  }

  function BufferStrings(bs: seq<Buffer>): seq<Mark> {
    if bs == [] then [] else StringsFrom(Symbol(bs[0].path), bs[0].strings, 0) + BufferStrings(bs[1..])
  }

  /** The string initializers from number `i` on. */
  function StringsFrom(name: string, strings: seq<bool>, i: nat): seq<Mark>
    decreases |strings| - i
  {
    if i >= |strings| then []
    else (if strings[i] then [StringOf(name, i)] else []) + StringsFrom(name, strings, i + 1)
  }

  function CodeMarks(c: seq<Op>): seq<Mark> {
    if c == [] then [] else (if c[0].Def? then [Code(c[0].at)] else []) + CodeMarks(c[1..])
  }

  /** The assembler sees no label defined twice. */
  predicate UniqueTexts(t: Target, macos: bool, m: Module) {
    var d := Definitions(t, m);
    forall i, j :: 0 <= i < j < |d| ==> Text(t, macos, d[i]) != Text(t, macos, d[j])
  }

  // ---- when labels are unique ----

  predicate Distinct<T(==)>(s: seq<T>) {
    forall i, j :: 0 <= i < j < |s| ==> s[i] != s[j]
  }

  predicate SymbolsApart(m: Module) {
    forall i, j :: 0 <= i < j < |m.items| ==> SymbolOf(m.items[i]) != SymbolOf(m.items[j])
  }

  /** The labels of a module for arm64 that are no entries, read off its source tree. */
  function LocalMarks(m: Module): set<Mark> {
    (set f | f in m.items :: Code(I386.ReturnOf(SymbolOf(f))))
    + (set l | l in From(OfFunctions(Arm64, Functions(m.items)), 0) :: Code(l))
    + (set k | k in DataMarks(m))
  }

  /** A function is named like one of these labels. */
  predicate Misnamed(m: Module) {
    exists f, k :: f in m.items && k in LocalMarks(m) && !IsEntry(k) && SymbolOf(f) == LocalText(k)
  }

  lemma DistinctCat<T>(a: seq<T>, b: seq<T>)
    ensures Distinct(a + b) <==> Distinct(a) && Distinct(b) && forall x :: x in a ==> x !in b
  {
    var c := a + b;
    if Distinct(c) {
      forall i, j | 0 <= i < j < |b| ensures b[i] != b[j] { assert c[|a| + i] != c[|a| + j]; }
      forall i, j | 0 <= i < j < |a| ensures a[i] != a[j] { assert c[i] != c[j]; }
      forall i, j | 0 <= i < |a| && 0 <= j < |b| ensures a[i] != b[j] { assert c[i] != c[|a| + j]; }
    } else {
      var i, j :| 0 <= i < j < |c| && c[i] == c[j];
      if i < |a| <= j { assert a[i] in a && b[j - |a|] in b; }
    }
  }

  // ---- data ----

  lemma {:induction false} StringsFromNamed(name: string, strings: seq<bool>, i: nat)
    ensures var ks := StringsFrom(name, strings, i);
      Distinct(ks) && forall k :: k in ks ==> k.StringOf? && k.name == name && k.i >= i
    decreases |strings| - i
  {
    if i < |strings| {
      StringsFromNamed(name, strings, i + 1);
      DistinctCat(if strings[i] then [StringOf(name, i)] else [], StringsFrom(name, strings, i + 1));
    }
  }

  function BufferNames(bs: seq<Buffer>): seq<string> {
    seq(|bs|, i requires 0 <= i < |bs| => Symbol(bs[i].path))
  }

  lemma {:induction false} BufferStringsNamed(bs: seq<Buffer>)
    ensures forall k :: k in BufferStrings(bs) ==> k.StringOf? && k.name in BufferNames(bs)
    ensures Distinct(BufferNames(bs)) ==> Distinct(BufferStrings(bs))
    decreases |bs|
  {
    if bs != [] {
      var name := Symbol(bs[0].path);
      assert BufferNames(bs) == [name] + BufferNames(bs[1..]);
      BufferStringsNamed(bs[1..]);
      StringsFromNamed(name, bs[0].strings, 0);
      DistinctCat(StringsFrom(name, bs[0].strings, 0), BufferStrings(bs[1..]));
      DistinctCat([name], BufferNames(bs[1..]));
    }
  }

  lemma StaticMarksDistinct(names: seq<string>)
    ensures Distinct(StaticMarks(names)) <==> Distinct(names)
    ensures forall k :: k in StaticMarks(names) ==> k.StaticOf?
  {
    var ks := StaticMarks(names);
    forall i, j | 0 <= i < j < |names| ensures ks[i] != ks[j] <==> names[i] != names[j] {}
    if Distinct(ks) {
      forall i, j | 0 <= i < j < |names| ensures names[i] != names[j] { assert ks[i] != ks[j]; }
    }
  }

  lemma DataDistinct(m: Module)
    ensures Distinct(DataMarks(m)) <==> Distinct(StaticNames(m))
    ensures forall k :: k in DataMarks(m) ==> !k.Code?
  {
    hide BufferStrings, StaticMarks, StringsInItems, Distinct;
    var a, n, names := BufferStrings(m.buffers), StringsInItems(m.items), StaticNames(m);
    var b, c := seq(n, (k: nat) => StringAt(k)), StaticMarks(names);
    BufferStringsNamed(m.buffers);
    StaticMarksDistinct(names);
    assert Distinct(b) by { NumberedApart(n); }
    var scalars := seq(|m.scalars|, i requires 0 <= i < |m.scalars| => Symbol(m.scalars[i]));
    assert names == scalars + BufferNames(m.buffers);
    DistinctCat(scalars, BufferNames(m.buffers));
    DistinctCat(b, c);
    DistinctCat(a, b + c);
  }

  lemma NumberedApart(n: nat)
    ensures Distinct(seq(n, (k: nat) => StringAt(k)))
  {
  }

  // ---- code ----

  lemma {:induction false} CodeMarksOf(c: seq<Op>)
    ensures forall k :: k in CodeMarks(c) <==> k.Code? && k.l in LabelsIn(c)
    ensures Distinct(CodeMarks(c)) <==> DefinedOnce(c)
    decreases |c|
  {
    if c != [] {
      CodeMarksOf(c[1..]);
      LabelsCat([c[0]], c[1..]);
      assert [c[0]] + c[1..] == c;
      var first := if c[0].Def? then [Code(c[0].at)] else [];
      assert LabelsIn([c[0]]) == if c[0].Def? then {c[0].at} else {} by { assert [c[0]][0] == c[0]; }
      DistinctCat(first, CodeMarks(c[1..]));
      OnceMore(c);
    }
  }

  lemma OnceMore(c: seq<Op>)
    requires c != []
    ensures DefinedOnce(c) <==> DefinedOnce(c[1..]) && (c[0].Def? ==> c[0].at !in LabelsIn(c[1..]))
  {
    var d := c[1..];
    assert forall i :: 0 <= i < |d| ==> d[i] == c[i + 1];
    if DefinedOnce(d) && (c[0].Def? ==> c[0].at !in LabelsIn(d)) {
      forall i, j | 0 <= i < j < |c| && c[i].Def? ensures c[i] != c[j] {
        assert c[j] == d[j - 1];
        if i > 0 { assert c[i] == d[i - 1]; }
      }
    }
    if DefinedOnce(c) {
      forall i, j | 0 <= i < j < |d| && d[i].Def? ensures d[i] != d[j] { assert c[i + 1] != c[j + 1]; }
      forall j | 0 <= j < |d| && c[0].Def? ensures d[j] != c[0] { assert c[j + 1] != c[0]; }
    }
  }

  // ---- texts ----

  lemma PrefixShape(p: I386.Prefix)
    ensures var s := PrefixText(p); |s| >= 7 && s[0] == 'L' && s[|s| - 1] == '_' && s[2] != 'r'
  {
  }

  lemma PrefixesDiffer(p: I386.Prefix, q: I386.Prefix)
    requires PrefixText(p) == PrefixText(q)
    ensures p == q
  {
    var s := PrefixText(q);
    match p
    case Else => assert s[3] == 'l' && |s| == 7;
    case EndIf => assert s[3] == 'n';
    case MatchEnd => assert s[2] == 'm' && s[8] == 'e';
    case MatchArm => assert s[2] == 'm' && s[8] == 'a';
    case WhileStart => assert s[2] == 'w' && s[8] == 's';
    case WhileEnd => assert s[2] == 'w' && s[8] == 'e';
    case ForCondition => assert s[2] == 'f' && s[6] == 'c';
    case ForIncrement => assert s[2] == 'f' && s[6] == 'i';
    case ForEnd => assert s[2] == 'f' && s[6] == 'e';
    case LogicFalse => assert s[2] == 'l' && s[8] == 'f';
    case LogicTrue => assert s[2] == 'l' && s[8] == 't';
    case LogicEnd => assert s[2] == 'l' && s[8] == 'e';
  }

  lemma Longer(a: string, d: string, b: string, e: string)
    requires |a| < |b| && b[|b| - 1] == '_' && AllDigits(d)
    ensures a + d != b + e
  {
    if |a + d| == |b + e| {
      var k := |b| - 1;
      assert (a + d)[k] == d[k - |a|] && (b + e)[k] == b[k];
    }
  }

  /** Cutting a text into what ends in an underscore and the digits behind. */
  lemma LastUnderscore(a: string, d: string, b: string, e: string)
    requires a != "" && b != "" && a[|a| - 1] == '_' && b[|b| - 1] == '_' && AllDigits(d) && AllDigits(e)
    requires a + d == b + e
    ensures a == b && d == e
  {
    if |a| < |b| { Longer(a, d, b, e); }
    if |b| < |a| { Longer(b, e, a, d); }
    var s := a + d;
    assert a == s[..|a|] && b == s[..|b|] && d == s[|a|..] && e == s[|b|..];
  }

  lemma DecimalsDiffer(a: nat, b: nat)
    requires Decimal(a) == Decimal(b)
    ensures a == b
  {
    DecimalNumber(a);
    DecimalNumber(b);
  }

  lemma CodeTextsDiffer(a: Mark, b: Mark)
    requires a.Code? && b.Code? && !IsEntry(a) && !IsEntry(b) && LocalText(a) == LocalText(b)
    ensures a == b
  {
    hide PrefixText, Number, Decimal;
    var l, k := a.l, b.l;
    if l.Numbered? { PrefixShape(l.prefix); }
    if k.Numbered? { PrefixShape(k.prefix); }
    assert l.ReturnOf? <==> LocalText(a)[2] == 'r';
    assert k.ReturnOf? <==> LocalText(b)[2] == 'r';
    if l.Numbered? && k.Numbered? {
      DecimalNumber(l.id);
      DecimalNumber(k.id);
      LastUnderscore(PrefixText(l.prefix), Decimal(l.id), PrefixText(k.prefix), Decimal(k.id));
      PrefixesDiffer(l.prefix, k.prefix);
    } else if l.ReturnOf? && k.ReturnOf? {
      assert l.f == LocalText(a)[9..] && k.f == LocalText(b)[9..];
    }
  }

  /** The kinds of labels differ in their first characters. */
  lemma KindsDiffer(a: Mark)
    requires !IsEntry(a)
    ensures var s := LocalText(a);
      && |s| >= 4 && s[0] == 'L' && (a.Code? <==> s[1] == '_') && (a.StringAt? <==> s[1] == 's' && s[3] == 'r')
      && (a.StaticOf? || a.StringOf? ==> |s| >= 8 && (a.StaticOf? <==> s[7] == '_'))
  {
    if a.Code? {
      if a.l.Numbered? { PrefixStart(a.l.prefix); }
    } else if a.StringAt? {
      DecimalNumber(a.k);
    }
  }

  lemma PrefixStart(p: I386.Prefix)
    ensures |PrefixText(p)| >= 4 && PrefixText(p)[0] == 'L' && PrefixText(p)[1] == '_'
  {
  }

  lemma LocalTextsDiffer(a: Mark, b: Mark)
    requires !IsEntry(a) && !IsEntry(b) && LocalText(a) == LocalText(b)
    ensures a == b
  {
    hide Decimal, PrefixText;
    KindsDiffer(a);
    KindsDiffer(b);
    var s, u := LocalText(a), LocalText(b);
    match a
    case Code(_) => CodeTextsDiffer(a, b);
    case StringAt(k) =>
      assert s[4..] == Decimal(k) && u[4..] == Decimal(b.k);
      DecimalsDiffer(k, b.k);
    case StaticOf(name) => assert s[8..] == name && u[8..] == b.name;
    case StringOf(name, i) => InitializersDiffer(a, b);
  }

  lemma InitializersDiffer(a: Mark, b: Mark)
    requires a.StringOf? && b.StringOf? && LocalText(a) == LocalText(b)
    ensures a == b
  {
    hide Decimal, Number;
    var p, q := "Lstaticstr_" + (a.name + "_"), "Lstaticstr_" + (b.name + "_");
    DecimalNumber(a.i);
    DecimalNumber(b.i);
    LastUnderscore(p, Decimal(a.i), q, Decimal(b.i));
    assert p[11..|p| - 1] == a.name && q[11..|q| - 1] == b.name;
    DecimalsDiffer(a.i, b.i);
  }

  /** Entries differ in their texts, and so do all other labels among themselves. */
  lemma TextsDiffer(t: Target, macos: bool, a: Mark, b: Mark)
    requires IsEntry(a) == IsEntry(b) && a != b
    ensures Text(t, macos, a) != Text(t, macos, b)
  {
    hide LocalText;
    var s, u := Text(t, macos, a), Text(t, macos, b);
    if s == u {
      if IsEntry(a) {
        SameTail(s, u, a.l.f, b.l.f, |s| - |a.l.f|);
      } else {
        SameTail(s, u, LocalText(a), LocalText(b), |s| - |LocalText(a)|);
        LocalTextsDiffer(a, b);
      }
    }
  }

  lemma SameTail(s: string, u: string, a: string, b: string, k: nat)
    requires s == u && k <= |s| && k <= |u| && s[k..] == a && u[k..] == b
    ensures a == b
  {
  }

  /** An entry and another label look alike on arm64 with ELF only: elsewhere labels have
      a dot in front, or names an underscore. */
  lemma EntryApart(t: Target, macos: bool, f: Item, b: Mark)
    requires !IsEntry(b)
    ensures var a := Code(I386.FunctionOf(SymbolOf(f)));
      Text(t, macos, a) == Text(t, macos, b) <==> t.Arm64? && !macos && SymbolOf(f) == LocalText(b)
  {
    hide LocalText;
    var a := Code(I386.FunctionOf(SymbolOf(f)));
    SymbolHasNoDot(f.path);
    KindsDiffer(b);
    if !t.Arm64? {
      assert Text(t, macos, b)[0] == '.';
    } else if macos {
      assert Text(t, macos, b)[0] == 'L' && Text(t, macos, a)[0] == '_';
    }
  }

  // ---- modules ----

  lemma MarksDistinct(t: Target, m: Module)
    requires AllFunctionsOk(Functions(m.items))
    ensures Distinct(Definitions(t, m)) <==> SymbolsApart(m) && Distinct(StaticNames(m))
  {
    hide EmitFunctions, DataMarks, CodeMarks, StaticNames, Distinct, WellLabelled, DefinedOnce;
    var fs := Functions(m.items);
    var c := EmitFunctions(t, fs, 0).code;
    ModuleLabels(t, fs, 0);
    CodeMarksOf(c);
    DataDistinct(m);
    DistinctCat(DataMarks(m), CodeMarks(c));
  }

  /** What is defined: the entries, and on arm64 the labels of the source tree. */
  lemma MarksAre(t: Target, m: Module)
    ensures forall k :: k in Definitions(t, m) && IsEntry(k) ==>
      exists f :: f in m.items && k == Code(I386.FunctionOf(SymbolOf(f)))
    ensures forall f :: f in m.items ==> Code(I386.FunctionOf(SymbolOf(f))) in Definitions(t, m)
    ensures t.Arm64? ==> forall k :: k in Definitions(t, m) && !IsEntry(k) <==> k in LocalMarks(m)
  {
    hide EmitFunctions, DataMarks, CodeMarks, LabelsIn, OfFunctions;
    var fs := Functions(m.items);
    var c := EmitFunctions(t, fs, 0).code;
    CodeMarksOf(c);
    DataDistinct(m);
    ModuleDraws(t, fs, 0);
    EndsAre(m);
  }

  lemma EndsAre(m: Module)
    ensures forall l :: l in Ends(Functions(m.items)) <==>
      exists f :: f in m.items && (l == I386.FunctionOf(SymbolOf(f)) || l == I386.ReturnOf(SymbolOf(f)))
  {
    var fs := Functions(m.items);
    forall f | f in m.items ensures I386.FunctionOf(SymbolOf(f)) in Ends(fs) && I386.ReturnOf(SymbolOf(f)) in Ends(fs) {
      var i :| 0 <= i < |m.items| && m.items[i] == f;
      assert fs[i] in fs;
    }
  }

  /** The assembler sees every label of a module defined once if and only if no two
      functions have one symbol, no two statics have one, and, on arm64 with ELF, no
      function is named like another label that the source asks for. */
  lemma TextsAreUnique(t: Target, macos: bool, m: Module)
    requires AllFunctionsOk(Functions(m.items))
    ensures UniqueTexts(t, macos, m) <==>
      SymbolsApart(m) && Distinct(StaticNames(m)) && (t.Arm64? && !macos ==> !Misnamed(m))
  {
    hide Definitions, LocalMarks, Text, LocalText, StaticNames, SymbolsApart;
    var d := Definitions(t, m);
    MarksDistinct(t, m);
    MarksAre(t, m);
    if Distinct(d) && (t.Arm64? && !macos ==> !Misnamed(m)) {
      forall i, j | 0 <= i < j < |d| ensures Text(t, macos, d[i]) != Text(t, macos, d[j]) {
        MarkApart(t, macos, m, d[i], d[j]);
      }
    }
    if !Distinct(d) {
      var i, j :| 0 <= i < j < |d| && d[i] == d[j];
    } else if t.Arm64? && !macos && Misnamed(m) {
      var f, k :| f in m.items && k in LocalMarks(m) && !IsEntry(k) && SymbolOf(f) == LocalText(k);
      EntryApart(t, macos, f, k);
      var i :| 0 <= i < |d| && d[i] == Code(I386.FunctionOf(SymbolOf(f)));
      var j :| 0 <= j < |d| && d[j] == k;
    }
  }

  lemma MarkApart(t: Target, macos: bool, m: Module, a: Mark, b: Mark)
    requires a in Definitions(t, m) && b in Definitions(t, m) && a != b
    requires t.Arm64? && !macos ==> !Misnamed(m)
    ensures Text(t, macos, a) != Text(t, macos, b)
  {
    hide Definitions, LocalMarks, Text, LocalText;
    MarksAre(t, m);
    if IsEntry(a) == IsEntry(b) {
      TextsDiffer(t, macos, a, b);
    } else {
      var e, k := if IsEntry(a) then a else b, if IsEntry(a) then b else a;
      var f :| f in m.items && e == Code(I386.FunctionOf(SymbolOf(f)));
      EntryApart(t, macos, f, k);
    }
  }

  // ---- modules in which they are not ----

  function Empty(path: Path): Item {
    Item(path, "", 0, [])
  }

  lemma MisnamedItem(m: Module, f: Item, k: Mark)
    requires AllFunctionsOk(Functions(m.items)) && f in m.items && k in LocalMarks(m)
    requires !IsEntry(k) && SymbolOf(f) == LocalText(k)
    ensures !UniqueTexts(Arm64, false, m)
  {
    hide LocalMarks, LocalText, StaticNames, SymbolsApart, UniqueTexts, SymbolOf;
    TextsAreUnique(Arm64, false, m);
  }

  /** On arm64 with ELF: functions `g` and `L_return_g`. */
  lemma ReturnLabelTaken()
    ensures var m := Module([], [], [Empty(["g"]), Empty(["L_return_g"])]);
      AllFunctionsOk(Functions(m.items)) && SymbolsApart(m) && !UniqueTexts(Arm64, false, m)
  {
    hide UniqueTexts, DataMarks;
    var f, g := Empty(["g"]), Empty(["L_return_g"]);
    var m := Module([], [], [f, g]);
    assert SymbolOf(f) == "g" && SymbolOf(g) == "L_return_g" && |SymbolOf(f)| != |SymbolOf(g)|;
    assert m.items[0] == f && m.items[1] == g;
    var k := Code(I386.ReturnOf("g"));
    assert f in m.items && k in LocalMarks(m);
    assert LocalText(k) == SymbolOf(g);
    hide LocalMarks, LocalText;
    MisnamedItem(m, g, k);
  }

  function OneString(): Module {
    Module([], [], [Item(["g"], "", 0, [Expr(StringLiteral(Scalar))]), Empty(["Lstr0"])])
  }

  lemma OneStringMarks()
    ensures StringAt(0) in DataMarks(OneString())
    ensures LocalText(StringAt(0)) == SymbolOf(OneString().items[1]) == "Lstr0"
  {
    var m := OneString();
    var f, g := m.items[0], m.items[1];
    assert m.items[1..] == [g] && f.body[1..] == [];
    assert StringsInItems([g]) == 0 && StringsInBody(f.body) == 1;
    assert StringsInItems(m.items) == 1;
    assert DataMarks(m)[0] == StringAt(0);
    assert Decimal(0) == "0";
  }

  /** On arm64 with ELF: a function `Lstr0` in a module with one string literal. */
  lemma StringLabelTaken()
    ensures AllFunctionsOk(Functions(OneString().items)) && SymbolsApart(OneString())
    ensures !UniqueTexts(Arm64, false, OneString())
  {
    hide UniqueTexts, LocalText, DataMarks;
    var m := OneString();
    OneStringMarks();
    var a, b := SymbolOf(m.items[0]), SymbolOf(m.items[1]);
    assert a == "g" && b == "Lstr0" && |a| == 1;
    assert b[0] == 'L' && a[0] == 'g';
    assert m.items[1] in m.items && StringAt(0) in LocalMarks(m);
    MisnamedItem(m, m.items[1], StringAt(0));
  }

  /** On every target: a function `b` in a module `a`, and a function `a_b`. The front end
      tells them apart. */
  lemma PathsMeet(t: Target, macos: bool)
    ensures var m := Module([], [], [Empty(["a", "b"]), Empty(["a_b"])]);
      && Canonical(["a", "b"]) != Canonical(["a_b"]) && AllFunctionsOk(Functions(m.items))
      && !UniqueTexts(t, macos, m)
  {
    var m := Module([], [], [Empty(["a", "b"]), Empty(["a_b"])]);
    SymbolsMeet();
    assert SymbolOf(m.items[0]) == SymbolOf(m.items[1]);
    TextsAreUnique(t, macos, m);
  }

  /** So do two statics. */
  lemma StaticsMeet(t: Target, macos: bool)
    ensures !UniqueTexts(t, macos, Module([Buffer(["a", "b"], [])], [["a_b"]], []))
  {
    var m := Module([Buffer(["a", "b"], [])], [["a_b"]], []);
    SymbolsMeet();
    assert StaticNames(m)[0] == StaticNames(m)[1];
    TextsAreUnique(t, macos, m);
  }
}
