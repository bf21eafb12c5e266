/** The compiler's types and their spelling. */
module Types {
  datatype Option<T> = None | Some(value: T)

  datatype Type =
    | Int(signed: bool, bits: nat)
    | Bool
    | Char
    | Str
    | OwnedStr
    | Pointer(to: Type)
    | Slice(of: Type)
    | Vector(of: Type)
    | Optional(of: Type)
    | Result(of: Type)
    | Result2(of: Type, error: Type)
    | Tuple(elements: seq<Type>)
    | UserStruct(name: string)
    | UserEnum(name: string)

  predicate Valid(t: Type)
    decreases t, 0
  {
    match t
    case Int(_, bits) => bits in {8, 16, 32, 64}
    case Pointer(p) => Valid(p)
    case Slice(p) => Valid(p)
    case Vector(p) => Valid(p)
    case Optional(p) => Valid(p)
    case Result(p) => Valid(p)
    case Result2(p, e) => Valid(p) && Valid(e)
    case Tuple(es) => |es| >= 2 && AllValid(es)
    case UserStruct(name) => name != ""
    case UserEnum(name) => name != ""
    case _ => true
  }

  predicate AllValid(ts: seq<Type>)
    decreases ts, 1
  {
    ts == [] || (Valid(ts[0]) && AllValid(ts[1..]))
  }

  /** Types whose spelling the parser knows: no structs and enums. */
  predicate BuiltIn(t: Type)
    decreases t, 0
  {
    match t
    case Pointer(p) => BuiltIn(p)
    case Slice(p) => BuiltIn(p)
    case Vector(p) => BuiltIn(p)
    case Optional(p) => BuiltIn(p)
    case Result(p) => BuiltIn(p)
    case Result2(p, e) => BuiltIn(p) && BuiltIn(e)
    case Tuple(es) => AllBuiltIn(es)
    case UserStruct(_) => false
    case UserEnum(_) => false
    case _ => true
  }

  predicate AllBuiltIn(ts: seq<Type>)
    decreases ts, 1
  {
    ts == [] || (BuiltIn(ts[0]) && AllBuiltIn(ts[1..]))
  }

  function Digits(bits: nat): string {
    if bits == 8 then "8" else if bits == 16 then "16" else if bits == 32 then "32" else "64"
  }

  function Format(t: Type): string
    decreases t, 0
  {
    match t
    case Int(signed, bits) => (if signed then "i" else "u") + Digits(bits)
    case Bool => "bool"
    case Char => "char"
    case Str => "str"
    case OwnedStr => "owned_str"
    case Pointer(p) => "*" + Format(p)
    case Slice(p) => "&[" + (Format(p) + "]")
    case Vector(p) => "vec<" + (Format(p) + ">")
    case Optional(p) => "Option<" + (Format(p) + ">")
    case Result(p) => "Result<" + (Format(p) + ">")
    case Result2(p, e) => "Result<" + (Format(p) + (", " + (Format(e) + ">")))
    case Tuple(es) => "(" + (FormatAll(es) + ")")
    case UserStruct(name) => name
    case UserEnum(name) => name
  }

  function FormatAll(ts: seq<Type>): string
    decreases ts, 1
  {
    if ts == [] then "" else if |ts| == 1 then Format(ts[0]) else Format(ts[0]) + (", " + FormatAll(ts[1..]))
  }

  // ---- parsing ----

  predicate IsSpace(c: char) {
    c == ' ' || '\t' <= c <= '\r'
  }

  function TrimLeft(s: string): (r: string)
    ensures |r| <= |s|
  {
    if s == "" || !IsSpace(s[0]) then s else TrimLeft(s[1..])
  }

  function TrimRight(s: string): (r: string)
    ensures |r| <= |s|
  {
    if s == "" || !IsSpace(s[|s| - 1]) then s else TrimRight(s[..|s| - 1])
  }

  function Trim(s: string): (r: string)
    ensures |r| <= |s|
  {
    TrimRight(TrimLeft(s))
  }

  function Angle(c: char): int {
    if c == '<' then 1 else if c == '>' then -1 else 0
  }

  function Paren(c: char): int {
    if c == '(' then 1 else if c == ')' then -1 else 0
  }

  /** The angle brackets of `s`, entered at a depth, close at its end and not
      before. */
  predicate Closes(s: string, depth: int) {
    if s == "" then depth == 0 else
    var d := depth + Angle(s[0]);
    !(s[0] == '>' && ((d == 0 && |s| > 1) || d < 0)) && Closes(s[1..], d)
  }

  predicate StartsWith(s: string, prefix: string) {
    |prefix| <= |s| && s[..|prefix|] == prefix
  }

  /** The text between the brackets of `prefix<...>`. */
  function ConsumeGeneric(name: string, prefix: string): (r: Option<string>)
    ensures r.Some? ==> |r.value| < |name|
  {
    if |name| <= |prefix| + 1 || !StartsWith(name, prefix + "<") || name[|name| - 1] != '>' then None
    else if !Closes(name[|prefix|..], 0) then None
    else
      var inner := name[|prefix| + 1..|name| - 1];
      if inner == "" then None else Some(inner)
  }

  /** The parts of `cur + rest` between the commas of `rest` that are outside all
      brackets. */
  function SplitFrom(rest: string, cur: string, parens: int, angles: int): (r: seq<string>)
    ensures |r| >= 1 && forall i :: 0 <= i < |r| ==> |r[i]| <= |cur| + |rest|
    decreases |rest|
  {
    if rest == "" then [Trim(cur)]
    else if rest[0] == ',' && parens == 0 && angles == 0 then [Trim(cur)] + SplitFrom(rest[1..], "", 0, 0)
    else SplitFrom(rest[1..], cur + [rest[0]], parens + Paren(rest[0]), angles + Angle(rest[0]))
  }

  function SplitCommaList(text: string): (r: seq<string>)
    ensures |r| >= 1 && forall i :: 0 <= i < |r| ==> |r[i]| <= |text|
  {
    SplitFrom(text, "", 0, 0)
  }

  function SplitTupleTypeName(name: string): (r: Option<seq<string>>)
    ensures r.Some? ==> |name| > 0 && |r.value| >= 2 && forall i :: 0 <= i < |r.value| ==> |r.value[i]| <= |name| - 1
  {
    if |name| < 5 || name[0] != '(' || name[|name| - 1] != ')' then None else
    var parts := SplitCommaList(name[1..|name| - 1]);
    var parts' := if parts[|parts| - 1] == "" then parts[..|parts| - 1] else parts;
    if |parts'| < 2 || "" in parts' then None else Some(parts')
  }

  function ParseScalar(name: string): Option<Type> {
    if name == "i8" then Some(Int(true, 8))
    else if name == "i16" then Some(Int(true, 16))
    else if name == "i32" then Some(Int(true, 32))
    else if name == "i64" then Some(Int(true, 64))
    else if name == "u8" then Some(Int(false, 8))
    else if name == "u16" then Some(Int(false, 16))
    else if name == "u32" then Some(Int(false, 32))
    else if name == "u64" then Some(Int(false, 64))
    else if name == "bool" then Some(Bool)
    else if name == "char" then Some(Char)
    else if name == "str" then Some(Str)
    else None
  }

  function Parse(name: string): Option<Type>
    decreases |name|, 0, 0
  {
    if name != "" && name[0] == '*' then
      var p := Parse(name[1..]);
      if p.None? then None else Some(Pointer(p.value))
    else if |name| > 3 && name[0] == '&' && name[1] == '[' && name[|name| - 1] == ']' then
      var p := Parse(name[2..|name| - 1]);
      if p.None? then None else Some(Slice(p.value))
    else if name == "owned_str" then Some(OwnedStr)
    else if ConsumeGeneric(name, "slice").Some? then
      var p := Parse(ConsumeGeneric(name, "slice").value);
      if p.None? then None else Some(Slice(p.value))
    else if ConsumeGeneric(name, "vec").Some? then
      var p := Parse(ConsumeGeneric(name, "vec").value);
      if p.None? then None else Some(Vector(p.value))
    else if ConsumeGeneric(name, "Option").Some? then
      var p := Parse(ConsumeGeneric(name, "Option").value);
      if p.None? then None else Some(Optional(p.value))
    else if ConsumeGeneric(name, "Result").Some? then
      var parts := SplitCommaList(ConsumeGeneric(name, "Result").value);
      if |parts| > 2 then None else
      var p := Parse(parts[0]);
      if p.None? then None
      else if |parts| == 1 then Some(Result(p.value))
      else
        var e := Parse(parts[1]);
        if e.None? then None else Some(Result2(p.value, e.value))
    else if SplitTupleTypeName(name).Some? then
      var es := ParseAll(SplitTupleTypeName(name).value, |name| - 1);
      if es.None? then None else Some(Tuple(es.value))
    else ParseScalar(name)
  }

  function ParseAll(names: seq<string>, bound: nat): Option<seq<Type>>
    requires forall i :: 0 <= i < |names| ==> |names[i]| <= bound
    decreases bound, 1, |names|
  {
    if names == [] then Some([]) else
    var t := Parse(names[0]);
    if t.None? then None else
    var ts := ParseAll(names[1..], bound);
    if ts.None? then None else Some([t.value] + ts.value)
  }
}

/** Formatting a type and parsing the result gives the type back. */
module TypeSpelling {
  import opened Types

  /** The type has a spelling that the parser knows. */
  predicate Spelled(t: Type) {
    Valid(t) && BuiltIn(t)
  }

  predicate AllSpelled(ts: seq<Type>) {
    AllValid(ts) && AllBuiltIn(ts)
  }

  /** The first and the last character of a spelling. */
  lemma {:induction false} Ends(t: Type)
    requires Spelled(t)
    ensures |Format(t)| >= 2
    ensures !IsSpace(Format(t)[0]) && !IsSpace(Format(t)[|Format(t)| - 1])
    decreases t, 0
  {
    if t.Pointer? { Ends(t.to); }
  }

  lemma TrimSpelling(t: Type)
    requires Spelled(t)
    ensures Trim(Format(t)) == Format(t) && Trim(" " + Format(t)) == Format(t)
  {
    Ends(t);
    assert (" " + Format(t))[1..] == Format(t);
  }

  // ---- angle brackets ----

  /** Scanning `f` inside a bracket leaves the depth as it was and never closes
      that bracket. */
  ghost predicate Skips(f: string) {
    forall s, depth :: s != "" && depth >= 1 ==> Closes(f + s, depth) == Closes(s, depth)
  }

  lemma ClosesStep(c: char, s: string, depth: int)
    ensures Closes([c] + s, depth) <==>
      (!(c == '>' && ((depth == 1 && s != "") || depth < 1)) && Closes(s, depth + Angle(c)))
  {
    assert ([c] + s)[1..] == s;
  }

  lemma SkipsCat(a: string, b: string)
    requires Skips(a) && Skips(b)
    ensures Skips(a + b)
  {
    forall s, depth | s != "" && depth >= 1 ensures Closes(a + b + s, depth) == Closes(s, depth) {
      assert a + b + s == a + (b + s);
    }
  }

  lemma {:induction false} SkipsWord(w: string)
    requires '<' !in w && '>' !in w
    ensures Skips(w)
    decreases |w|
  {
    if w == "" {
      forall s: string ensures w + s == s {}
    } else {
      SkipsWord(w[1..]);
      forall s, depth | s != "" && depth >= 1 ensures Closes(w + s, depth) == Closes(s, depth) {
        assert w + s == [w[0]] + (w[1..] + s);
        ClosesStep(w[0], w[1..] + s, depth);
      }
    }
  }

  lemma SkipsAngles(f: string)
    requires Skips(f)
    ensures Skips("<" + (f + ">"))
  {
    forall s, depth | s != "" && depth >= 1 ensures Closes("<" + (f + ">") + s, depth) == Closes(s, depth) {
      assert "<" + (f + ">") + s == ['<'] + (f + (['>'] + s));
      ClosesStep('<', f + (['>'] + s), depth);
      assert Closes(f + (['>'] + s), depth + 1) == Closes(['>'] + s, depth + 1);
      ClosesStep('>', s, depth + 1);
    }
  }

  lemma GenericConsumed(prefix: string, f: string)
    requires Skips(f) && f != ""
    ensures ConsumeGeneric(prefix + ("<" + (f + ">")), prefix) == Some(f)
  {
    var name := prefix + ("<" + (f + ">"));
    var tail := name[|prefix|..];
    assert tail == ['<'] + (f + ">");
    ClosesStep('<', f + ">", 0);
    assert Closes(f + ">", 1) == Closes(">", 1);
    ClosesStep('>', "", 1);
    assert [] + "" == "";
    assert ['>'] + "" == ">";
    assert name[..|prefix + "<"|] == prefix + "<";
    assert name[|prefix| + 1..|name| - 1] == f;
  }

  lemma {:induction false} SpellingSkips(t: Type)
    requires Spelled(t)
    ensures Skips(Format(t))
    decreases t, 0
  {
    match t
    case Int(signed, bits) => SkipsWord(Format(t));
    case Pointer(p) =>
      SpellingSkips(p);
      SkipsWord("*");
      SkipsCat("*", Format(p));
    case Slice(p) =>
      SpellingSkips(p);
      SkipsWord("&[");
      SkipsWord("]");
      SkipsCat(Format(p), "]");
      SkipsCat("&[", Format(p) + "]");
    case Vector(p) =>
      SpellingSkips(p);
      assert "vec" + "<" == "vec<";
      SkipsGeneric("vec", Format(p));
    case Optional(p) =>
      SpellingSkips(p);
      assert "Option" + "<" == "Option<";
      SkipsGeneric("Option", Format(p));
    case Result(p) =>
      SpellingSkips(p);
      assert "Result" + "<" == "Result<";
      SkipsGeneric("Result", Format(p));
    case Result2(p, e) =>
      SpellingSkips(p);
      SpellingSkips(e);
      var f := Pair(Format(p), Format(e));
      SkipsPair(Format(p), Format(e));
      SkipsGeneric("Result", f);
      assert "Result" + "<" == "Result<";
      assert Format(t) == "Result<" + (f + ">");
    case Tuple(es) =>
      SpellingsSkip(es);
      SkipsWord("(");
      SkipsWord(")");
      SkipsCat(FormatAll(es), ")");
      SkipsCat("(", FormatAll(es) + ")");
    case _ => SkipsWord(Format(t));
  }

  function Pair(a: string, b: string): string {
    a + (", " + b)
  }

  lemma SkipsPair(a: string, b: string)
    requires Skips(a) && Skips(b)
    ensures Skips(Pair(a, b))
  {
    SkipsWord(", ");
    SkipsCat(", ", b);
    SkipsCat(a, ", " + b);
  }

  lemma SkipsGeneric(prefix: string, f: string)
    requires Skips(f) && '<' !in prefix && '>' !in prefix
    ensures Skips((prefix + "<") + (f + ">"))
  {
    SkipsWord(prefix);
    SkipsAngles(f);
    SkipsCat(prefix, "<" + (f + ">"));
    assert (prefix + "<") + (f + ">") == prefix + ("<" + (f + ">"));
  }

  lemma SpellingsSkip(ts: seq<Type>)
    requires AllSpelled(ts)
    ensures Skips(FormatAll(ts))
    decreases ts, 1
  {
    if ts == [] {
      SkipsWord("");
    } else {
      SpellingSkips(ts[0]);
      if |ts| > 1 {
        SpellingsSkip(ts[1..]);
        SkipsPair(Format(ts[0]), FormatAll(ts[1..]));
      }
    }
  }

  // ---- commas ----

  /** Splitting passes over `f` without finding a comma. */
  ghost predicate Solid(f: string) {
    forall rest, cur, p: nat, a: nat :: SplitFrom(f + rest, cur, p, a) == SplitFrom(rest, cur + f, p, a)
  }

  /** The same inside some bracket. */
  ghost predicate Inner(f: string) {
    forall rest, cur, p: nat, a: nat :: p + a > 0 ==> SplitFrom(f + rest, cur, p, a) == SplitFrom(rest, cur + f, p, a)
  }

  lemma SplitStep(c: char, rest: string, cur: string, p: nat, a: nat)
    ensures SplitFrom([c] + rest, cur, p, a) ==
      if c == ',' && p == 0 && a == 0 then [Trim(cur)] + SplitFrom(rest, "", 0, 0)
      else SplitFrom(rest, cur + [c], p + Paren(c), a + Angle(c))
  {
    assert ([c] + rest)[1..] == rest;
  }

  predicate Plain(w: string) {
    forall c :: c in w ==> c != ',' && Paren(c) == 0 && Angle(c) == 0
  }

  lemma {:induction false} SolidWord(w: string)
    requires Plain(w)
    ensures Solid(w)
    decreases |w|
  {
    if w == "" {
      forall s: string ensures w + s == s && s + w == s {}
    } else {
      assert forall c :: c in w[1..] ==> c in w;
      SolidWord(w[1..]);
      forall rest, cur, p: nat, a: nat ensures SplitFrom(w + rest, cur, p, a) == SplitFrom(rest, cur + w, p, a) {
        SolidOneMore(w, rest, cur, p, a);
      }
    }
  }

  lemma SolidOneMore(w: string, rest: string, cur: string, p: nat, a: nat)
    requires Plain(w) && w != "" && Solid(w[1..])
    ensures SplitFrom(w + rest, cur, p, a) == SplitFrom(rest, cur + w, p, a)
  {
    hide SplitFrom;
    assert w + rest == [w[0]] + (w[1..] + rest);
    SplitStep(w[0], w[1..] + rest, cur, p, a);
    SolidAt(w[1..], rest, cur + [w[0]], p, a);
    assert w[0] in w;
    assert cur + [w[0]] + w[1..] == cur + w;
  }

  lemma SolidCat(f: string, g: string)
    requires Solid(f) && Solid(g)
    ensures Solid(f + g)
  {
    forall rest, cur, p: nat, a: nat
      ensures SplitFrom(f + g + rest, cur, p, a) == SplitFrom(rest, cur + (f + g), p, a)
    {
      assert f + g + rest == f + (g + rest) && cur + f + g == cur + (f + g);
    }
  }

  lemma InnerAt(f: string, rest: string, cur: string, p: nat, a: nat)
    requires Inner(f) && p + a > 0
    ensures SplitFrom(f + rest, cur, p, a) == SplitFrom(rest, cur + f, p, a)
  {
  }

  lemma SolidAt(f: string, rest: string, cur: string, p: nat, a: nat)
    requires Solid(f)
    ensures SplitFrom(f + rest, cur, p, a) == SplitFrom(rest, cur + f, p, a)
  {
  }

  lemma InnerPair(f: string, g: string)
    requires Inner(f) && Inner(g)
    ensures Inner(Pair(f, g))
  {
    forall rest, cur, p: nat, a: nat | p + a > 0
      ensures SplitFrom(Pair(f, g) + rest, cur, p, a) == SplitFrom(rest, cur + Pair(f, g), p, a)
    {
      InnerPairAt(f, g, rest, cur, p, a);
    }
  }

  lemma InnerPairAt(f: string, g: string, rest: string, cur: string, p: nat, a: nat)
    requires Inner(f) && Inner(g) && p + a > 0
    ensures SplitFrom(Pair(f, g) + rest, cur, p, a) == SplitFrom(rest, cur + Pair(f, g), p, a)
  {
    hide SplitFrom, Inner;
    var tail := g + rest;
    assert Pair(f, g) + rest == f + ([','] + ([' '] + tail));
    InnerAt(f, [','] + ([' '] + tail), cur, p, a);
    SplitStep(',', [' '] + tail, cur + f, p, a);
    SplitStep(' ', tail, cur + f + [','], p, a);
    InnerAt(g, rest, cur + f + [','] + [' '], p, a);
    assert cur + f + [','] + [' '] + g == cur + Pair(f, g);
  }

  /** A bracket around it makes everything solid. */
  lemma SolidBracket(open: char, f: string, close: char)
    requires Inner(f) && ((open == '(' && close == ')') || (open == '<' && close == '>'))
    ensures Solid([open] + (f + [close]))
  {
    var whole := [open] + (f + [close]);
    forall rest, cur, p: nat, a: nat ensures SplitFrom(whole + rest, cur, p, a) == SplitFrom(rest, cur + whole, p, a) {
      var tail := [close] + rest;
      assert whole + rest == [open] + (f + tail);
      SplitStep(open, f + tail, cur, p, a);
      SplitStep(close, rest, cur + [open] + f, p + Paren(open), a + Angle(open));
      assert cur + [open] + f + [close] == cur + whole;
    }
  }

  lemma SolidGeneric(prefix: string, f: string)
    requires Plain(prefix) && Inner(f)
    ensures Solid((prefix + "<") + (f + ">"))
  {
    SolidWord(prefix);
    SolidBracket('<', f, '>');
    SolidCat(prefix, "<" + (f + ">"));
    assert (prefix + "<") + (f + ">") == prefix + ("<" + (f + ">"));
  }

  lemma {:induction false} SpellingSolid(t: Type)
    requires Spelled(t)
    ensures Solid(Format(t))
    decreases t, 0
  {
    hide Solid, Inner, Plain;
    match t
    case Pointer(p) =>
      SpellingSolid(p);
      MarksSolid();
      SolidCat("*", Format(p));
    case Slice(p) =>
      SpellingSolid(p);
      MarksSolid();
      SolidCat(Format(p), "]");
      SolidCat("&[", Format(p) + "]");
    case Vector(p) =>
      SpellingSolid(p);
      SolidIsInner(Format(p));
      assert "vec" + "<" == "vec<";
      PrefixPlain("vec");
      SolidGeneric("vec", Format(p));
    case Optional(p) =>
      SpellingSolid(p);
      SolidIsInner(Format(p));
      assert "Option" + "<" == "Option<";
      PrefixPlain("Option");
      SolidGeneric("Option", Format(p));
    case Result(p) =>
      SpellingSolid(p);
      SolidIsInner(Format(p));
      assert "Result" + "<" == "Result<";
      PrefixPlain("Result");
      SolidGeneric("Result", Format(p));
    case Result2(p, e) =>
      SpellingSolid(p);
      SpellingSolid(e);
      SolidIsInner(Format(p));
      SolidIsInner(Format(e));
      InnerPair(Format(p), Format(e));
      assert "Result" + "<" == "Result<";
      PrefixPlain("Result");
      SolidGeneric("Result", Pair(Format(p), Format(e)));
      assert Format(t) == "Result<" + (Pair(Format(p), Format(e)) + ">");
    case Tuple(es) =>
      SpellingsInner(es);
      SolidBracket('(', FormatAll(es), ')');
    case _ => ScalarSolid(t);
  }

  lemma ScalarSolid(t: Type)
    requires t.Int? || t.Bool? || t.Char? || t.Str? || t.OwnedStr?
    ensures Solid(Format(t))
  {
    hide Solid;
    SolidWord(Format(t));
  }

  lemma MarksSolid()
    ensures Solid("*") && Solid("&[") && Solid("]")
  {
    hide Solid;
    SolidWord("*");
    SolidWord("&[");
    SolidWord("]");
  }

  lemma PrefixPlain(prefix: string)
    requires prefix in {"vec", "Option", "Result"}
    ensures Plain(prefix)
  {
  }

  lemma SolidIsInner(f: string)
    requires Solid(f)
    ensures Inner(f)
  {
  }

  lemma SpellingsInner(ts: seq<Type>)
    requires AllSpelled(ts)
    ensures Inner(FormatAll(ts))
    decreases ts, 1
  {
    hide Solid, Inner;
    if ts == [] {
      SolidWord("");
      SolidIsInner("");
    } else {
      SpellingSolid(ts[0]);
      SolidIsInner(Format(ts[0]));
      if |ts| > 1 {
        SpellingsInner(ts[1..]);
        InnerPair(Format(ts[0]), FormatAll(ts[1..]));
      }
    }
  }

  function Spellings(ts: seq<Type>): seq<string> {
    if ts == [] then [] else [Format(ts[0])] + Spellings(ts[1..])
  }

  /** Splitting a list of spellings gives the spellings. */
  lemma {:induction false} SplitSpellings(ts: seq<Type>, cur: string)
    requires ts != [] && AllSpelled(ts) && (cur == "" || cur == " ")
    ensures SplitFrom(FormatAll(ts), cur, 0, 0) == Spellings(ts)
    decreases |ts|
  {
    hide SplitFrom, Solid, Inner, Format, Trim, Spelled;
    AllSpelledTail(ts);
    var f := Format(ts[0]);
    SpellingSolid(ts[0]);
    TrimSpelling(ts[0]);
    assert cur + f == if cur == "" then f else " " + f;
    if |ts| == 1 {
      assert f + "" == f;
      SolidAt(f, "", cur, 0, 0);
      assert Spellings(ts[1..]) == [];
      SplitEnd(cur + f);
    } else {
      var rest := FormatAll(ts[1..]);
      SplitFirst(f, rest, cur);
      assert FormatAll(ts) == f + (", " + rest);
      SplitSpellings(ts[1..], " ");
    }
  }

  lemma SplitFirst(f: string, rest: string, cur: string)
    requires Solid(f) && Trim(cur + f) == f
    ensures SplitFrom(f + (", " + rest), cur, 0, 0) == [f] + SplitFrom(rest, " ", 0, 0)
  {
    hide SplitFrom, Solid, Trim;
    assert ", " + rest == [','] + ([' '] + rest);
    SolidAt(f, ", " + rest, cur, 0, 0);
    SplitSeparator(rest, cur + f);
  }

  lemma SplitSeparator(rest: string, cur: string)
    ensures SplitFrom([','] + ([' '] + rest), cur, 0, 0) == [Trim(cur)] + SplitFrom(rest, " ", 0, 0)
  {
    hide SplitFrom, Trim;
    SplitStep(',', [' '] + rest, cur, 0, 0);
    SplitStep(' ', rest, [], 0, 0);
    assert [] + [' '] == " ";
  }

  lemma AllSpelledTail(ts: seq<Type>)
    requires AllSpelled(ts) && ts != []
    ensures Spelled(ts[0]) && AllSpelled(ts[1..])
  {
  }

  lemma SplitEnd(cur: string)
    ensures SplitFrom("", cur, 0, 0) == [Trim(cur)]
  {
  }

  // ---- the round trip ----

  lemma OtherPrefix(name: string, prefix: string)
    requires name != "" && prefix != "" && name[0] != prefix[0]
    ensures ConsumeGeneric(name, prefix) == None
  {
    assert |name| > |prefix| ==> name[..|prefix + "<"|][0] == name[0];
  }

  /** `w<f>` as a name. */
  function Generic(w: string, f: string): string {
    (w + "<") + (f + ">")
  }

  /** The name reaches the test for its own prefix. */
  lemma Reaches(w: string, f: string)
    requires w in {"vec", "Option", "Result"} && Skips(f) && f != ""
    ensures var name := Generic(w, f);
      && name != "" && name[0] == w[0] && name[0] !in {'*', '&'} && name != "owned_str"
      && ConsumeGeneric(name, w) == Some(f) && ConsumeGeneric(name, "slice") == None
      && (w != "vec" ==> ConsumeGeneric(name, "vec") == None)
      && (w == "Result" ==> ConsumeGeneric(name, "Option") == None)
  {
    hide Closes, Skips;
    var name := Generic(w, f);
    assert name == w + ("<" + (f + ">"));
    GenericConsumed(w, f);
    assert name[0] == w[0];
    OtherPrefix(name, "slice");
    if w != "vec" { OtherPrefix(name, "vec"); }
    if w == "Result" { OtherPrefix(name, "Option"); }
  }

  lemma ParseGeneric(w: string, f: string)
    requires w in {"vec", "Option"} && Skips(f) && f != ""
    ensures Parse(Generic(w, f)) ==
      if Parse(f).None? then None
      else Some(if w == "vec" then Vector(Parse(f).value) else Optional(Parse(f).value))
  {
    Reaches(w, f);
    hide ConsumeGeneric, SplitTupleTypeName, ParseScalar, Skips, Generic, ParseAll;
  }

  lemma ParseResult(f: string, parts: seq<string>)
    requires Skips(f) && f != "" && SplitCommaList(f) == parts && |parts| <= 2
    requires Parse(parts[0]).Some? && (|parts| == 2 ==> Parse(parts[1]).Some?)
    ensures var t := Parse(parts[0]).value;
      Parse(Generic("Result", f)) == Some(if |parts| == 1 then Result(t) else Result2(t, Parse(parts[1]).value))
  {
    Reaches("Result", f);
    hide ConsumeGeneric, SplitTupleTypeName, ParseScalar, Skips, Generic, ParseAll;
  }

  lemma ParseTuple(f: string, parts: seq<string>)
    requires |f| >= 3 && SplitCommaList(f) == parts && |parts| >= 2 && "" !in parts
    ensures var name := "(" + (f + ")");
      && (forall i :: 0 <= i < |parts| ==> |parts[i]| <= |name| - 1)
      && Parse(name)
      == if ParseAll(parts, |name| - 1).None? then None else Some(Tuple(ParseAll(parts, |name| - 1).value))
  {
    var name := "(" + (f + ")");
    assert name[1..|name| - 1] == f;
    assert SplitTupleTypeName(name) == Some(parts);
    OtherPrefix(name, "slice");
    OtherPrefix(name, "vec");
    OtherPrefix(name, "Option");
    OtherPrefix(name, "Result");
    hide ConsumeGeneric, SplitTupleTypeName, ParseScalar, ParseAll;
  }

  /** Every type that has a spelling is what its spelling parses to. */
  lemma {:induction false} FormatParse(t: Type)
    requires Spelled(t)
    ensures Parse(Format(t)) == Some(t)
    decreases t, 0
  {
    hide Parse, Format;
    match t
    case Pointer(p) =>
      FormatParse(p);
      OneParse(t, p);
    case Slice(p) =>
      FormatParse(p);
      OneParse(t, p);
    case Vector(p) =>
      FormatParse(p);
      OneParse(t, p);
    case Optional(p) =>
      FormatParse(p);
      OneParse(t, p);
    case Result(p) =>
      FormatParse(p);
      ResultParse(p);
    case Result2(p, e) =>
      FormatParse(p);
      FormatParse(e);
      Result2Parse(p, e);
    case Tuple(es) => TupleParse(es);
    case _ => ScalarParse(t);
  }

  lemma OneParse(t: Type, p: Type)
    requires Spelled(p) && Parse(Format(p)) == Some(p)
    requires t == Pointer(p) || t == Slice(p) || t == Vector(p) || t == Optional(p)
    ensures Parse(Format(t)) == Some(t)
  {
    hide Parse;
    Ends(p);
    SpellingSkips(p);
    if t.Pointer? {
      ParsePointer(Format(p));
    } else if t.Slice? {
      ParseSlice(Format(p));
    } else if t.Vector? {
      assert "vec" + "<" == "vec<";
      ParseGeneric("vec", Format(p));
    } else {
      assert "Option" + "<" == "Option<";
      ParseGeneric("Option", Format(p));
    }
  }

  lemma ResultParse(p: Type)
    requires Spelled(p) && Parse(Format(p)) == Some(p)
    ensures Parse(Format(Result(p))) == Some(Result(p))
  {
    hide Parse;
    SplitOne(p);
    SpellingSkips(p);
    Ends(p);
    assert "Result" + "<" == "Result<";
    ParseResult(Format(p), [Format(p)]);
  }

  lemma Result2Parse(p: Type, e: Type)
    requires Spelled(p) && Parse(Format(p)) == Some(p) && Spelled(e) && Parse(Format(e)) == Some(e)
    ensures Parse(Format(Result2(p, e))) == Some(Result2(p, e))
  {
    hide Parse, Skips;
    var f := Pair(Format(p), Format(e));
    SpellingSkips(p);
    SpellingSkips(e);
    SkipsPair(Format(p), Format(e));
    SplitPair(p, e);
    ParseResult(f, [Format(p), Format(e)]);
    assert "Result" + "<" == "Result<";
    assert Format(Result2(p, e)) == Generic("Result", f);
  }

  lemma TupleParse(es: seq<Type>)
    requires Spelled(Tuple(es))
    ensures Parse(Format(Tuple(es))) == Some(Tuple(es))
    decreases es, 2
  {
    hide Parse;
    SplitSpellings(es, "");
    SpellingsNonEmpty(es);
    AllLong(es);
    ParseTuple(FormatAll(es), Spellings(es));
    SpellingsParse(es, |Format(Tuple(es))| - 1);
  }

  lemma ParsePointer(f: string)
    ensures Parse("*" + f) == if Parse(f).None? then None else Some(Pointer(Parse(f).value))
  {
    assert ("*" + f)[1..] == f;
  }

  lemma ParseSlice(f: string)
    requires f != ""
    ensures Parse("&[" + (f + "]")) == if Parse(f).None? then None else Some(Slice(Parse(f).value))
  {
    var name := "&[" + (f + "]");
    assert name[2..|name| - 1] == f;
  }

  lemma ScalarParse(t: Type)
    requires t.Int? || t.Bool? || t.Char? || t.Str? || t.OwnedStr?
    requires Valid(t)
    ensures Parse(Format(t)) == Some(t)
  {
    var name := Format(t);
    assert name[|name| - 1] !in {'>', ')', ']'};
    assert ConsumeGeneric(name, "slice").None? && ConsumeGeneric(name, "vec").None?;
    assert ConsumeGeneric(name, "Option").None? && ConsumeGeneric(name, "Result").None?;
    assert SplitTupleTypeName(name).None?;
    assert t.OwnedStr? || ParseScalar(name) == Some(t) by {
      if t.Int? { assert |name| >= 2 && name[0] == (if t.signed then 'i' else 'u') && name[1] == Digits(t.bits)[0]; }
    }
    hide ConsumeGeneric, SplitTupleTypeName, ParseScalar, ParseAll;
  }

  lemma SpelledCons(t: Type, ts: seq<Type>)
    requires Spelled(t) && (ts == [] || AllSpelled(ts))
    ensures AllSpelled([t] + ts)
  {
    assert ([t] + ts)[1..] == ts;
    if ts == [] { assert AllValid(ts) && AllBuiltIn(ts); }
  }

  lemma SplitOne(p: Type)
    requires Spelled(p)
    ensures SplitCommaList(Format(p)) == [Format(p)]
  {
    var ts := [p];
    SpelledCons(p, []);
    assert ts == [p] + [] && ts[1..] == [];
    SplitSpellings(ts, "");
    assert Spellings(ts) == [Format(p)];
  }

  lemma SplitPair(p: Type, e: Type)
    requires Spelled(p) && Spelled(e)
    ensures SplitCommaList(Pair(Format(p), Format(e))) == [Format(p), Format(e)]
  {
    var ts := [p, e];
    assert ts[1..] == [e] && ts[1..][1..] == [];
    assert FormatAll([e]) == Format(e);
    assert FormatAll(ts) == Pair(Format(p), Format(e));
    SpelledCons(e, []);
    SpelledCons(p, [e]);
    assert [e] == [e] + [] && ts == [p] + [e];
    assert Spellings([e]) == [Format(e)];
    SplitSpellings(ts, "");
    assert Spellings(ts) == [Format(p), Format(e)];
  }

  lemma {:induction false} SpellingsNonEmpty(ts: seq<Type>)
    requires AllSpelled(ts)
    ensures |Spellings(ts)| == |ts| && "" !in Spellings(ts)
    decreases |ts|
  {
    if ts != [] {
      Ends(ts[0]);
      SpellingsNonEmpty(ts[1..]);
    }
  }

  lemma AllLong(ts: seq<Type>)
    requires AllSpelled(ts) && |ts| >= 2
    ensures |FormatAll(ts)| >= 3
  {
    Ends(ts[0]);
  }

  lemma SpellingsParse(ts: seq<Type>, bound: nat)
    requires AllSpelled(ts) && forall i :: 0 <= i < |Spellings(ts)| ==> |Spellings(ts)[i]| <= bound
    ensures ParseAll(Spellings(ts), bound) == Some(ts)
    decreases ts, 1
  {
    if ts != [] {
      FormatParse(ts[0]);
      assert Spellings(ts)[1..] == Spellings(ts[1..]);
      SpellingsParse(ts[1..], bound);
      assert [ts[0]] + ts[1..] == ts;
    }
  }
}
