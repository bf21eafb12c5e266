/** Which texts the type parser accepts, and what each of them means. */
module TypeGrammar {
  import opened Types

  /** The text spells the type. User-defined types have no text of their own here. */
  predicate Spells(name: string, t: Type)
    decreases t, 0
  {
    match t
    case Int(signed, bits) =>
      || (bits == 8 && name == if signed then "i8" else "u8")
      || (bits == 16 && name == if signed then "i16" else "u16")
      || (bits == 32 && name == if signed then "i32" else "u32")
      || (bits == 64 && name == if signed then "i64" else "u64")
    case Bool => name == "bool"
    case Char => name == "char"
    case Str => name == "str"
    case OwnedStr => name == "owned_str"
    case Pointer(p) => name != "" && name[0] == '*' && Spells(name[1..], p)
    case Slice(p) => Boxed(name, p) || Holds(name, "slice", p)
    case Vector(p) => Holds(name, "vec", p)
    case Optional(p) => Holds(name, "Option", p)
    case Result(p) =>
      var inner := ConsumeGeneric(name, "Result");
      inner.Some? && (var parts := SplitCommaList(inner.value); |parts| == 1 && Spells(parts[0], p))
    case Result2(p, e) =>
      var inner := ConsumeGeneric(name, "Result");
      inner.Some? &&
      (var parts := SplitCommaList(inner.value); |parts| == 2 && Spells(parts[0], p) && Spells(parts[1], e))
    case Tuple(es) =>
      var parts := SplitTupleTypeName(name);
      parts.Some? && SpellAll(parts.value, es)
    case UserStruct(_) => false
    case UserEnum(_) => false
  }

  /** In brackets with an ampersand in front. */
  predicate Boxed(name: string, p: Type)
    decreases p, 1
  {
    |name| > 3 && name[0] == '&' && name[1] == '[' && name[|name| - 1] == ']' && Spells(name[2..|name| - 1], p)
  }

  /** In angle brackets behind a word. */
  predicate Holds(name: string, word: string, p: Type)
    decreases p, 1
  {
    var inner := ConsumeGeneric(name, word);
    inner.Some? && Spells(inner.value, p)
  }

  predicate SpellAll(names: seq<string>, ts: seq<Type>)
    decreases ts, 0
  {
    |names| == |ts| && (ts == [] || (Spells(names[0], ts[0]) && SpellAll(names[1..], ts[1..])))
  }

  lemma Words(name: string)
    ensures forall word :: word != "" && ConsumeGeneric(name, word).Some? ==> StartsWith(name, word + "<")
    ensures forall word :: word != "" && ConsumeGeneric(name, word).Some? ==> name != "" && name[0] == word[0]
    ensures SplitTupleTypeName(name).Some? ==> name != "" && name[0] == '('
  {
    forall word | word != "" && ConsumeGeneric(name, word).Some? ensures name != "" && name[0] == word[0] {
      assert name[..|word| + 1] == word + "<";
      assert name[0] == name[..|word| + 1][0] == (word + "<")[0];
    }
  }

  /** The words begin with different letters. */
  lemma WordsApart(name: string, word: string)
    requires word in {"slice", "vec", "Option", "Result"} && ConsumeGeneric(name, word).Some?
    ensures word != "slice" ==> ConsumeGeneric(name, "slice").None?
    ensures word != "vec" ==> ConsumeGeneric(name, "vec").None?
    ensures word != "Option" ==> ConsumeGeneric(name, "Option").None?
    ensures name != "" && name[0] != '*' && name[0] != '&' && name != "owned_str"
  {
    hide ConsumeGeneric;
    Words(name);
  }

  lemma ScalarParse(name: string, t: Type)
    requires Spells(name, t) && (t.Int? || t.Bool? || t.Char? || t.Str? || t.OwnedStr?)
    ensures Parse(name) == Some(t)
  {
    hide ConsumeGeneric, SplitTupleTypeName;
    ScalarsApart(name);
  }

  /** What the text begins with decides which form it can have. */
  lemma ScalarsApart(name: string)
    requires ParseScalar(name).Some? || name == "owned_str"
    ensures ConsumeGeneric(name, "slice").None? && ConsumeGeneric(name, "vec").None?
    ensures ConsumeGeneric(name, "Option").None? && ConsumeGeneric(name, "Result").None?
    ensures SplitTupleTypeName(name).None?
  {
    Words(name);
  }

  /** The parser accepts just the texts that spell some type, and returns that type. */
  lemma {:induction false} ParseDecides(name: string, t: Type)
    ensures Parse(name) == Some(t) <==> Spells(name, t)
  {
    if Parse(name) == Some(t) { ParseSpells(name, t); }
    if Spells(name, t) { SpellsParse(name, t); }
  }

  lemma {:induction false} ParseSpells(name: string, t: Type)
    requires Parse(name) == Some(t)
    ensures Spells(name, t)
    decreases |name|, 0, 0
  {
    hide ConsumeGeneric, SplitCommaList, SplitTupleTypeName;
    if name != "" && name[0] == '*' {
      ParseSpells(name[1..], t.to);
    } else if |name| > 3 && name[0] == '&' && name[1] == '[' && name[|name| - 1] == ']' {
      ParseSpells(name[2..|name| - 1], t.of);
    } else if name == "owned_str" {
    } else if ConsumeGeneric(name, "slice").Some? {
      ParseSpells(ConsumeGeneric(name, "slice").value, t.of);
    } else if ConsumeGeneric(name, "vec").Some? {
      ParseSpells(ConsumeGeneric(name, "vec").value, t.of);
    } else if ConsumeGeneric(name, "Option").Some? {
      ParseSpells(ConsumeGeneric(name, "Option").value, t.of);
    } else if ConsumeGeneric(name, "Result").Some? {
      var parts := SplitCommaList(ConsumeGeneric(name, "Result").value);
      ParseSpells(parts[0], t.of);
      if |parts| == 2 { ParseSpells(parts[1], t.error); }
    } else if SplitTupleTypeName(name).Some? {
      AllSpelled(SplitTupleTypeName(name).value, |name| - 1, t.elements);
    }
  }

  lemma AllSpelled(names: seq<string>, bound: nat, ts: seq<Type>)
    requires forall i :: 0 <= i < |names| ==> |names[i]| <= bound
    requires ParseAll(names, bound) == Some(ts)
    ensures SpellAll(names, ts)
    decreases bound, 1, |names|
  {
    if names != [] {
      ParseSpells(names[0], ts[0]);
      AllSpelled(names[1..], bound, ts[1..]);
    }
  }

  lemma {:induction false} SpellsParse(name: string, t: Type)
    requires Spells(name, t)
    ensures Parse(name) == Some(t)
    decreases t, 0
  {
    hide ConsumeGeneric, SplitCommaList, SplitTupleTypeName, ParseScalar;
    Words(name);
    match t
    case Pointer(p) => SpellsParse(name[1..], p);
    case Slice(p) =>
      if Boxed(name, p) { SpellsParse(name[2..|name| - 1], p); }
      else {
        SpellsParse(ConsumeGeneric(name, "slice").value, p);
        WordsApart(name, "slice");
      }
    case Vector(p) =>
      SpellsParse(ConsumeGeneric(name, "vec").value, p);
      WordsApart(name, "vec");
    case Optional(p) =>
      SpellsParse(ConsumeGeneric(name, "Option").value, p);
      WordsApart(name, "Option");
    case Result(p) =>
      SpellsParse(SplitCommaList(ConsumeGeneric(name, "Result").value)[0], p);
      WordsApart(name, "Result");
    case Result2(p, e) =>
      SpellsParse(SplitCommaList(ConsumeGeneric(name, "Result").value)[0], p);
      SpellsParse(SplitCommaList(ConsumeGeneric(name, "Result").value)[1], e);
      WordsApart(name, "Result");
    case Tuple(es) => SpelledParse(SplitTupleTypeName(name).value, |name| - 1, es);
    case _ => ScalarParse(name, t);
  }

  lemma SpelledParse(names: seq<string>, bound: nat, ts: seq<Type>)
    requires SpellAll(names, ts) && forall i :: 0 <= i < |names| ==> |names[i]| <= bound
    ensures ParseAll(names, bound) == Some(ts)
    decreases ts, 0
  {
    if ts != [] {
      SpellsParse(names[0], ts[0]);
      SpelledParse(names[1..], bound, ts[1..]);
      assert ts == [ts[0]] + ts[1..];
    }
  }

  /** What the parser returns is a valid built-in type. */
  lemma {:induction false} SpelledIsValid(name: string, t: Type)
    requires Spells(name, t)
    ensures Valid(t) && BuiltIn(t)
    decreases t, 0
  {
    hide ConsumeGeneric, SplitCommaList, SplitTupleTypeName;
    match t
    case Pointer(p) => SpelledIsValid(name[1..], p);
    case Slice(p) =>
      if Boxed(name, p) { SpelledIsValid(name[2..|name| - 1], p); }
      else { SpelledIsValid(ConsumeGeneric(name, "slice").value, p); }
    case Vector(p) => SpelledIsValid(ConsumeGeneric(name, "vec").value, p);
    case Optional(p) => SpelledIsValid(ConsumeGeneric(name, "Option").value, p);
    case Result(p) => SpelledIsValid(SplitCommaList(ConsumeGeneric(name, "Result").value)[0], p);
    case Result2(p, e) =>
      SpelledIsValid(SplitCommaList(ConsumeGeneric(name, "Result").value)[0], p);
      SpelledIsValid(SplitCommaList(ConsumeGeneric(name, "Result").value)[1], e);
    case Tuple(es) => SpelledAreValid(SplitTupleTypeName(name).value, es);
    case _ =>
  }

  lemma SpelledAreValid(names: seq<string>, ts: seq<Type>)
    requires SpellAll(names, ts)
    ensures AllValid(ts) && AllBuiltIn(ts)
    decreases ts, 0
  {
    if ts != [] {
      SpelledIsValid(names[0], ts[0]);
      SpelledAreValid(names[1..], ts[1..]);
    }
  }

  /** A plain word: the name of a struct, an enum, a type parameter or a scalar. */
  predicate Word(name: string) {
    name != "" && forall c :: c in name ==> c !in "*&<>()[],"
  }

  predicate ScalarName(name: string) {
    || name in {"i8", "i16", "i32", "i64", "u8", "u16", "u32", "u64"}
    || name in {"bool", "char", "str", "owned_str"}
  }

  /** Of the plain words the parser takes twelve for itself; all others are user-defined
      names. */
  lemma WordsDecide(name: string)
    requires Word(name)
    ensures Parse(name).Some? <==> ScalarName(name)
  {
    hide SplitTupleTypeName, SplitCommaList, Closes;
    Words(name);
    assert name[0] in name;
    NoGeneric(name, "slice");
    NoGeneric(name, "vec");
    NoGeneric(name, "Option");
    NoGeneric(name, "Result");
  }

  lemma NoGeneric(name: string, word: string)
    requires Word(name)
    ensures ConsumeGeneric(name, word).None?
  {
    if |name| > |word| + 1 { assert name[|name| - 1] in name; }
  }
}
