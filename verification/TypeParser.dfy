/** The type parser and printer with the loops of the compiler, proved against
    the functions of `Types`. */
module TypeParser {
  import opened Types

  /** The text between the brackets of `prefix<...>`, if the brackets match. */
  method ConsumeGeneric(name: string, prefix: string) returns (r: Option<string>)
    ensures r == Types.ConsumeGeneric(name, prefix)
  {
    if |name| <= |prefix| + 1 || !StartsWith(name, prefix + "<") || name[|name| - 1] != '>' {
      return None;
    }
    var depth := 0;
    for i := |prefix| to |name|
      invariant Closes(name[|prefix|..], 0) == Closes(name[i..], depth)
    {
      assert name[i..][1..] == name[i + 1..];
      if name[i] == '<' {
        depth := depth + 1;
      } else if name[i] == '>' {
        depth := depth - 1;
        if depth == 0 && i != |name| - 1 { return None; }
        if depth < 0 { return None; }
      }
    }
    if depth != 0 { return None; }
    var inner := name[|prefix| + 1..|name| - 1];
    return if inner == "" then None else Some(inner);
  }

  /** Cuts at the commas that are outside all brackets. */
  method SplitCommaList(text: string) returns (parts: seq<string>)
    ensures parts == Types.SplitCommaList(text)
  {
    parts := [];
    var parens, angles, start := 0, 0, 0;
    for i := 0 to |text|
      invariant 0 <= start <= i
      invariant parts + SplitFrom(text[i..], text[start..i], parens, angles) == SplitFrom(text, "", 0, 0)
    {
      var ch := text[i];
      ghost var before, p0, a0 := parts, parens, angles;
      assert text[i..][1..] == text[i + 1..] && text[i..][0] == ch;
      assert text[start..i] + [ch] == text[start..i + 1];
      if ch == '(' {
        parens := parens + 1;
      } else if ch == ')' {
        parens := parens - 1;
      } else if ch == '<' {
        angles := angles + 1;
      } else if ch == '>' {
        angles := angles - 1;
      } else if ch == ',' && parens == 0 && angles == 0 {
        ghost var part := [Trim(text[start..i])];
        parts := parts + [Trim(text[start..i])];
        start := i + 1;
        assert text[start..i + 1] == "";
        assert (before + part) + SplitFrom(text[i + 1..], "", 0, 0)
            == before + (part + SplitFrom(text[i + 1..], "", 0, 0));
      }
    }
    parts := parts + [Trim(text[start..])];
    assert text[start..] == text[start..|text|];
  }

  method SplitTupleTypeName(name: string) returns (r: Option<seq<string>>)
    ensures r == Types.SplitTupleTypeName(name)
  {
    if |name| < 5 || name[0] != '(' || name[|name| - 1] != ')' { return None; }
    var parts := SplitCommaList(name[1..|name| - 1]);
    if parts[|parts| - 1] == "" { parts := parts[..|parts| - 1]; }
    if |parts| < 2 { return None; }
    for i := 0 to |parts|
      invariant "" !in parts[..i]
    {
      if parts[i] == "" { return None; }
    }
    assert parts[..|parts|] == parts;
    return Some(parts);
  }

  method ParsePrimitiveType(name: string) returns (r: Option<Type>)
    ensures r == Parse(name)
    decreases |name|, 0
  {
    hide Types.ConsumeGeneric, Types.SplitCommaList, Types.SplitTupleTypeName, ParseScalar, ParseAll;
    if name != "" && name[0] == '*' {
      var p := ParsePrimitiveType(name[1..]);
      return if p.None? then None else Some(Pointer(p.value));
    }
    if |name| > 3 && name[0] == '&' && name[1] == '[' && name[|name| - 1] == ']' {
      var p := ParsePrimitiveType(name[2..|name| - 1]);
      return if p.None? then None else Some(Slice(p.value));
    }
    if name == "owned_str" { return Some(OwnedStr); }
    var inner := ConsumeGeneric(name, "slice");
    if inner.Some? {
      var p := ParsePrimitiveType(inner.value);
      return if p.None? then None else Some(Slice(p.value));
    }
    inner := ConsumeGeneric(name, "vec");
    if inner.Some? {
      var p := ParsePrimitiveType(inner.value);
      return if p.None? then None else Some(Vector(p.value));
    }
    inner := ConsumeGeneric(name, "Option");
    if inner.Some? {
      var p := ParsePrimitiveType(inner.value);
      return if p.None? then None else Some(Optional(p.value));
    }
    inner := ConsumeGeneric(name, "Result");
    if inner.Some? {
      r := ParseResult(inner.value);
      return;
    }
    var names := SplitTupleTypeName(name);
    if names.Some? {
      var elements := ParseElements(names.value, |name| - 1);
      return if elements.None? then None else Some(Tuple(elements.value));
    }
    return ParseScalar(name);
  }

  method ParseResult(inner: string) returns (r: Option<Type>)
    ensures var parts := Types.SplitCommaList(inner);
      r == if |parts| > 2 || Parse(parts[0]).None? then None
           else if |parts| == 1 then Some(Result(Parse(parts[0]).value))
           else if Parse(parts[1]).None? then None
           else Some(Result2(Parse(parts[0]).value, Parse(parts[1]).value))
    decreases |inner|, 1
  {
    hide Parse;
    var parts := SplitCommaList(inner);
    if |parts| != 1 && |parts| != 2 { return None; }
    var value := ParsePrimitiveType(parts[0]);
    if value.None? { return None; }
    if |parts| == 1 { return Some(Result(value.value)); }
    var error := ParsePrimitiveType(parts[1]);
    return if error.None? then None else Some(Result2(value.value, error.value));
  }

  method ParseElements(names: seq<string>, bound: nat) returns (r: Option<seq<Type>>)
    requires forall i :: 0 <= i < |names| ==> |names[i]| <= bound
    ensures r == ParseAll(names, bound)
    decreases bound, 1
  {
    hide Parse;
    var elements := [];
    assert names[0..] == names && forall ts: seq<Type> :: [] + ts == ts;
    for i := 0 to |names|
      invariant var rest := ParseAll(names[i..], bound);
        ParseAll(names, bound) == if rest.None? then None else Some(elements + rest.value)
    {
      assert names[i..][1..] == names[i + 1..] && names[i..][0] == names[i];
      var t := ParsePrimitiveType(names[i]);
      if t.None? { return None; }
      ghost var rest := ParseAll(names[i + 1..], bound);
      assert rest.Some? ==> elements + ([t.value] + rest.value) == (elements + [t.value]) + rest.value;
      elements := elements + [t.value];
    }
    assert names[|names|..] == [] && elements + [] == elements;
    return Some(elements);
  }

  /** The spelling of a valid type; nothing for an invalid one. */
  method FormatType(t: Type) returns (s: string)
    ensures s == if Valid(t) then Format(t) else ""
    decreases t
  {
    if !Valid(t) { return ""; }
    match t
    case Pointer(p) =>
      var f := FormatType(p);
      s := "*" + f;
    case Slice(p) =>
      var f := FormatType(p);
      s := "&[" + (f + "]");
    case Vector(p) =>
      var f := FormatType(p);
      s := "vec<" + (f + ">");
    case Optional(p) =>
      var f := FormatType(p);
      s := "Option<" + (f + ">");
    case Result(p) =>
      var f := FormatType(p);
      s := "Result<" + (f + ">");
    case Result2(p, e) =>
      var f := FormatType(p);
      var g := FormatType(e);
      s := "Result<" + (f + (", " + (g + ">")));
    case Tuple(es) =>
      var body := FormatElements(t);
      s := "(" + (body + ")");
    case _ => s := Format(t);
  }

  method FormatElements(t: Type) returns (formatted: string)
    requires t.Tuple? && Valid(t)
    ensures formatted == FormatAll(t.elements)
    decreases t, 0
  {
    hide Format;
    var es := t.elements;
    formatted := "";
    for i := 0 to |es|
      invariant AllValid(es[i..])
      invariant i == 0 ==> formatted == ""
      invariant i > 0 ==> FormatAll(es) == if i == |es| then formatted else formatted + (", " + FormatAll(es[i..]))
    {
      assert es[i..][1..] == es[i + 1..] && es[i..][0] == es[i] && es[0..] == es;
      ghost var before, rest := formatted, if i + 1 == |es| then "" else ", " + FormatAll(es[i + 1..]);
      assert FormatAll(es[i..]) == Format(es[i]) + rest;
      if i > 0 { formatted := formatted + ", "; }
      var f := FormatType(es[i]);
      formatted := formatted + f;
      assert i > 0 ==> before + (", " + (f + rest)) == formatted + rest;
    }
  }
}
