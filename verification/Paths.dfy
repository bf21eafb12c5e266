/** The paths of items, and the texts that are made of them: one with `::`, by which
    the front end knows an item, and one with `_`, by which the assembler does. */
module Paths {
  /** A part of a path, or what is appended to it. No identifier has a dot. */
  type Name = s: string | '.' !in s

  type Path = seq<Name>

  function Join(p: Path, separator: string): string {
    if p == [] then "" else if |p| == 1 then p[0] else p[0] + (separator + Join(p[1..], separator))
  }

  function Canonical(p: Path): string {
    Join(p, "::")
  }

  function Symbol(p: Path): string {
    Join(p, "_")
  }

  method JoinPath(p: Path, separator: string) returns (joined: string)
    ensures joined == Join(p, separator)
  {
    joined := "";
    for i := 0 to |p|
      invariant joined == Join(p[..i], separator)
    {
      assert p[..i + 1] == p[..i] + [p[i]];
      JoinLast(p[..i], p[i], separator);
      if i > 0 { joined := joined + separator; }
      joined := joined + p[i];
    }
    assert p[..|p|] == p;
  }

  lemma {:induction false} JoinLast(p: Path, last: Name, separator: string)
    ensures Join(p + [last], separator) == if p == [] then last else Join(p, separator) + separator + last
    decreases |p|
  {
    var q := p + [last];
    if p != [] {
      assert q[1..] == p[1..] + [last];
      JoinLast(p[1..], last, separator);
    }
  }

  /** Every part is free of the character. */
  predicate Free(p: Path, c: char) {
    forall i :: 0 <= i < |p| ==> c !in p[i]
  }

  /** What stands in front of the first separator is the first part. */
  lemma FirstPart(p: Path, separator: string)
    requires p != [] && separator != "" && Free(p, separator[0])
    ensures var s := Join(p, separator);
      && p[0] <= s && (if |p| == 1 then s == p[0] else s == p[0] + (separator + Join(p[1..], separator)))
      && (|p| > 1 ==> |p[0]| < |s| && s[|p[0]|] == separator[0])
  {
  }

  /** Joining loses nothing where the separator begins with a character that no part
      has. */
  lemma {:induction false} JoinInjective(p: Path, q: Path, separator: string)
    requires p != [] && q != [] && separator != "" && Free(p, separator[0]) && Free(q, separator[0])
    requires Join(p, separator) == Join(q, separator)
    ensures p == q
    decreases |p|
  {
    hide Join;
    FirstPart(p, separator);
    FirstPart(q, separator);
    var s := Join(p, separator);
    assert |p[0]| == |q[0]|;
    assert p[0] == s[..|p[0]|] && q[0] == s[..|q[0]|];
    if |p| > 1 && |q| > 1 {
      var n := |p[0]| + |separator|;
      assert s[n..] == Join(p[1..], separator) && s[n..] == Join(q[1..], separator);
      JoinInjective(p[1..], q[1..], separator);
      assert p == [p[0]] + p[1..] && q == [q[0]] + q[1..];
    } else {
      assert p == [p[0]] && q == [q[0]];
    }
  }

  /** Identifiers have no colon, so that items are told apart by their paths. */
  lemma CanonicalInjective(p: Path, q: Path)
    requires p != [] && q != [] && Free(p, ':') && Free(q, ':')
    ensures Canonical(p) == Canonical(q) <==> p == q
  {
    if Canonical(p) == Canonical(q) { JoinInjective(p, q, "::"); }
  }

  /** They may have underscores, so that their symbols can agree. */
  lemma SymbolsMeet()
    ensures Symbol(["a", "b"]) == Symbol(["a_b"]) == "a_b" && Canonical(["a", "b"]) != Canonical(["a_b"])
  {
    assert ["a", "b"][1..] == ["b"];
    assert Symbol(["a", "b"]) == "a" + ("_" + "b") == "a_b";
    assert Canonical(["a", "b"]) == "a" + ("::" + "b");
    assert |Canonical(["a", "b"])| == 4;
  }

  /** Without underscores they cannot. */
  lemma SymbolInjective(p: Path, q: Path)
    requires p != [] && q != [] && Free(p, '_') && Free(q, '_')
    ensures Symbol(p) == Symbol(q) <==> p == q
  {
    if Symbol(p) == Symbol(q) { JoinInjective(p, q, "_"); }
  }

  lemma {:induction false} SymbolHasNoDot(p: Path)
    ensures '.' !in Symbol(p)
    decreases |p|
  {
    if |p| > 1 { SymbolHasNoDot(p[1..]); }
  }
}
