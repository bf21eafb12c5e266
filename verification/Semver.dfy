/** Version numbers: order, constraints, selection, and their text form. */
module Semver {
  import opened Decimals

  datatype Option<T> = None | Some(value: T)

  datatype Version = Version(major: int, minor: int, patch: int, pre: string, build: string)

  // ---- order ----

  /** Lexicographic order of strings. */
  predicate Before(a: string, b: string) {
    if b == "" then false
    else if a == "" then true
    else a[0] < b[0] || (a[0] == b[0] && Before(a[1..], b[1..]))
  }

  /** Build metadata does not count. */
  predicate Equal(a: Version, b: Version) {
    a.major == b.major && a.minor == b.minor && a.patch == b.patch && a.pre == b.pre
  }

  predicate Less(a: Version, b: Version) {
    if a.major != b.major then a.major < b.major
    else if a.minor != b.minor then a.minor < b.minor
    else if a.patch != b.patch then a.patch < b.patch
    else if a.pre == "" && b.pre != "" then false
    else if a.pre != "" && b.pre == "" then true
    else Before(a.pre, b.pre)
  }

  predicate AtMost(a: Version, b: Version) {
    Less(a, b) || Equal(a, b)
  }

  lemma {:induction false} BeforeOrder(a: string, b: string, c: string)
    ensures !(Before(a, b) && Before(b, a)) && (Before(a, b) || Before(b, a) || a == b) && !Before(a, a)
    ensures Before(a, b) && Before(b, c) ==> Before(a, c)
    decreases |a| + |b| + |c|
  {
    if a != "" && b != "" && a[0] == b[0] && a[1..] == b[1..] { assert a == [a[0]] + a[1..] && b == [b[0]] + b[1..]; }
    if a != "" || b != "" || c != "" {
      BeforeOrder(if a == "" then a else a[1..], if b == "" then b else b[1..], if c == "" then c else c[1..]);
    }
  }

  /** Exactly one of less, equal and greater holds, and both relations are
      transitive together: a total preorder that ignores build metadata. */
  lemma TotalPreorder(a: Version, b: Version, c: Version)
    ensures !(Less(a, b) && Less(b, a)) && !(Less(a, b) && Equal(a, b)) && (Less(a, b) || Less(b, a) || Equal(a, b))
    ensures AtMost(a, b) && AtMost(b, c) ==> AtMost(a, c)
    ensures (AtMost(a, b) && Less(b, c)) || (Less(a, b) && AtMost(b, c)) ==> Less(a, c)
    ensures AtMost(a, b) && AtMost(b, a) <==> Equal(a, b)
  {
    BeforeOrder(a.pre, b.pre, c.pre);
    BeforeOrder(b.pre, a.pre, c.pre);
  }

  // ---- constraints ----

  datatype Op = Caret | Tilde | Eq | Gt | Ge | Lt | Le

  datatype Term = Term(op: Op, v: Version)

  const INT_MAX := 0x7FFF_FFFF

  /** Components are 32 bits wide, and the largest one wraps around. */
  function Next(n: int): int {
    if n == INT_MAX then -INT_MAX - 1 else n + 1
  }

  /** The first version that a caret or tilde term excludes. */
  function Upper(op: Op, t: Version): Version {
    if op.Tilde? then Version(t.major, Next(t.minor), 0, "", "")
    else if t.major != 0 then Version(Next(t.major), 0, 0, "", "")
    else if t.minor != 0 then Version(0, Next(t.minor), 0, "", "")
    else Version(0, 0, Next(t.patch), "", "")
  }

  /** The component that the upper bound counts up. */
  function Counted(op: Op, t: Version): int {
    if op.Tilde? then t.minor else if t.major != 0 then t.major else if t.minor != 0 then t.minor else t.patch
  }

  predicate MatchOp(op: Op, candidate: Version, target: Version) {
    match op
    case Eq => Equal(candidate, target)
    case Gt => Less(target, candidate)
    case Ge => AtMost(target, candidate)
    case Lt => Less(candidate, target)
    case Le => AtMost(candidate, target)
    case Caret => !Less(candidate, target) && Less(candidate, Upper(op, target))
    case Tilde => !Less(candidate, target) && Less(candidate, Upper(op, target))
  }

  predicate Matches(terms: seq<Term>, v: Version) {
    forall i :: 0 <= i < |terms| ==> MatchOp(terms[i].op, v, terms[i].v)
  }

  /** What matches has no gaps in the order. */
  lemma MatchesConvex(terms: seq<Term>, a: Version, b: Version, c: Version)
    requires Matches(terms, a) && Matches(terms, c) && AtMost(a, b) && AtMost(b, c)
    ensures Matches(terms, b)
  {
    forall i | 0 <= i < |terms| ensures MatchOp(terms[i].op, b, terms[i].v) {
      TermConvex(terms[i], a, b, c);
    }
  }

  lemma TermConvex(t: Term, a: Version, b: Version, c: Version)
    requires MatchOp(t.op, a, t.v) && MatchOp(t.op, c, t.v) && AtMost(a, b) && AtMost(b, c)
    ensures MatchOp(t.op, b, t.v)
  {
    hide Less, Upper;
    TotalPreorder(a, t.v, b);
    TotalPreorder(b, t.v, a);
    TotalPreorder(t.v, a, b);
    TotalPreorder(b, c, t.v);
    TotalPreorder(b, c, Upper(t.op, t.v));
  }

  /** A version satisfies its own caret and tilde terms if and only if the upper bound does
      not wrap around; if it does, nothing satisfies them. */
  lemma OwnVersion(op: Op, t: Version)
    requires (op.Caret? || op.Tilde?) && InIntRange(t)
    ensures MatchOp(op, t, t) <==> Counted(op, t) != INT_MAX
    ensures Counted(op, t) == INT_MAX ==> forall v :: !MatchOp(op, v, t)
  {
    TotalPreorder(t, t, t);
    if Counted(op, t) == INT_MAX {
      forall v | MatchOp(op, v, t) ensures false { TotalPreorder(v, Upper(op, t), t); }
    }
  }

  // ---- what the operators admit, by components ----

  predicate SameCore(v: Version, t: Version) {
    v.major == t.major && v.minor == t.minor && v.patch == t.patch
  }

  /** The numbers of `v` are larger, the first that differs deciding. */
  predicate Above(v: Version, t: Version) {
    || v.major > t.major
    || (v.major == t.major && v.minor > t.minor)
    || (v.major == t.major && v.minor == t.minor && v.patch > t.patch)
  }

  /** A first character that differs decides, else the shorter text comes first. */
  predicate SplitAt(a: string, b: string, k: nat) {
    k <= |a| && k < |b| && a[..k] == b[..k] && (k == |a| || a[k] < b[k])
  }

  lemma SameStart(a: string, b: string, k: nat)
    requires SplitAt(a, b, k) && k > 0
    ensures a[0] == b[0]
  {
    assert a[..k][0] == b[..k][0];
  }

  lemma {:induction false} BeforeIs(a: string, b: string)
    ensures Before(a, b) <==> exists k: nat :: SplitAt(a, b, k)
    decreases |a|
  {
    if a == "" || b == "" || a[0] != b[0] {
      if Before(a, b) { assert SplitAt(a, b, 0); }
      if k: nat :| SplitAt(a, b, k) {
        if k > 0 { SameStart(a, b, k); }
      }
    } else {
      BeforeIs(a[1..], b[1..]);
      if k: nat :| SplitAt(a[1..], b[1..], k) {
        assert a[..k + 1] == [a[0]] + a[1..][..k] && b[..k + 1] == [b[0]] + b[1..][..k];
        assert SplitAt(a, b, k + 1);
      }
      if k: nat :| SplitAt(a, b, k) {
        assert k > 0;
        assert a[1..][..k - 1] == a[..k][1..] && b[1..][..k - 1] == b[..k][1..];
        assert SplitAt(a[1..], b[1..], k - 1);
      }
    }
  }

  /** Major, minor and patch decide in that order; with equal numbers a release is above
      its pre-releases, and these are in the order of their texts. */
  lemma OrderIs(v: Version, t: Version)
    ensures Less(t, v) <==> Above(v, t) || (SameCore(v, t) && t.pre != "" && (v.pre == "" || Before(t.pre, v.pre)))
    ensures Equal(v, t) <==> SameCore(v, t) && v.pre == t.pre
  {
  }

  /** Among releases the operators of comparison mean what they say. */
  lemma ComparisonsAdmit(v: Version, t: Version)
    requires v.pre == "" && t.pre == ""
    ensures MatchOp(Gt, v, t) <==> Above(v, t)
    ensures MatchOp(Ge, v, t) <==> Above(v, t) || SameCore(v, t)
    ensures MatchOp(Lt, v, t) <==> Above(t, v)
    ensures MatchOp(Le, v, t) <==> Above(t, v) || SameCore(v, t)
    ensures MatchOp(Eq, v, t) <==> SameCore(v, t)
  {
    OrderIs(v, t);
    OrderIs(t, v);
  }

  /** With pre-releases too: `v` is above a pre-release of its own numbers that comes
      before it, and equality needs equal texts. */
  lemma PreReleasesAdmit(v: Version, t: Version)
    ensures MatchOp(Gt, v, t) <==>
      Above(v, t) || (SameCore(v, t) && t.pre != "" && (v.pre == "" || Before(t.pre, v.pre)))
    ensures MatchOp(Eq, v, t) <==> SameCore(v, t) && v.pre == t.pre
    ensures MatchOp(Ge, v, t) <==> MatchOp(Gt, v, t) || MatchOp(Eq, v, t)
    ensures MatchOp(Lt, v, t) <==> MatchOp(Gt, t, v)
    ensures MatchOp(Le, v, t) <==> MatchOp(Ge, t, v)
  {
    OrderIs(v, t);
    OrderIs(t, v);
  }

  /** The same leading component that is not zero, and the same to its left. */
  predicate SameLeading(v: Version, t: Version) {
    if t.major != 0 then v.major == t.major
    else if t.minor != 0 then v.major == 0 && v.minor == t.minor
    else v.major == 0 && v.minor == 0 && v.patch == t.patch
  }

  /** A pre-release of the first version with a larger leading component. */
  predicate OfNextLeading(v: Version, t: Version) {
    && v.pre != ""
    && (if t.major != 0 then v.major == t.major + 1 && v.minor == 0 && v.patch == 0
        else if t.minor != 0 then v.major == 0 && v.minor == t.minor + 1 && v.patch == 0
        else v.major == 0 && v.minor == 0 && v.patch == t.patch + 1)
  }

  /** A caret term admits what is not below it and has the same leading component, and
      pre-releases of the next one; the bound of the term must not wrap around. */
  lemma CaretAdmits(v: Version, t: Version)
    requires InIntRange(v) && InIntRange(t) && Counted(Caret, t) != INT_MAX
    ensures MatchOp(Caret, v, t) <==> MatchOp(Ge, v, t) && (SameLeading(v, t) || OfNextLeading(v, t))
    ensures v.pre == "" && t.pre == "" ==>
      (MatchOp(Caret, v, t) <==> (Above(v, t) || SameCore(v, t)) && SameLeading(v, t))
  {
    hide Before;
    OrderIs(v, t);
    OrderIs(t, v);
    OrderIs(Upper(Caret, t), v);
    TotalPreorder(v, t, v);
  }

  /** A tilde term admits what is not below it and has the same major and minor component,
      and pre-releases of the next minor one. */
  lemma TildeAdmits(v: Version, t: Version)
    requires InIntRange(v) && InIntRange(t) && Counted(Tilde, t) != INT_MAX
    ensures MatchOp(Tilde, v, t) <==>
      (MatchOp(Ge, v, t) && v.major == t.major
       && (v.minor == t.minor || (v.minor == t.minor + 1 && v.patch == 0 && v.pre != "")))
    ensures v.pre == "" && t.pre == "" ==>
      (MatchOp(Tilde, v, t) <==> (Above(v, t) || SameCore(v, t)) && v.major == t.major && v.minor == t.minor)
  {
    hide Before;
    OrderIs(v, t);
    OrderIs(t, v);
    OrderIs(Upper(Tilde, t), v);
    TotalPreorder(v, t, v);
  }

  /** Equal versions match the same constraints. */
  lemma MatchesEqual(terms: seq<Term>, a: Version, b: Version)
    requires Equal(a, b) && Matches(terms, a)
    ensures Matches(terms, b)
  {
    assert AtMost(a, b) && AtMost(b, a);
    MatchesConvex(terms, a, b, a);
  }

  method MatchesAll(terms: seq<Term>, v: Version) returns (ok: bool)
    ensures ok <==> Matches(terms, v)
  {
    for i := 0 to |terms|
      invariant forall j :: 0 <= j < i ==> MatchOp(terms[j].op, v, terms[j].v)
    {
      if !MatchOp(terms[i].op, v, terms[i].v) { return false; }
    }
    return true;
  }

  /** Position `k` holds a match that no match exceeds and no earlier match equals. */
  predicate Highest(terms: seq<Term>, list: seq<Version>, k: nat) {
    && k < |list| && Matches(terms, list[k])
    && (forall i :: 0 <= i < |list| && Matches(terms, list[i]) ==> AtMost(list[i], list[k]))
    && (forall i :: 0 <= i < k && Matches(terms, list[i]) ==> Less(list[i], list[k]))
  }

  /** The highest available version that matches, the first one among equals. */
  method ResolveHighest(terms: seq<Term>, available: seq<Version>) returns (best: Option<Version>)
    ensures best.None? <==> forall i :: 0 <= i < |available| ==> !Matches(terms, available[i])
    ensures best.Some? ==> exists k: nat :: Highest(terms, available, k) && best.value == available[k]
  {
    hide Matches, Less, Equal;
    best := None;
    ghost var k: nat := 0;
    for i := 0 to |available|
      invariant best.None? <==> forall j :: 0 <= j < i ==> !Matches(terms, available[j])
      invariant best.Some? ==> Highest(terms, available[..i], k) && best.value == available[k]
    {
      var v := available[i];
      var ok := MatchesAll(terms, v);
      if ok && (best.None? || Less(best.value, v)) {
        NewHighest(terms, available[..i], v, best, k);
        best := Some(v);
        k := i;
      } else if best.Some? {
        OldHighest(terms, available[..i], v, k);
      }
      assert available[..i + 1] == available[..i] + [v];
    }
    assert available[..|available|] == available;
  }

  lemma NewHighest(terms: seq<Term>, list: seq<Version>, v: Version, best: Option<Version>, k: nat)
    requires Matches(terms, v)
    requires best.None? ==> forall i :: 0 <= i < |list| ==> !Matches(terms, list[i])
    requires best.Some? ==> Highest(terms, list, k) && best.value == list[k] && Less(best.value, v)
    ensures Highest(terms, list + [v], |list|)
  {
    hide Matches, Less, Equal;
    TotalPreorder(v, v, v);
    forall i | 0 <= i < |list| && Matches(terms, list[i]) ensures Less(list[i], v) {
      TotalPreorder(list[i], list[k], v);
    }
  }

  lemma OldHighest(terms: seq<Term>, list: seq<Version>, v: Version, k: nat)
    requires Highest(terms, list, k) && (Matches(terms, v) ==> !Less(list[k], v))
    ensures Highest(terms, list + [v], k)
  {
    hide Matches, Less;
    TotalPreorder(v, list[k], v);
  }

  // ---- text ----

  predicate IsSpace(c: char) {
    c == ' ' || '\t' <= c <= '\r'
  }

  function TrimLeft(s: string): string {
    if s != "" && IsSpace(s[0]) then TrimLeft(s[1..]) else s
  }

  function TrimRight(s: string): string {
    if s != "" && IsSpace(s[|s| - 1]) then TrimRight(s[..|s| - 1]) else s
  }

  function Trim(s: string): string {
    TrimRight(TrimLeft(s))
  }

  /** Digits only, and in the range of a 32-bit signed integer. */
  function ParseInt(s: string): Option<int> {
    if s == "" || !AllDigits(s) || Number(s) > INT_MAX then None else Some(Number(s))
  }

  /** The position of the first `c`, or the length. */
  function Find(s: string, c: char): (k: nat)
    ensures k <= |s| && c !in s[..k] && (k < |s| ==> s[k] == c)
  {
    if s == "" || s[0] == c then 0 else 1 + Find(s[1..], c)
  }

  function Left(s: string, c: char): string {
    s[..Find(s, c)]
  }

  function Right(s: string, c: char): string {
    if Find(s, c) < |s| then s[Find(s, c) + 1..] else ""
  }

  function ParseCore(core: string, pre: string, build: string): Option<Version> {
    var first := Find(core, '.');
    var major := ParseInt(core[..first]);
    if major.None? then None
    else if first == |core| then Some(Version(major.value, 0, 0, pre, build))
    else
      var tail := core[first + 1..];
      var second := Find(tail, '.');
      var minor := ParseInt(tail[..second]);
      if minor.None? then None
      else if second == |tail| then Some(Version(major.value, minor.value, 0, pre, build))
      else
        var patch := ParseInt(tail[second + 1..]);
        if patch.None? then None else Some(Version(major.value, minor.value, patch.value, pre, build))
  }

  function ParseVersion(text: string): Option<Version> {
    var s := Trim(text);
    if s == "" then None else
    var head := Left(s, '+');
    ParseCore(Left(head, '-'), Right(head, '-'), Right(s, '+'))
  }

  function Core(v: Version): string
    requires InIntRange(v)
  {
    Decimal(v.major) + ("." + (Decimal(v.minor) + ("." + Decimal(v.patch))))
  }

  function Suffix(mark: char, s: string): string {
    if s == "" then "" else [mark] + s
  }

  function ToString(v: Version): string
    requires InIntRange(v)
  {
    (Core(v) + Suffix('-', v.pre)) + Suffix('+', v.build)
  }

  /** The parts of a text, in their order. */
  lemma TextIs()
    ensures ToString(Version(1, 20, 3, "rc", "x")) == "1.20.3-rc+x"
  {
    assert Decimal(1) == "1" && Decimal(2) == "2" && Decimal(3) == "3" && Decimal(20) == "2" + "0";
  }

  predicate InIntRange(v: Version) {
    0 <= v.major <= INT_MAX && 0 <= v.minor <= INT_MAX && 0 <= v.patch <= INT_MAX
  }

  lemma ParseDecimal(n: nat)
    requires n <= INT_MAX
    ensures ParseInt(Decimal(n)) == Some(n)
    ensures forall c :: !IsDigit(c) ==> c !in Decimal(n)
  {
    DecimalNumber(n);
  }

  lemma {:induction false} FindIn(a: string, c: char, b: string)
    requires c !in a
    ensures Find(a + ([c] + b), c) == |a| && Find(a, c) == |a|
    decreases |a|
  {
    if a != "" {
      assert (a + ([c] + b))[1..] == a[1..] + ([c] + b);
      FindIn(a[1..], c, b);
    }
  }

  /** Cutting at a mark that does not occur before it. */
  lemma Cut(a: string, c: char, s: string)
    requires c !in a
    ensures Left(a + Suffix(c, s), c) == a && Right(a + Suffix(c, s), c) == s
  {
    FindIn(a, c, s);
    if s == "" { assert a + "" == a; } else {
      var t := a + ([c] + s);
      assert t[..|a|] == a && t[|a| + 1..] == s;
    }
  }

  lemma CoreParses(v: Version)
    requires InIntRange(v)
    ensures ParseCore(Core(v), v.pre, v.build) == Some(v)
  {
    hide ParseInt, Decimal, Find;
    ParseDecimal(v.major);
    ParseDecimal(v.minor);
    ParseDecimal(v.patch);
    var tail := Decimal(v.minor) + ("." + Decimal(v.patch));
    CutAt(Decimal(v.major), tail);
    CutAt(Decimal(v.minor), Decimal(v.patch));
  }

  lemma CutAt(a: string, b: string)
    requires '.' !in a
    ensures var s := a + ("." + b);
      Find(s, '.') == |a| && |a| < |s| && s[..|a|] == a && s[|a| + 1..] == b
  {
    assert a + ("." + b) == a + (['.'] + b);
    FindIn(a, '.', b);
  }

  lemma CoreCharacters(v: Version)
    requires InIntRange(v)
    ensures forall i :: 0 <= i < |Core(v)| ==> IsDigit(Core(v)[i]) || Core(v)[i] == '.'
    ensures |Core(v)| >= 5 && IsDigit(Core(v)[0]) && IsDigit(Core(v)[|Core(v)| - 1])
  {
    hide Decimal;
    DecimalNumber(v.major);
    DecimalNumber(v.minor);
    DecimalNumber(v.patch);
  }

  predicate EndsInSpace(s: string) {
    s != "" && IsSpace(s[|s| - 1])
  }

  /** Writing and reading a version gives the version back exactly if the
      pre-release part has no plus sign and the text does not end in a space. */
  lemma RoundTrip(v: Version)
    requires InIntRange(v)
    ensures ParseVersion(ToString(v)) == Some(v) <==> '+' !in v.pre && !EndsInSpace(ToString(v))
  {
    hide Core, ParseCore, ParseVersion, ToString, EndsInSpace;
    NotTrimmed(v);
    if EndsInSpace(ToString(v)) || '+' in v.pre { NotRead(v); } else { ReadBack(v); }
  }

  /** Nothing is trimmed on the left. */
  lemma NotTrimmed(v: Version)
    requires InIntRange(v)
    ensures TrimLeft(ToString(v)) == ToString(v)
  {
    CoreCharacters(v);
    hide Core;
    assert ToString(v)[0] == Core(v)[0];
  }

  lemma ReadBack(v: Version)
    requires InIntRange(v) && '+' !in v.pre && !EndsInSpace(ToString(v))
    ensures ParseVersion(ToString(v)) == Some(v)
  {
    CoreParses(v);
    CoreCharacters(v);
    hide Core, ParseCore, Left, Right;
    var core, text := Core(v), ToString(v);
    NotTrimmed(v);
    TrimRightShrinks(text);
    assert Trim(text) == text;
    Cut(core + Suffix('-', v.pre), '+', v.build);
    Cut(core, '-', v.pre);
  }

  lemma {:induction false} TrimRightShrinks(s: string)
    ensures |TrimRight(s)| <= |s| && TrimRight(s) == s[..|TrimRight(s)|]
    ensures if EndsInSpace(s) then |TrimRight(s)| < |s| else TrimRight(s) == s
    ensures forall i :: |TrimRight(s)| <= i < |s| ==> IsSpace(s[i])
  {
    if EndsInSpace(s) {
      TrimRightShrinks(s[..|s| - 1]);
      assert forall i :: 0 <= i < |s| - 1 ==> s[..|s| - 1][i] == s[i];
    }
  }

  /** The parts and their marks fit into the text. */
  lemma PartsFit(s: string, c: char)
    ensures |Left(s, c)| <= |s| && (Right(s, c) != "" ==> |Left(s, c)| + 1 + |Right(s, c)| == |s|)
  {
  }

  lemma FindBefore(s: string, c: char, k: nat)
    requires k < |s| && s[k] == c
    ensures Find(s, c) <= k
  {
    assert forall i :: 0 <= i < Find(s, c) ==> s[i] == s[..Find(s, c)][i];
  }

  lemma FindBeyond(s: string, c: char, n: nat)
    requires n <= |s| && forall i :: 0 <= i < n ==> s[i] != c
    ensures Find(s, c) >= n
  {
  }

  /** Text that was trimmed, or in which a plus sign comes early, is too short for
      the parts of the version. */
  lemma NotRead(v: Version)
    requires InIntRange(v) && TrimLeft(ToString(v)) == ToString(v)
    requires EndsInSpace(ToString(v)) || '+' in v.pre
    ensures ParseVersion(ToString(v)) != Some(v)
  {
    CoreCharacters(v);
    hide Core, ParseCore, TrimLeft, TrimRight, Find, Left, Right, Suffix;
    var text, n := ToString(v), |Core(v)|;
    var s := Trim(text);
    TrimmedPrefix(v);
    FindBeyond(s, '+', n);
    var head := Left(s, '+');
    LeftPrefix(s, '+', n);
    FindBeyond(head, '-', n);
    LeftPrefix(head, '-', n);
    PartsFit(s, '+');
    PartsFit(head, '-');
    CoreKeepsParts(Left(head, '-'), Right(head, '-'), Right(s, '+'));
    TextLength(v);
    if '+' in v.pre { EarlyPlus(v, s); }
  }

  lemma CoreKeepsParts(core: string, pre: string, build: string)
    ensures var r := ParseCore(core, pre, build); r.Some? ==> r.value.pre == pre && r.value.build == build
  {
  }

  lemma TextLength(v: Version)
    requires InIntRange(v)
    ensures |ToString(v)|
         == |Core(v)| + (if v.pre == "" then 0 else 1 + |v.pre|) + (if v.build == "" then 0 else 1 + |v.build|)
  {
  }

  lemma LeftPrefix(s: string, c: char, n: nat)
    requires n <= Find(s, c)
    ensures n <= |Left(s, c)| && forall i :: 0 <= i < n ==> Left(s, c)[i] == s[i]
  {
  }

  /** Trimming leaves the numbers alone. */
  lemma TrimmedPrefix(v: Version)
    requires InIntRange(v) && TrimLeft(ToString(v)) == ToString(v)
    ensures var s, text := Trim(ToString(v)), ToString(v);
      && |Core(v)| <= |s| <= |text| && s == text[..|s|] && (EndsInSpace(text) ==> |s| < |text|)
      && forall i :: 0 <= i < |Core(v)| ==> s[i] == Core(v)[i]
  {
    CoreCharacters(v);
    hide Core;
    var text, n := ToString(v), |Core(v)|;
    TrimRightShrinks(text);
    assert forall i :: 0 <= i < n ==> text[i] == Core(v)[i];
    assert !IsSpace(text[n - 1]);
  }

  lemma EarlyPlus(v: Version, s: string)
    requires InIntRange(v) && '+' in v.pre && |s| <= |ToString(v)| && s == ToString(v)[..|s|] && |Core(v)| <= |s|
    ensures |Left(s, '+')| < |Core(v)| + 1 + |v.pre|
  {
    var text, head := ToString(v), Core(v) + ("-" + v.pre);
    hide Core;
    var i :| 0 <= i < |v.pre| && v.pre[i] == '+';
    var k := |Core(v)| + 1 + i;
    assert Suffix('-', v.pre) == "-" + v.pre;
    assert text == head + Suffix('+', v.build);
    assert head[k] == '+' && text[k] == '+';
    if k < |s| {
      assert s[k] == '+';
      FindBefore(s, '+', k);
    }
  }

  // ---- which texts are versions ----

  /** `s` is `a`, with or without the first mark `c` of `s` and `b` behind it. */
  predicate Joined(s: string, a: string, c: char, b: string) {
    c !in a && ((s == a && b == "") || s == a + ([c] + b))
  }

  predicate Reads(s: string, n: int) {
    ParseInt(s) == Some(n)
  }

  predicate TwoNumbers(core: string, v: Version, a: string, b: string) {
    core == a + ("." + b) && Reads(a, v.major) && Reads(b, v.minor) && v.patch == 0
  }

  predicate ThreeNumbers(core: string, v: Version, a: string, b: string, c: string) {
    core == a + ("." + (b + ("." + c))) && Reads(a, v.major) && Reads(b, v.minor) && Reads(c, v.patch)
  }

  /** One, two or three numbers with dots between them; what is missing is zero. */
  ghost predicate Numbers(core: string, v: Version) {
    || (Reads(core, v.major) && v.minor == 0 && v.patch == 0)
    || (exists a, b :: TwoNumbers(core, v, a, b))
    || (exists a, b, c :: ThreeNumbers(core, v, a, b, c))
  }

  /** Without the spaces around it: the numbers, what is behind the first minus sign if that
      comes in front of the first plus sign, and what is behind the first plus sign. */
  ghost predicate Written(text: string, v: Version) {
    exists head, core ::
      Joined(Trim(text), head, '+', v.build) && Joined(head, core, '-', v.pre) && Numbers(core, v)
  }

  lemma {:induction false} FindIs(s: string, c: char, k: nat)
    requires k <= |s| && c !in s[..k] && (k < |s| ==> s[k] == c)
    ensures Find(s, c) == k
  {
    if k > 0 {
      assert s[..k][0] == s[0] && s[1..][..k - 1] == s[..k][1..];
      FindIs(s[1..], c, k - 1);
    }
  }

  lemma SplitIs(s: string, c: char, a: string, b: string)
    ensures Left(s, c) == a && Right(s, c) == b <==> Joined(s, a, c, b)
  {
    if Joined(s, a, c, b) {
      assert s[..|a|] == a;
      FindIs(s, c, |a|);
    }
    var k := Find(s, c);
    if k < |s| { assert s == s[..k] + ([s[k]] + s[k + 1..]); }
  }

  lemma NoDot(s: string)
    requires ParseInt(s).Some?
    ensures '.' !in s
  {
    forall i | 0 <= i < |s| ensures s[i] != '.' { AllAreDigits(s, i); }
  }

  lemma {:induction false} AllAreDigits(s: string, i: nat)
    requires AllDigits(s) && i < |s|
    ensures IsDigit(s[i])
  {
  }

  lemma FirstDot(a: string, b: string)
    requires '.' !in a
    ensures var s := a + ("." + b); Find(s, '.') == |a| && s[..|a|] == a && s[|a| + 1..] == b
  {
    var s := a + ("." + b);
    assert s[..|a|] == a;
    FindIs(s, '.', |a|);
  }

  lemma NoFirstDot(a: string)
    requires '.' !in a
    ensures Find(a, '.') == |a|
  {
    assert a[..|a|] == a;
    FindIs(a, '.', |a|);
  }

  lemma CoreDecides(core: string, v: Version)
    ensures ParseCore(core, v.pre, v.build) == Some(v) <==> Numbers(core, v)
  {
    if Numbers(core, v) { NumbersParse(core, v); }
    if ParseCore(core, v.pre, v.build) == Some(v) { ParsedNumbers(core, v); }
  }

  lemma NumbersParse(core: string, v: Version)
    requires Numbers(core, v)
    ensures ParseCore(core, v.pre, v.build) == Some(v)
  {
    hide ParseInt, Find, ParseCore, TwoNumbers, ThreeNumbers, Reads;
    if a, b :| TwoNumbers(core, v, a, b) {
      TwoParse(core, v, a, b);
    } else if a, b, c :| ThreeNumbers(core, v, a, b, c) {
      ThreeParse(core, v, a, b, c);
    } else {
      OneParses(core, v);
    }
  }

  lemma OneParses(core: string, v: Version)
    requires Reads(core, v.major) && v.minor == 0 && v.patch == 0
    ensures ParseCore(core, v.pre, v.build) == Some(v)
  {
    hide ParseInt, Find;
    NoDot(core);
    NoFirstDot(core);
    assert core[..|core|] == core;
  }

  lemma TwoParse(core: string, v: Version, a: string, b: string)
    requires TwoNumbers(core, v, a, b)
    ensures ParseCore(core, v.pre, v.build) == Some(v)
  {
    hide ParseInt, Find;
    NoDot(a);
    NoDot(b);
    FirstDot(a, b);
    NoFirstDot(b);
    assert b[..|b|] == b;
  }

  lemma ThreeParse(core: string, v: Version, a: string, b: string, c: string)
    requires ThreeNumbers(core, v, a, b, c)
    ensures ParseCore(core, v.pre, v.build) == Some(v)
  {
    hide ParseInt, Find;
    NoDot(a);
    NoDot(b);
    FirstDot(a, b + ("." + c));
    FirstDot(b, c);
  }

  lemma ParsedNumbers(core: string, v: Version)
    requires ParseCore(core, v.pre, v.build) == Some(v)
    ensures Numbers(core, v)
  {
    hide ParseInt, Find;
    var first := Find(core, '.');
    if first == |core| {
      assert core[..first] == core;
    } else {
      var a, tail := core[..first], core[first + 1..];
      DotAt(core, first);
      var second := Find(tail, '.');
      if second == |tail| {
        assert tail[..second] == tail;
        assert TwoNumbers(core, v, a, tail);
      } else {
        DotAt(tail, second);
        assert ThreeNumbers(core, v, a, tail[..second], tail[second + 1..]);
      }
    }
  }

  lemma DotAt(s: string, k: nat)
    requires k < |s| && s[k] == '.'
    ensures s == s[..k] + ("." + s[k + 1..])
  {
  }

  /** Just these texts are read as a version, and as that version. */
  lemma VersionDecides(text: string, v: Version)
    ensures ParseVersion(text) == Some(v) <==> Written(text, v)
  {
    hide Trim, Left, Right, ParseCore, Numbers;
    var s := Trim(text);
    var head := Left(s, '+');
    var core := Left(head, '-');
    if ParseVersion(text) == Some(v) {
      CoreKeepsParts(core, Right(head, '-'), Right(s, '+'));
      SplitIs(s, '+', head, v.build);
      SplitIs(head, '-', core, v.pre);
      CoreDecides(core, v);
    }
    if h, k :| Joined(s, h, '+', v.build) && Joined(h, k, '-', v.pre) && Numbers(k, v) {
      SplitIs(s, '+', h, v.build);
      SplitIs(h, '-', k, v.pre);
      CoreDecides(k, v);
      NotEmpty(k, v);
    }
  }

  lemma NotEmpty(core: string, v: Version)
    requires Numbers(core, v)
    ensures core != ""
  {
  }
}
