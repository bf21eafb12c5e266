/** Dispatch of an enum match that the semantic analysis accepted: the tag is
    compared with the tags that the arms name, and one arm is always taken. */
module MatchDispatch {
  import opened Words
  import opened Ir
  import opened IrSemantics
  import opened I386
  import opened EmitI386
  import opened SimBase
  import opened Simulation
  import Sema = DefiniteAssignment

  function TagPattern(p: Sema.Pattern): Pattern {
    match p
    case Default => Default
    case Tag(tag) => IntPattern(tag)
  }

  function TagPatterns(ps: seq<Sema.Pattern>): (r: seq<Pattern>)
    ensures |r| == |ps| && forall i :: 0 <= i < |ps| ==> r[i] == TagPattern(ps[i])
  {
    seq(|ps|, i requires 0 <= i < |ps| => TagPattern(ps[i]))
  }

  /** `arms` are the lowered arms: the same patterns in the same order. */
  predicate Lowered(source: seq<Sema.Arm>, arms: seq<Arm>) {
    |arms| == |source| && forall i :: 0 <= i < |arms| ==> arms[i].patterns == TagPatterns(source[i].patterns)
  }

  /** The analysis reports nothing: there is a default arm or no variant is missing. */
  predicate Accepted(source: seq<Sema.Arm>, variants: nat) {
    Sema.HasDefault(source) || Sema.Missing(source, variants) == []
  }

  lemma {:induction false} SelectedIsFirst(arms: seq<Arm>, v: Val)
    ensures Selected(arms, v) < |arms| ==> Hits(arms[Selected(arms, v)], v)
    ensures forall j :: 0 <= j < Selected(arms, v) ==> !Hits(arms[j], v)
    decreases |arms|
  {
    hide Hits;
    if arms != [] && !Hits(arms[0], v) {
      SelectedIsFirst(arms[1..], v);
      assert forall j :: 0 < j < |arms| ==> arms[j] == arms[1..][j - 1];
    }
  }

  lemma LoweredHits(source: Sema.Arm, arm: Arm, tag: nat)
    requires arm.patterns == TagPatterns(source.patterns)
    ensures Hits(arm, Num(tag)) <==> Sema.Hits(source, tag)
  {
    if Hits(arm, Num(tag)) {
      var p :| p in arm.patterns && Matches(p, Num(tag));
      var i :| 0 <= i < |arm.patterns| && arm.patterns[i] == p;
      assert source.patterns[i] == Sema.Default || source.patterns[i] == Sema.Tag(tag);
    }
    if Sema.Hits(source, tag) {
      var q := if Sema.Default in source.patterns then Sema.Default else Sema.Tag(tag);
      var i :| 0 <= i < |source.patterns| && source.patterns[i] == q;
      assert arm.patterns[i] == TagPattern(q) && Matches(arm.patterns[i], Num(tag));
    }
  }

  /** For every variant, an accepted match has a first arm that names it or is the
      default. */
  lemma AcceptedSelects(source: seq<Sema.Arm>, arms: seq<Arm>, variants: nat, tag: nat)
    requires Lowered(source, arms) && Accepted(source, variants) && tag < variants
    ensures var i := Selected(arms, Num(tag));
      && i < |arms| && Sema.Hits(source[i], tag) && forall j :: 0 <= j < i ==> !Sema.Hits(source[j], tag)
  {
    hide Hits;
    SelectedIsFirst(arms, Num(tag));
    forall i | 0 <= i < |arms| ensures Hits(arms[i], Num(tag)) <==> Sema.Hits(source[i], tag) {
      LoweredHits(source[i], arms[i], tag);
    }
    var k := NamedBy(source, variants, tag);
  }

  lemma NamedBy(source: seq<Sema.Arm>, variants: nat, tag: nat) returns (k: nat)
    requires Accepted(source, variants) && tag < variants
    ensures k < |source| && Sema.Hits(source[k], tag)
  {
    if Sema.HasDefault(source) {
      k :| 0 <= k < |source| && Sema.Default in source[k].patterns;
    } else {
      assert Sema.Covered(source, tag);
      k :| 0 <= k < |source| && Sema.Tag(tag) in source[k].patterns;
    }
  }

  /** The arm is the first that names the tag or is the default. */
  predicate FirstNaming(source: seq<Sema.Arm>, tag: nat, i: nat) {
    i < |source| && Sema.Hits(source[i], tag) && forall j :: 0 <= j < i ==> !Sema.Hits(source[j], tag)
  }

  lemma TagsFit(ps: seq<Sema.Pattern>, variants: nat)
    requires variants <= TWO32 && forall v: nat :: Sema.Tag(v) in ps ==> v < variants
    ensures forall q :: q in TagPatterns(ps) ==> PatternFits(q, U32)
    ensures Default in TagPatterns(ps) <==> Sema.Default in ps
  {
    var qs := TagPatterns(ps);
    forall k | 0 <= k < |qs| ensures PatternFits(qs[k], U32) {
      if ps[k].Tag? { assert Sema.Tag(ps[k].tag) in ps; }
    }
    if Sema.Default in ps {
      var k :| 0 <= k < |ps| && ps[k] == Sema.Default;
      assert qs[k] == Default;
    }
  }

  /** Patterns that the analysis accepts fit the tag, with the default alone in the last
      arm, as the compare chain presupposes. */
  lemma AcceptedFits(source: seq<Sema.Arm>, arms: seq<Arm>, variants: nat)
    requires Lowered(source, arms) && Sema.Placed(source, false) && variants <= TWO32
    requires forall i, v: nat :: 0 <= i < |source| && Sema.Tag(v) in source[i].patterns ==> v < variants
    ensures PatternsFit(arms, U32)
  {
    hide Sema.Placed, PatternFits;
    forall i | 0 <= i < |arms|
      ensures (forall q :: q in arms[i].patterns ==> PatternFits(q, U32))
      ensures Default in arms[i].patterns ==> i == |arms| - 1 && arms[i].patterns == [Default]
    {
      Sema.DefaultIsLast(source, false, i);
      TagsFit(source[i].patterns, variants);
    }
  }

  /** The emitted compare chain of an accepted match jumps to the first arm in
      source order that names the tag or is the default. The jump behind the chain
      never goes to the end label. */
  lemma DispatchIsTotal(p: Machine, source: seq<Sema.Arm>, arms: seq<Arm>, variants: nat, tag: nat, slot: int,
                        label0: nat, end: Label, s: State)
      returns (k: nat, t: State)
    requires Lowered(source, arms) && Accepted(source, variants) && tag < variants
    requires Sema.Placed(source, false) && variants <= TWO32 && s.status == Running
    requires forall i, v: nat :: 0 <= i < |source| && Sema.Tag(v) in source[i].patterns ==> v < variants
    requires At(p, s.pc, Dispatch(arms, slot, label0) + [Jmp(Fallback(arms, label0, end))])
    requires (s.ebp + slot) % 4 == 0 && Load(s.mem, s.ebp + slot) == tag
    ensures Steps(p, s, k) == t
    ensures exists i ::
      FirstNaming(source, tag, i) && t == s.(pc := Find(p.code, Numbered(MatchArm, label0 + i)), flags := t.flags)
  {
    hide Dispatch, Fallback, Find, PatternsFit, Accepted, Steps, At;
    AcceptedFits(source, arms, variants);
    AcceptedSelects(source, arms, variants, tag);
    k, t := SimDispatch(p, arms, U32, slot, label0, end, Num(tag), s);
    assert FirstNaming(source, tag, Selected(arms, Num(tag)));
  }
}
