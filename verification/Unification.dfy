/** One-sided unification of a generic type pattern with an actual type, and
    substitution. Types are taken up to the compiler's own equality. */
module Unification {
  import opened Types

  type Bindings = map<string, Type>

  datatype Unified = Unified(ok: bool, bindings: Bindings)

  function Unify(p: Type, a: Type, names: set<string>, b: Bindings): Unified
    decreases p, 0
  {
    if p.UserStruct? && p.name in names then
      if p.name in b then Unified(b[p.name] == a, b) else Unified(true, b[p.name := a])
    else match p
      case Pointer(q) => if a.Pointer? then Unify(q, a.to, names, b) else Unified(false, b)
      case Slice(q) => if a.Slice? then Unify(q, a.of, names, b) else Unified(false, b)
      case Vector(q) => if a.Vector? then Unify(q, a.of, names, b) else Unified(false, b)
      case Optional(q) => if a.Optional? then Unify(q, a.of, names, b) else Unified(false, b)
      case Result(q) => if a.Result? || a.Result2? then Unify(q, a.of, names, b) else Unified(false, b)
      case Result2(q, e) =>
        if a.Result2? then
          var r := Unify(q, a.of, names, b);
          if r.ok then Unify(e, a.error, names, r.bindings) else r
        else if a.Result? then Unify(q, a.of, names, b)
        else Unified(false, b)
      case Tuple(ps) =>
        if a.Tuple? && |ps| == |a.elements| then UnifyAll(ps, a.elements, names, b) else Unified(false, b)
      case _ => Unified(p == a, b)
  }

  function UnifyAll(ps: seq<Type>, as_: seq<Type>, names: set<string>, b: Bindings): Unified
    requires |ps| == |as_|
    decreases ps, 1
  {
    if ps == [] then Unified(true, b) else
    var r := Unify(ps[0], as_[0], names, b);
    if r.ok then UnifyAll(ps[1..], as_[1..], names, r.bindings) else r
  }

  function Substitute(t: Type, b: Bindings): Type
    decreases t, 0
  {
    match t
    case UserStruct(name) => if name in b then b[name] else t
    case Pointer(p) => Pointer(Substitute(p, b))
    case Slice(p) => Slice(Substitute(p, b))
    case Vector(p) => Vector(Substitute(p, b))
    case Optional(p) => Optional(Substitute(p, b))
    case Result(p) => Result(Substitute(p, b))
    case Result2(p, e) => Result2(Substitute(p, b), Substitute(e, b))
    case Tuple(es) => Tuple(SubstituteAll(es, b))
    case _ => t
  }

  function SubstituteAll(ts: seq<Type>, b: Bindings): seq<Type>
    decreases ts, 1
  {
    if ts == [] then [] else [Substitute(ts[0], b)] + SubstituteAll(ts[1..], b)
  }

  /** The generic names in a pattern. */
  function Vars(t: Type, names: set<string>): set<string>
    decreases t, 0
  {
    match t
    case UserStruct(name) => if name in names then {name} else {}
    case Pointer(p) => Vars(p, names)
    case Slice(p) => Vars(p, names)
    case Vector(p) => Vars(p, names)
    case Optional(p) => Vars(p, names)
    case Result(p) => Vars(p, names)
    case Result2(p, e) => Vars(p, names) + Vars(e, names)
    case Tuple(es) => AllVars(es, names)
    case _ => {}
  }

  function AllVars(ts: seq<Type>, names: set<string>): set<string>
    decreases ts, 1
  {
    if ts == [] then {} else Vars(ts[0], names) + AllVars(ts[1..], names)
  }

  predicate Extends(b: Bindings, b': Bindings) {
    forall x :: x in b ==> x in b' && b'[x] == b[x]
  }

  /** `Result` types in the same place have the same number of arguments. */
  predicate SameArity(p: Type, a: Type, names: set<string>)
    decreases p, 0
  {
    match p
    case Pointer(q) => a.Pointer? ==> SameArity(q, a.to, names)
    case Slice(q) => a.Slice? ==> SameArity(q, a.of, names)
    case Vector(q) => a.Vector? ==> SameArity(q, a.of, names)
    case Optional(q) => a.Optional? ==> SameArity(q, a.of, names)
    case Result(q) => !a.Result2? && (a.Result? ==> SameArity(q, a.of, names))
    case Result2(q, e) => !a.Result? && (a.Result2? ==> SameArity(q, a.of, names) && SameArity(e, a.error, names))
    case Tuple(ps) => a.Tuple? && |ps| == |a.elements| ==> AllSameArity(ps, a.elements, names)
    case _ => true
  }

  predicate AllSameArity(ps: seq<Type>, as_: seq<Type>, names: set<string>)
    requires |ps| == |as_|
    decreases ps, 1
  {
    ps == [] || (SameArity(ps[0], as_[0], names) && AllSameArity(ps[1..], as_[1..], names))
  }

  /** Bindings are only added, for names of the pattern only, and success binds
      them all. This holds of failures too. */
  lemma {:induction false} Bound(p: Type, a: Type, names: set<string>, b: Bindings)
    ensures var r := Unify(p, a, names, b);
      && Extends(b, r.bindings) && r.bindings.Keys <= b.Keys + Vars(p, names)
      && (r.ok && SameArity(p, a, names) ==> r.bindings.Keys == b.Keys + Vars(p, names))
    decreases p, 0
  {
    match p
    case Pointer(q) => if a.Pointer? { Bound(q, a.to, names, b); }
    case Slice(q) => if a.Slice? { Bound(q, a.of, names, b); }
    case Vector(q) => if a.Vector? { Bound(q, a.of, names, b); }
    case Optional(q) => if a.Optional? { Bound(q, a.of, names, b); }
    case Result(q) => if a.Result? || a.Result2? { Bound(q, a.of, names, b); }
    case Result2(q, e) =>
      if a.Result2? || a.Result? {
        Bound(q, a.of, names, b);
        if a.Result2? { Bound(e, a.error, names, Unify(q, a.of, names, b).bindings); }
      }
    case Tuple(ps) => if a.Tuple? && |ps| == |a.elements| { BoundAll(ps, a.elements, names, b); }
    case _ =>
  }

  lemma BoundAll(ps: seq<Type>, as_: seq<Type>, names: set<string>, b: Bindings)
    requires |ps| == |as_|
    ensures var r := UnifyAll(ps, as_, names, b);
      && Extends(b, r.bindings) && r.bindings.Keys <= b.Keys + AllVars(ps, names)
      && (r.ok && AllSameArity(ps, as_, names) ==> r.bindings.Keys == b.Keys + AllVars(ps, names))
    decreases ps, 1
  {
    if ps != [] {
      Bound(ps[0], as_[0], names, b);
      BoundAll(ps[1..], as_[1..], names, Unify(ps[0], as_[0], names, b).bindings);
    }
  }

  /** A substitution depends on the generic names of a type only. */
  lemma {:induction false} SubstituteMore(t: Type, names: set<string>, b: Bindings, c: Bindings)
    requires Extends(b, c) && c.Keys <= names && Vars(t, names) <= b.Keys
    ensures Substitute(t, c) == Substitute(t, b)
    decreases t, 0
  {
    match t
    case Pointer(p) => SubstituteMore(p, names, b, c);
    case Slice(p) => SubstituteMore(p, names, b, c);
    case Vector(p) => SubstituteMore(p, names, b, c);
    case Optional(p) => SubstituteMore(p, names, b, c);
    case Result(p) => SubstituteMore(p, names, b, c);
    case Result2(p, e) =>
      SubstituteMore(p, names, b, c);
      SubstituteMore(e, names, b, c);
    case Tuple(es) => SubstituteMoreAll(es, names, b, c);
    case _ =>
  }

  lemma SubstituteMoreAll(ts: seq<Type>, names: set<string>, b: Bindings, c: Bindings)
    requires Extends(b, c) && c.Keys <= names && AllVars(ts, names) <= b.Keys
    ensures SubstituteAll(ts, c) == SubstituteAll(ts, b)
    decreases ts, 1
  {
    if ts != [] {
      SubstituteMore(ts[0], names, b, c);
      SubstituteMoreAll(ts[1..], names, b, c);
    }
  }

  /** Soundness, and its limit: when unification succeeds, the bindings rebuild
      the actual type exactly if the two agree on the arity of their results. */
  lemma {:induction false} UnifySound(p: Type, a: Type, names: set<string>, b: Bindings)
    requires b.Keys <= names && Unify(p, a, names, b).ok
    ensures Substitute(p, Unify(p, a, names, b).bindings) == a <==> SameArity(p, a, names)
    decreases p, 0
  {
    Bound(p, a, names, b);
    VarsGeneric(p, names);
    match p
    case Pointer(q) => UnifySound(q, a.to, names, b);
    case Slice(q) => UnifySound(q, a.of, names, b);
    case Vector(q) => UnifySound(q, a.of, names, b);
    case Optional(q) => UnifySound(q, a.of, names, b);
    case Result(q) => UnifySound(q, a.of, names, b);
    case Result2(q, e) =>
      if a.Result2? { PairSound(q, e, a.of, a.error, names, b); }
    case Tuple(ps) => UnifySoundAll(ps, a.elements, names, b);
    case _ =>
  }

  /** Two results of different arity: unification succeeds, but the bindings rebuild
      another type, or do not even bind all names of the pattern. */
  lemma ArityIsLost()
    ensures var p, a := Result(UserStruct("T")), Result2(Int(true, 32), Bool);
      var r := Unify(p, a, {"T"}, map[]);
      r.ok && Substitute(p, r.bindings) == Result(Int(true, 32)) && Substitute(p, r.bindings) != a
    ensures var p, a := Result2(UserStruct("T"), UserStruct("E")), Result(Int(true, 32));
      var r := Unify(p, a, {"T", "E"}, map[]);
      r.ok && r.bindings == map["T" := Int(true, 32)] && Substitute(p, r.bindings) != a
  {
  }

  lemma PairSound(q: Type, e: Type, a1: Type, a2: Type, names: set<string>, b: Bindings)
    requires b.Keys <= names && Unify(q, a1, names, b).ok
    requires Unify(e, a2, names, Unify(q, a1, names, b).bindings).ok
    ensures var c := Unify(e, a2, names, Unify(q, a1, names, b).bindings).bindings;
      (Substitute(q, c) == a1 && Substitute(e, c) == a2) <==> (SameArity(q, a1, names) && SameArity(e, a2, names))
    decreases Result2(q, e), -1
  {
    var r := Unify(q, a1, names, b).bindings;
    var c := Unify(e, a2, names, r).bindings;
    Bound(q, a1, names, b);
    VarsGeneric(q, names);
    UnifySound(q, a1, names, b);
    Bound(e, a2, names, r);
    VarsGeneric(e, names);
    UnifySound(e, a2, names, r);
    if SameArity(q, a1, names) {
      SubstituteMore(q, names, r, c);
    } else if Substitute(q, c) == a1 {
      RebuiltArity(q, a1, names, c);
    }
  }

  lemma VarsGeneric(t: Type, names: set<string>)
    ensures Vars(t, names) <= names
    decreases t, 0
  {
    match t
    case Pointer(p) => VarsGeneric(p, names);
    case Slice(p) => VarsGeneric(p, names);
    case Vector(p) => VarsGeneric(p, names);
    case Optional(p) => VarsGeneric(p, names);
    case Result(p) => VarsGeneric(p, names);
    case Result2(p, e) =>
      VarsGeneric(p, names);
      VarsGeneric(e, names);
    case Tuple(es) => AllVarsGeneric(es, names);
    case _ =>
  }

  lemma AllVarsGeneric(ts: seq<Type>, names: set<string>)
    ensures AllVars(ts, names) <= names
    decreases ts, 1
  {
    if ts != [] {
      VarsGeneric(ts[0], names);
      AllVarsGeneric(ts[1..], names);
    }
  }

  /** What a substitution builds agrees with the pattern on the arity of results. */
  lemma {:induction false} RebuiltArity(p: Type, a: Type, names: set<string>, b: Bindings)
    requires Substitute(p, b) == a
    ensures SameArity(p, a, names)
    decreases p, 0
  {
    match p
    case Pointer(q) => RebuiltArity(q, a.to, names, b);
    case Slice(q) => RebuiltArity(q, a.of, names, b);
    case Vector(q) => RebuiltArity(q, a.of, names, b);
    case Optional(q) => RebuiltArity(q, a.of, names, b);
    case Result(q) => RebuiltArity(q, a.of, names, b);
    case Result2(q, e) =>
      RebuiltArity(q, a.of, names, b);
      RebuiltArity(e, a.error, names, b);
    case Tuple(ps) => if |ps| == |a.elements| { RebuiltArityAll(ps, a.elements, names, b); }
    case _ =>
  }

  lemma RebuiltArityAll(ps: seq<Type>, as_: seq<Type>, names: set<string>, b: Bindings)
    requires |ps| == |as_| && SubstituteAll(ps, b) == as_
    ensures AllSameArity(ps, as_, names)
    decreases ps, 1
  {
    if ps != [] {
      RebuiltArity(ps[0], as_[0], names, b);
      assert as_[1..] == SubstituteAll(ps[1..], b);
      RebuiltArityAll(ps[1..], as_[1..], names, b);
    }
  }

  lemma UnifySoundAll(ps: seq<Type>, as_: seq<Type>, names: set<string>, b: Bindings)
    requires |ps| == |as_| && b.Keys <= names && UnifyAll(ps, as_, names, b).ok
    ensures SubstituteAll(ps, UnifyAll(ps, as_, names, b).bindings) == as_ <==> AllSameArity(ps, as_, names)
    decreases ps, 1
  {
    if ps != [] {
      var r := Unify(ps[0], as_[0], names, b).bindings;
      var c := UnifyAll(ps, as_, names, b).bindings;
      Bound(ps[0], as_[0], names, b);
      VarsGeneric(ps[0], names);
      UnifySound(ps[0], as_[0], names, b);
      BoundAll(ps[1..], as_[1..], names, r);
      AllVarsGeneric(ps[1..], names);
      UnifySoundAll(ps[1..], as_[1..], names, r);
      var rest := SubstituteAll(ps[1..], c);
      assert SubstituteAll(ps, c) == [Substitute(ps[0], c)] + rest;
      assert as_ == [as_[0]] + as_[1..];
      assert SubstituteAll(ps, c) == as_ <==> Substitute(ps[0], c) == as_[0] && rest == as_[1..] by {
        assert SubstituteAll(ps, c)[1..] == rest;
      }
      if SameArity(ps[0], as_[0], names) {
        SubstituteMore(ps[0], names, r, c);
      } else if Substitute(ps[0], c) == as_[0] {
        RebuiltArity(ps[0], as_[0], names, c);
      }
    }
  }

  /** Completeness and minimality: if any substitution that extends the given
      bindings rebuilds the actual type, unification finds the part of it that
      the pattern uses. */
  lemma {:induction false} UnifyComplete(p: Type, a: Type, names: set<string>, b: Bindings, s: Bindings)
    requires s.Keys <= names && Extends(b, s) && Vars(p, names) <= s.Keys && Substitute(p, s) == a
    ensures var r := Unify(p, a, names, b);
      r.ok && Extends(r.bindings, s) && r.bindings.Keys == b.Keys + Vars(p, names)
    decreases p, 0
  {
    match p
    case Pointer(q) => UnifyComplete(q, a.to, names, b, s);
    case Slice(q) => UnifyComplete(q, a.of, names, b, s);
    case Vector(q) => UnifyComplete(q, a.of, names, b, s);
    case Optional(q) => UnifyComplete(q, a.of, names, b, s);
    case Result(q) => UnifyComplete(q, a.of, names, b, s);
    case Result2(q, e) =>
      UnifyComplete(q, a.of, names, b, s);
      UnifyComplete(e, a.error, names, Unify(q, a.of, names, b).bindings, s);
    case Tuple(ps) =>
      SubstituteLength(ps, s);
      UnifyCompleteAll(ps, a.elements, names, b, s);
    case _ =>
  }

  lemma {:induction false} SubstituteLength(ts: seq<Type>, b: Bindings)
    ensures |SubstituteAll(ts, b)| == |ts|
    decreases |ts|
  {
    if ts != [] { SubstituteLength(ts[1..], b); }
  }

  lemma UnifyCompleteAll(ps: seq<Type>, as_: seq<Type>, names: set<string>, b: Bindings, s: Bindings)
    requires |ps| == |as_|
    requires s.Keys <= names && Extends(b, s) && AllVars(ps, names) <= s.Keys && SubstituteAll(ps, s) == as_
    ensures var r := UnifyAll(ps, as_, names, b);
      r.ok && Extends(r.bindings, s) && r.bindings.Keys == b.Keys + AllVars(ps, names)
    decreases ps, 1
  {
    if ps != [] {
      UnifyComplete(ps[0], as_[0], names, b, s);
      assert as_[1..] == SubstituteAll(ps[1..], s);
      UnifyCompleteAll(ps[1..], as_[1..], names, Unify(ps[0], as_[0], names, b).bindings, s);
    }
  }

  /** Success exactly when the type is an instance of the pattern that extends the
      bindings, for results of equal arity. */
  lemma UnifyDecides(p: Type, a: Type, names: set<string>, b: Bindings)
    requires b.Keys <= names && SameArity(p, a, names)
    ensures Unify(p, a, names, b).ok <==> Instance(p, a, names, b)
  {
    var r := Unify(p, a, names, b);
    if r.ok {
      Bound(p, a, names, b);
      VarsGeneric(p, names);
      UnifySound(p, a, names, b);
    } else if Instance(p, a, names, b) {
      var s: Bindings :| s.Keys <= names && Extends(b, s) && Vars(p, names) <= s.Keys && Substitute(p, s) == a;
      UnifyComplete(p, a, names, b, s);
    }
  }

  ghost predicate Instance(p: Type, a: Type, names: set<string>, b: Bindings) {
    exists s: Bindings :: s.Keys <= names && Extends(b, s) && Vars(p, names) <= s.Keys && Substitute(p, s) == a
  }

  /** Unification with the bindings updated on the way, as the compiler does it. */
  class Unifier {
    var bindings: Bindings
    const names: set<string>

    constructor (names: set<string>)
      ensures this.names == names && bindings == map[]
    {
      this.names := names;
      bindings := map[];
    }

    method UnifyGenericPattern(p: Type, a: Type) returns (ok: bool)
      modifies this
      ensures Unified(ok, bindings) == Unify(p, a, names, old(bindings))
      decreases p, 0
    {
      if p.UserStruct? && p.name in names {
        if p.name in bindings { return bindings[p.name] == a; }
        bindings := bindings[p.name := a];
        return true;
      }
      ok := false;
      match p
      case Pointer(q) => if a.Pointer? { ok := UnifyGenericPattern(q, a.to); }
      case Slice(q) => if a.Slice? { ok := UnifyGenericPattern(q, a.of); }
      case Vector(q) => if a.Vector? { ok := UnifyGenericPattern(q, a.of); }
      case Optional(q) => if a.Optional? { ok := UnifyGenericPattern(q, a.of); }
      case Result(q) => if a.Result? || a.Result2? { ok := UnifyGenericPattern(q, a.of); }
      case Result2(q, e) =>
        if a.Result2? {
          ok := UnifyGenericPattern(q, a.of);
          if ok { ok := UnifyGenericPattern(e, a.error); }
        } else if a.Result? {
          ok := UnifyGenericPattern(q, a.of);
        }
      case Tuple(ps) => if a.Tuple? && |ps| == |a.elements| { ok := UnifyElements(ps, a.elements); }
      case _ => ok := p == a;
    }

    method UnifyElements(ps: seq<Type>, as_: seq<Type>) returns (ok: bool)
      requires |ps| == |as_|
      modifies this
      ensures Unified(ok, bindings) == UnifyAll(ps, as_, names, old(bindings))
      decreases ps, 1
    {
      hide Unify;
      for i := 0 to |ps|
        invariant UnifyAll(ps[i..], as_[i..], names, bindings) == UnifyAll(ps, as_, names, old(bindings))
      {
        assert ps[i..][1..] == ps[i + 1..] && as_[i..][1..] == as_[i + 1..];
        assert ps[i..][0] == ps[i] && as_[i..][0] == as_[i];
        ok := UnifyGenericPattern(ps[i], as_[i]);
        if !ok { return; }
      }
      return true;
    }
  }
}
