/** Generic functions are instantiated on demand: a worklist with a set of symbol
    names that have been asked for. A function is known by its path, an instance in the
    output by a symbol that is made of the path and the types. */
module Monomorph {
  import opened Types
  import opened Unification
  import TypeSpelling
  import Paths

  type Path = Paths.Path

  /** A call to a generic function with the types of its arguments, and the type that is
      expected of it where there is one, in terms of the type parameters of the caller. */
  datatype Call = Call(target: Path, args: seq<Type>, expected: Option<Type>)

  datatype Template = Template(generics: seq<string>, params: seq<Type>, result: Type, calls: seq<Call>)

  /** The generic functions, and of all other functions the paths and the calls to
      generic ones. */
  datatype Program = Program(templates: map<Path, Template>, ordinary: set<Path>, roots: seq<Call>)

  /** A generic function with a type for each of its parameters. */
  datatype Instance = Instance(target: Path, types: seq<Type>)

  function NameSet(names: seq<string>): set<string> {
    set n | n in names
  }

  /** What the expected type binds, as far as it fits the result. */
  function Primed(t: Template, expected: Option<Type>): Bindings {
    if expected.None? then map[] else Unify(t.result, expected.value, NameSet(t.generics), map[]).bindings
  }

  /** The types inferred for the parameters of the called function: the expected type
      first, then the arguments. */
  function Infer(t: Template, actuals: seq<Type>, expected: Option<Type>): Option<seq<Type>> {
    if |t.params| != |actuals| then None else
    var r := UnifyAll(t.params, actuals, NameSet(t.generics), Primed(t, expected));
    if !r.ok || !(forall n :: n in t.generics ==> n in r.bindings) then None
    else Some(seq(|t.generics|, i requires 0 <= i < |t.generics| => r.bindings[t.generics[i]]))
  }

  function BindingsOf(generics: seq<string>, types: seq<Type>): Bindings
    decreases |generics|
  {
    if generics == [] || types == [] then map[] else BindingsOf(generics[1..], types[1..])[generics[0] := types[0]]
  }

  /** The instance that a call asks for, inside a body with these bindings. */
  function Expand(prog: Program, c: Call, b: Bindings): Option<Instance> {
    if c.target !in prog.templates then None else
    var expected := if c.expected.Some? then Some(Substitute(c.expected.value, b)) else None;
    var types := Infer(prog.templates[c.target], SubstituteAll(c.args, b), expected);
    if types.None? then None else Some(Instance(c.target, types.value))
  }

  /** The calls in the body of an instance, and what binds the types in them. */
  function CallsOf(prog: Program, i: Instance): seq<Call> {
    if i.target in prog.templates then prog.templates[i.target].calls else []
  }

  function EnvOf(prog: Program, i: Instance): Bindings {
    if i.target in prog.templates then BindingsOf(prog.templates[i.target].generics, i.types) else map[]
  }

  predicate DistinctNames(names: seq<string>) {
    forall i, j :: 0 <= i < j < |names| ==> names[i] != names[j]
  }

  /** The arguments of the call have the types of the parameters in the instance it asks
      for, if results in them have as many arguments as in the template. */
  predicate Fits(prog: Program, c: Call, b: Bindings) {
    var e := Expand(prog, c, b);
    e.Some? ==>
      var t, actuals := prog.templates[c.target], SubstituteAll(c.args, b);
      && |t.params| == |actuals| && |e.value.types| == |t.generics|
      && (DistinctNames(t.generics) && AllSameArity(t.params, actuals, NameSet(t.generics)) ==>
            SubstituteAll(t.params, EnvOf(prog, e.value)) == actuals)
  }

  /** There is a chain of `k` calls from the ordinary functions to the instance. */
  ghost predicate Chain(prog: Program, i: Instance, k: nat)
    decreases k
  {
    if k == 0 then exists c :: c in prog.roots && Expand(prog, c, map[]) == Some(i)
    else exists j, c :: Chain(prog, j, k - 1) && c in CallsOf(prog, j) && Expand(prog, c, EnvOf(prog, j)) == Some(i)
  }

  ghost predicate Reachable(prog: Program, i: Instance) {
    exists k: nat :: Chain(prog, i, k)
  }

  // ---- symbol names ----

  function CleanChar(c: char): string {
    if c == '*' then "p"
    else if c == '(' || c == ')' then ""
    else if c == ',' || c == ' ' || c == '<' || c == '>' then "_"
    else [c]
  }

  function Clean(s: string): string {
    if s == "" then "" else CleanChar(s[0]) + Clean(s[1..])
  }

  function Suffix(types: seq<Type>): string {
    if types == [] then "" else "__" + (Clean(Format(types[0])) + Suffix(types[1..]))
  }

  function Symbol(i: Instance): string {
    Paths.Symbol(i.target) + Suffix(i.types)
  }

  /** No two instances that are reached share a symbol. */
  ghost predicate UniqueSymbols(prog: Program) {
    forall i, j :: Reachable(prog, i) && Reachable(prog, j) && Symbol(i) == Symbol(j) ==> i == j
  }

  function OrdinarySymbols(prog: Program): set<string> {
    set p | p in prog.ordinary :: Paths.Symbol(p)
  }

  /** No instance that is reached has the symbol of an ordinary function. */
  ghost predicate Unclashing(prog: Program) {
    forall i :: Reachable(prog, i) ==> Symbol(i) !in OrdinarySymbols(prog)
  }

  // ---- the worklist ----

  /** Every call of a body can be instantiated, and its symbol has been asked for. */
  predicate Asked(prog: Program, calls: seq<Call>, b: Bindings, done: set<string>) {
    forall k :: 0 <= k < |calls| ==> Expand(prog, calls[k], b).Some? && Symbol(Expand(prog, calls[k], b).value) in done
  }

  /** A set that contains all instances the roots ask for, and with an instance all
      that its body asks for. */
  predicate ClosedUnder(prog: Program, all: set<Instance>) {
    && (forall c :: c in prog.roots && Expand(prog, c, map[]).Some? ==> Expand(prog, c, map[]).value in all)
    && (forall j, c :: j in all && c in CallsOf(prog, j) && Expand(prog, c, EnvOf(prog, j)).Some? ==>
          Expand(prog, c, EnvOf(prog, j)).value in all)
  }

  /** The symbol in the call has one definition in the output, and that is the
      instance the call asks for. */
  predicate NamesOne(prog: Program, c: Call, b: Bindings, functions: seq<Instance>) {
    var i := Expand(prog, c, b);
    && i.Some? && Symbol(i.value) !in OrdinarySymbols(prog)
    && (exists k :: 0 <= k < |functions| && functions[k] == i.value)
    && (forall k, l :: 0 <= k < l < |functions| ==>
          !(Symbol(functions[k]) == Symbol(i.value) && Symbol(functions[l]) == Symbol(i.value)))
  }

  /** Every call in the output goes where it should. */
  ghost predicate CallsResolved(prog: Program, functions: seq<Instance>) {
    && (forall c :: c in prog.roots ==> NamesOne(prog, c, map[], functions))
    && (forall i, c :: i in functions && c in CallsOf(prog, i) ==> NamesOne(prog, c, EnvOf(prog, i), functions))
  }

  ghost predicate AllEmitted(prog: Program, functions: seq<Instance>) {
    forall i :: Reachable(prog, i) ==> i in functions
  }

  /** Some call that is reached cannot be instantiated. */
  ghost predicate Broken(prog: Program) {
    || (exists c :: c in prog.roots && Expand(prog, c, map[]).None?)
    || (exists j, c :: Reachable(prog, j) && c in CallsOf(prog, j) && Expand(prog, c, EnvOf(prog, j)).None?)
  }

  predicate DistinctSymbols(list: seq<Instance>) {
    forall i, j :: 0 <= i < j < |list| ==> Symbol(list[i]) != Symbol(list[j])
  }

  class Monomorphizer {
    const prog: Program
    var queue: seq<Instance>
    var done: set<string>
    var functions: seq<Instance>

    constructor (prog: Program)
      ensures this.prog == prog && queue == [] && done == {} && functions == []
    {
      this.prog := prog;
      queue, done, functions := [], {}, [];
    }

    ghost predicate Valid(all: set<Instance>)
      reads this
    {
      Consistent(prog, all, queue, functions, done)
    }

    /** Lowers a call: asks for the instance unless its symbol was asked for. */
    method LowerCall(c: Call, b: Bindings, ghost all: set<Instance>) returns (ok: bool)
      requires Valid(all)
      requires Expand(prog, c, b).Some? ==> Expand(prog, c, b).value in all && Reachable(prog, Expand(prog, c, b).value)
      modifies this
      ensures ok <==> Expand(prog, c, b).Some?
      ensures Valid(all) && functions == old(functions)
      ensures if !ok || Symbol(Expand(prog, c, b).value) in old(done) then done == old(done) && queue == old(queue)
              else
                && done == old(done) + {Symbol(Expand(prog, c, b).value)}
                && queue == old(queue) + [Expand(prog, c, b).value]
    {
      hide Reachable, Expand, Symbol;
      var i := Expand(prog, c, b);
      if i.None? { return false; }
      var name := Symbol(i.value);
      if name !in done {
        Adding(prog, all, queue, functions, done, i.value);
        done := done + {name};
        queue := queue + [i.value];
      }
      return true;
    }

    /** Lowers the calls of one body. */
    method LowerCalls(calls: seq<Call>, b: Bindings, ghost all: set<Instance>) returns (ok: bool)
      requires Valid(all)
      requires forall c :: c in calls && Expand(prog, c, b).Some? ==>
        Expand(prog, c, b).value in all && Reachable(prog, Expand(prog, c, b).value)
      modifies this
      ensures ok <==> forall c :: c in calls ==> Expand(prog, c, b).Some?
      ensures Valid(all) && functions == old(functions) && old(done) <= done
      ensures ok ==> Asked(prog, calls, b, done)
    {
      hide Reachable, Expand, Consistent, Symbol;
      for k := 0 to |calls|
        invariant Valid(all) && functions == old(functions) && old(done) <= done
        invariant Asked(prog, calls[..k], b, done)
      {
        ghost var before := done;
        ok := LowerCall(calls[k], b, all);
        if !ok { return; }
        assert calls[..k + 1] == calls[..k] + [calls[k]];
        AskedMore(prog, calls[..k], b, before, done);
      }
      assert calls[..|calls|] == calls;
      return true;
    }

    /** Lowers the roots and drains the queue. `all` is any finite set that the
        calls do not lead out of. */
    method Run(ghost all: set<Instance>) returns (ok: bool)
      requires queue == [] && done == {} && functions == []
      requires ClosedUnder(prog, all)
      modifies this
      ensures !ok ==> Broken(prog)
      ensures UniqueSymbols(prog) ==> (ok <==> !Broken(prog))
      ensures ok ==> queue == [] && DistinctSymbols(functions) && forall i :: i in functions ==> Reachable(prog, i)
      ensures ok ==> (AllEmitted(prog, functions) <==> UniqueSymbols(prog))
      ensures forall c, b :: Fits(prog, c, b)
      ensures ok ==> (CallsResolved(prog, functions) <==> UniqueSymbols(prog) && Unclashing(prog))
    {
      hide Expand, Asked, AllAsked, Consistent, SeenIn, Chain, Reachable, Broken, ClosedUnder, CallsOf, EnvOf, Symbol;
      hide UniqueSymbols, Unclashing, AllEmitted, CallsResolved, DistinctSymbols, Fits;
      Initially(prog, all);
      AllFit(prog);
      RootsReachable(prog, all);
      ok := LowerCalls(prog.roots, map[], all);
      if !ok {
        BrokenRoot(prog);
        return;
      }
      while queue != []
        invariant Valid(all) && Asked(prog, prog.roots, map[], done) && AllAsked(prog, functions, done)
        decreases all - SeenIn([], functions)
      {
        ghost var before := functions;
        var pending := queue[|queue| - 1];
        Popped(prog, all, queue, functions, done);
        CallsReachable(prog, all, pending);
        functions := functions + [pending];
        queue := queue[..|queue| - 1];
        ghost var asked := done;
        ok := LowerCalls(CallsOf(prog, pending), EnvOf(prog, pending), all);
        if !ok {
          BrokenBody(prog, pending);
          return;
        }
        AskedMore(prog, prog.roots, map[], asked, done);
        AllAskedMore(prog, before, pending, asked, done);
      }
      Finished(prog, all, functions, done);
      ok := true;
    }
  }

  // ---- inference ----

  lemma {:induction false} BindingsAre(generics: seq<string>, types: seq<Type>)
    requires |generics| == |types| && DistinctNames(generics)
    ensures var b := BindingsOf(generics, types);
      b.Keys == NameSet(generics) && forall i :: 0 <= i < |types| ==> b[generics[i]] == types[i]
    decreases |generics|
  {
    if generics != [] {
      var names, rest := generics[1..], types[1..];
      assert forall i :: 0 <= i < |names| ==> names[i] == generics[i + 1] && rest[i] == types[i + 1];
      BindingsAre(names, rest);
      assert NameSet(generics) == NameSet(names) + {generics[0]};
      var b := BindingsOf(generics, types);
      forall i | 0 <= i < |types| ensures b[generics[i]] == types[i] {
        if i > 0 { assert generics[i] == names[i - 1] && generics[0] != generics[i]; }
      }
    }
  }

  /** Every name is bound by the expected type or occurs in a parameter. */
  predicate Determined(t: Template, expected: Option<Type>) {
    NameSet(t.generics) <= Primed(t, expected).Keys + AllVars(t.params, NameSet(t.generics))
  }

  /** A list of types, one for each name in their order, with which the parameters have the
      types of the arguments, and that agrees with the expected type as far as that fits
      the result. */
  predicate Solves(t: Template, actuals: seq<Type>, expected: Option<Type>, types: seq<Type>) {
    && |types| == |t.generics| && SubstituteAll(t.params, BindingsOf(t.generics, types)) == actuals
    && Extends(Primed(t, expected), BindingsOf(t.generics, types))
  }

  /** Inference finds just the types that solve the call, and fails where some name is in
      no parameter and not bound by the expected type. */
  lemma InferDecides(t: Template, actuals: seq<Type>, expected: Option<Type>, types: seq<Type>)
    requires DistinctNames(t.generics) && |t.params| == |actuals|
    requires AllSameArity(t.params, actuals, NameSet(t.generics))
    ensures Infer(t, actuals, expected) == Some(types) <==>
      Solves(t, actuals, expected, types) && Determined(t, expected)
  {
    if Infer(t, actuals, expected) == Some(types) { InferSolves(t, actuals, expected, types); }
    if Solves(t, actuals, expected, types) && Determined(t, expected) { SolvesInfer(t, actuals, expected, types); }
  }

  lemma PrimedKeys(t: Template, expected: Option<Type>)
    ensures Primed(t, expected).Keys <= NameSet(t.generics)
  {
    var names := NameSet(t.generics);
    if expected.Some? {
      Bound(t.result, expected.value, names, map[]);
      VarsGeneric(t.result, names);
    }
  }

  lemma InferSolves(t: Template, actuals: seq<Type>, expected: Option<Type>, types: seq<Type>)
    requires DistinctNames(t.generics) && |t.params| == |actuals|
    requires AllSameArity(t.params, actuals, NameSet(t.generics))
    requires Infer(t, actuals, expected) == Some(types)
    ensures Solves(t, actuals, expected, types) && Determined(t, expected)
  {
    hide Primed, Unify, UnifyAll, Substitute, AllSameArity, AllVars;
    var names, b := NameSet(t.generics), Primed(t, expected);
    PrimedKeys(t, expected);
    var r := UnifyAll(t.params, actuals, names, b);
    BoundAll(t.params, actuals, names, b);
    AllVarsGeneric(t.params, names);
    UnifySoundAll(t.params, actuals, names, b);
    BindingsAre(t.generics, types);
    var s := BindingsOf(t.generics, types);
    assert r.bindings.Keys == names by {
      forall n | n in names ensures n in r.bindings {}
    }
    assert s == r.bindings by {
      forall n | n in names ensures s[n] == r.bindings[n] {
        var i :| 0 <= i < |t.generics| && t.generics[i] == n;
      }
    }
  }

  lemma SolvesInfer(t: Template, actuals: seq<Type>, expected: Option<Type>, types: seq<Type>)
    requires DistinctNames(t.generics) && |t.params| == |actuals|
    requires Solves(t, actuals, expected, types) && Determined(t, expected)
    ensures Infer(t, actuals, expected) == Some(types)
  {
    hide Primed, Unify, UnifyAll, Substitute, AllVars;
    var names, b := NameSet(t.generics), Primed(t, expected);
    var s := BindingsOf(t.generics, types);
    PrimedKeys(t, expected);
    BindingsAre(t.generics, types);
    AllVarsGeneric(t.params, names);
    UnifyCompleteAll(t.params, actuals, names, b, s);
    var r := UnifyAll(t.params, actuals, names, b);
    assert r.bindings.Keys == names;
    var inferred := seq(|t.generics|, i requires 0 <= i < |t.generics| => r.bindings[t.generics[i]]);
    forall i | 0 <= i < |types| ensures inferred[i] == types[i] {
      assert t.generics[i] in names && s[t.generics[i]] == types[i];
    }
    assert inferred == types;
  }

  /** A name that no parameter contains gets what the expected type says; if that fits the
      result, the result has the expected type. */
  lemma ExpectedDecides(t: Template, actuals: seq<Type>, expected: Option<Type>, types: seq<Type>, i: nat)
    requires DistinctNames(t.generics) && |t.params| == |actuals| && i < |t.generics|
    requires AllSameArity(t.params, actuals, NameSet(t.generics))
    requires Infer(t, actuals, expected) == Some(types)
    ensures t.generics[i] !in AllVars(t.params, NameSet(t.generics)) ==>
      expected.Some? && t.generics[i] in Primed(t, expected) && types[i] == Primed(t, expected)[t.generics[i]]
    ensures expected.Some? && SameArity(t.result, expected.value, NameSet(t.generics))
            && Unify(t.result, expected.value, NameSet(t.generics), map[]).ok
      ==> Substitute(t.result, BindingsOf(t.generics, types)) == expected.value
  {
    var names := NameSet(t.generics);
    InferSolves(t, actuals, expected, types);
    BindingsAre(t.generics, types);
    assert t.generics[i] in names;
    if expected.Some? && SameArity(t.result, expected.value, names)
       && Unify(t.result, expected.value, names, map[]).ok {
      UnifySound(t.result, expected.value, names, map[]);
      Bound(t.result, expected.value, names, map[]);
      SubstituteMore(t.result, names, Primed(t, expected), BindingsOf(t.generics, types));
    }
  }

  lemma AllFit(prog: Program)
    ensures forall c, b :: Fits(prog, c, b)
  {
    forall c, b ensures Fits(prog, c, b) { CallFits(prog, c, b); }
  }

  lemma CallFits(prog: Program, c: Call, b: Bindings)
    ensures Fits(prog, c, b)
  {
    var e := Expand(prog, c, b);
    if e.Some? {
      var t, actuals := prog.templates[c.target], SubstituteAll(c.args, b);
      var expected := if c.expected.Some? then Some(Substitute(c.expected.value, b)) else None;
      if DistinctNames(t.generics) && AllSameArity(t.params, actuals, NameSet(t.generics)) {
        InferSolves(t, actuals, expected, e.value.types);
      }
    }
  }

  ghost function SeenIn(queue: seq<Instance>, functions: seq<Instance>): set<Instance> {
    set i | i in queue + functions
  }

  /** Every symbol that was asked for belongs to one instance, waiting or emitted, and
      reachable; `all` bounds them. */
  ghost predicate Consistent(prog: Program, all: set<Instance>, queue: seq<Instance>, functions: seq<Instance>,
                             done: set<string>) {
    && DistinctSymbols(queue + functions)
    && (forall i :: i in SeenIn(queue, functions) ==> i in all && Reachable(prog, i))
    && (forall n :: n in done <==> exists i :: i in SeenIn(queue, functions) && Symbol(i) == n)
  }

  ghost predicate AllAsked(prog: Program, functions: seq<Instance>, done: set<string>) {
    forall i :: i in functions ==> Asked(prog, CallsOf(prog, i), EnvOf(prog, i), done)
  }

  lemma Initially(prog: Program, all: set<Instance>)
    ensures Consistent(prog, all, [], [], {}) && forall done :: AllAsked(prog, [], done)
  {
  }

  lemma Adding(prog: Program, all: set<Instance>, queue: seq<Instance>, functions: seq<Instance>, done: set<string>,
               i: Instance)
    requires Consistent(prog, all, queue, functions, done) && i in all && Reachable(prog, i) && Symbol(i) !in done
    ensures Consistent(prog, all, queue + [i], functions, done + {Symbol(i)})
  {
    hide Reachable, Symbol;
    var old_, new_ := queue + functions, queue + [i] + functions;
    assert forall x :: x in old_ ==> x in SeenIn(queue, functions);
    assert SeenIn(queue + [i], functions) == SeenIn(queue, functions) + {i};
    forall k, l | 0 <= k < l < |new_| ensures Symbol(new_[k]) != Symbol(new_[l]) {
      if k != |queue| { assert new_[k] == old_[if k < |queue| then k else k - 1]; }
      if l != |queue| { assert new_[l] == old_[if l < |queue| then l else l - 1]; }
    }
  }

  lemma AskedMore(prog: Program, calls: seq<Call>, b: Bindings, done: set<string>, done': set<string>)
    requires Asked(prog, calls, b, done) && done <= done'
    ensures Asked(prog, calls, b, done')
  {
    hide Expand, Symbol;
  }

  lemma AllAskedMore(prog: Program, functions: seq<Instance>, i: Instance, done: set<string>, done': set<string>)
    requires AllAsked(prog, functions, done) && done <= done' && Asked(prog, CallsOf(prog, i), EnvOf(prog, i), done')
    ensures AllAsked(prog, functions + [i], done')
  {
    hide Asked;
    forall j | j in functions ensures Asked(prog, CallsOf(prog, j), EnvOf(prog, j), done') {
      AskedMore(prog, CallsOf(prog, j), EnvOf(prog, j), done, done');
    }
  }

  /** The last waiting instance becomes a function. */
  lemma Popped(prog: Program, all: set<Instance>, queue: seq<Instance>, functions: seq<Instance>, done: set<string>)
    requires Consistent(prog, all, queue, functions, done) && queue != []
    ensures var i := queue[|queue| - 1];
      && Consistent(prog, all, queue[..|queue| - 1], functions + [i], done)
      && i in all && Reachable(prog, i)
      && all - SeenIn([], functions + [i]) < all - SeenIn([], functions)
  {
    hide Reachable, Symbol;
    var i, n := queue[|queue| - 1], |queue| - 1;
    var x, y := queue + functions, queue[..n] + (functions + [i]);
    assert x[n] == i && i in x;
    forall k, l | 0 <= k < l < |y| ensures Symbol(y[k]) != Symbol(y[l]) {
      assert y[k] == x[if k < n then k else k + 1];
      assert y[l] == if l == |y| - 1 then x[n] else x[if l < n then l else l + 1];
    }
    assert forall j :: j in y <==> j in x by {
      forall j | j in x ensures j in y {
        var k :| 0 <= k < |x| && x[k] == j;
        assert j == if k == n then y[|y| - 1] else y[if k < n then k else k - 1];
      }
    }
    assert SeenIn(queue[..n], functions + [i]) == SeenIn(queue, functions);
    forall k | 0 <= k < |functions| ensures functions[k] != i { assert x[|queue| + k] == functions[k]; }
    assert SeenIn([], functions + [i]) == SeenIn([], functions) + {i};
    assert i in all - SeenIn([], functions);
  }

  lemma RootsReachable(prog: Program, all: set<Instance>)
    requires ClosedUnder(prog, all)
    ensures forall c :: c in prog.roots && Expand(prog, c, map[]).Some? ==>
      Expand(prog, c, map[]).value in all && Reachable(prog, Expand(prog, c, map[]).value)
  {
    hide Expand;
    forall c | c in prog.roots && Expand(prog, c, map[]).Some? ensures Reachable(prog, Expand(prog, c, map[]).value) {
      assert Chain(prog, Expand(prog, c, map[]).value, 0);
    }
  }

  lemma CallsReachable(prog: Program, all: set<Instance>, i: Instance)
    requires ClosedUnder(prog, all) && i in all && Reachable(prog, i)
    ensures forall c :: c in CallsOf(prog, i) && Expand(prog, c, EnvOf(prog, i)).Some? ==>
      Expand(prog, c, EnvOf(prog, i)).value in all && Reachable(prog, Expand(prog, c, EnvOf(prog, i)).value)
  {
    hide Expand, CallsOf, EnvOf;
    var k: nat :| Chain(prog, i, k);
    forall c | c in CallsOf(prog, i) && Expand(prog, c, EnvOf(prog, i)).Some?
      ensures Reachable(prog, Expand(prog, c, EnvOf(prog, i)).value)
    {
      assert Chain(prog, Expand(prog, c, EnvOf(prog, i)).value, k + 1);
    }
  }

  lemma BrokenRoot(prog: Program)
    requires !forall c :: c in prog.roots ==> Expand(prog, c, map[]).Some?
    ensures Broken(prog)
  {
    hide Expand, Reachable;
  }

  lemma BrokenBody(prog: Program, i: Instance)
    requires Reachable(prog, i) && !forall c :: c in CallsOf(prog, i) ==> Expand(prog, c, EnvOf(prog, i)).Some?
    ensures Broken(prog)
  {
    hide Expand, Reachable;
  }

  // ---- what the output is worth ----

  /** If every call in the output goes where it should, every reachable instance is
      there and its symbol is not that of an ordinary function. */
  lemma {:induction false} ResolvedChain(prog: Program, functions: seq<Instance>, i: Instance, k: nat)
    requires CallsResolved(prog, functions) && Chain(prog, i, k)
    ensures i in functions && Symbol(i) !in OrdinarySymbols(prog)
    decreases k
  {
    hide Expand, CallsOf, EnvOf, Symbol;
    if k == 0 {
      var c :| c in prog.roots && Expand(prog, c, map[]) == Some(i);
      assert NamesOne(prog, c, map[], functions);
    } else {
      var j, c :| Chain(prog, j, k - 1) && c in CallsOf(prog, j) && Expand(prog, c, EnvOf(prog, j)) == Some(i);
      ResolvedChain(prog, functions, j, k - 1);
      assert NamesOne(prog, c, EnvOf(prog, j), functions);
    }
  }

  /** With unique symbols, whoever asks for an instance gets it. */
  lemma OwnSymbol(prog: Program, all: set<Instance>, functions: seq<Instance>, done: set<string>, i: Instance)
    requires Consistent(prog, all, [], functions, done) && UniqueSymbols(prog) && Reachable(prog, i)
    requires Symbol(i) in done
    ensures i in functions
  {
    hide Reachable, Symbol;
    assert [] + functions == functions;
    var j :| j in SeenIn([], functions) && Symbol(j) == Symbol(i);
    assert Reachable(prog, j);
  }

  lemma {:induction false} ChainsEnd(prog: Program, all: set<Instance>, functions: seq<Instance>, done: set<string>,
                                     i: Instance, k: nat)
    requires Consistent(prog, all, [], functions, done) && UniqueSymbols(prog) && Chain(prog, i, k)
    requires Asked(prog, prog.roots, map[], done) && AllAsked(prog, functions, done)
    ensures i in functions
    decreases k
  {
    hide Expand, CallsOf, EnvOf, Symbol, Consistent, UniqueSymbols;
    if k > 0 {
      var j, c :| Chain(prog, j, k - 1) && c in CallsOf(prog, j) && Expand(prog, c, EnvOf(prog, j)) == Some(i);
      ChainsEnd(prog, all, functions, done, j, k - 1);
      assert Asked(prog, CallsOf(prog, j), EnvOf(prog, j), done);
    }
    assert Reachable(prog, i);
    OwnSymbol(prog, all, functions, done, i);
  }

  lemma Finished(prog: Program, all: set<Instance>, functions: seq<Instance>, done: set<string>)
    requires Consistent(prog, all, [], functions, done)
    requires Asked(prog, prog.roots, map[], done) && AllAsked(prog, functions, done)
    ensures DistinctSymbols(functions) && forall i :: i in functions ==> Reachable(prog, i)
    ensures UniqueSymbols(prog) ==> !Broken(prog)
    ensures AllEmitted(prog, functions) <==> UniqueSymbols(prog)
    ensures CallsResolved(prog, functions) <==> UniqueSymbols(prog) && Unclashing(prog)
  {
    EmittedAre(prog, all, functions, done);
    hide *;
    if UniqueSymbols(prog) { EmitsAll(prog, all, functions, done); }
    if AllEmitted(prog, functions) { EmittedUnique(prog, functions); }
    if CallsResolved(prog, functions) { ResolvedAll(prog, functions); }
    if AllEmitted(prog, functions) && Unclashing(prog) { Resolves(prog, functions, done); }
    if AllEmitted(prog, functions) { NotBroken(prog, functions, done); }
  }

  lemma EmittedAre(prog: Program, all: set<Instance>, functions: seq<Instance>, done: set<string>)
    requires Consistent(prog, all, [], functions, done)
    ensures DistinctSymbols(functions) && forall i :: i in functions ==> Reachable(prog, i)
  {
    hide Reachable, Symbol;
    assert [] + functions == functions;
    assert forall i :: i in functions ==> i in SeenIn([], functions);
  }

  lemma EmitsAll(prog: Program, all: set<Instance>, functions: seq<Instance>, done: set<string>)
    requires Consistent(prog, all, [], functions, done) && UniqueSymbols(prog)
    requires Asked(prog, prog.roots, map[], done) && AllAsked(prog, functions, done)
    ensures AllEmitted(prog, functions)
  {
    hide Asked, AllAsked, Chain, Consistent, UniqueSymbols;
    forall i | Reachable(prog, i) ensures i in functions {
      var k: nat :| Chain(prog, i, k);
      ChainsEnd(prog, all, functions, done, i, k);
    }
  }

  lemma EmittedUnique(prog: Program, functions: seq<Instance>)
    requires DistinctSymbols(functions) && AllEmitted(prog, functions)
    ensures UniqueSymbols(prog)
  {
    hide Reachable, Symbol;
    forall i, j | Reachable(prog, i) && Reachable(prog, j) && Symbol(i) == Symbol(j) ensures i == j {
      var k :| 0 <= k < |functions| && functions[k] == i;
      var l :| 0 <= l < |functions| && functions[l] == j;
    }
  }

  lemma ResolvedAll(prog: Program, functions: seq<Instance>)
    requires CallsResolved(prog, functions)
    ensures AllEmitted(prog, functions) && Unclashing(prog)
  {
    hide CallsResolved, Chain, Symbol;
    forall i | Reachable(prog, i) ensures i in functions && Symbol(i) !in OrdinarySymbols(prog) {
      var k: nat :| Chain(prog, i, k);
      ResolvedChain(prog, functions, i, k);
    }
  }

  lemma Resolves(prog: Program, functions: seq<Instance>, done: set<string>)
    requires DistinctSymbols(functions) && AllEmitted(prog, functions) && Unclashing(prog)
    requires forall i :: i in functions ==> Reachable(prog, i)
    requires Asked(prog, prog.roots, map[], done) && AllAsked(prog, functions, done)
    ensures CallsResolved(prog, functions)
  {
    hide Expand, CallsOf, EnvOf, Symbol, Chain, NamesOne, Reachable, DistinctSymbols, AllEmitted, Unclashing, Asked;
    forall c | c in prog.roots ensures NamesOne(prog, c, map[], functions) {
      AskedOne(prog, prog.roots, map[], done, c);
      ReachedByRoot(prog, c);
      NamesAsked(prog, functions, c, map[]);
    }
    forall i, c | i in functions && c in CallsOf(prog, i) ensures NamesOne(prog, c, EnvOf(prog, i), functions) {
      AskedOne(prog, CallsOf(prog, i), EnvOf(prog, i), done, c);
      ReachedByCall(prog, i, c);
      NamesAsked(prog, functions, c, EnvOf(prog, i));
    }
  }

  lemma AskedOne(prog: Program, calls: seq<Call>, b: Bindings, done: set<string>, c: Call)
    requires Asked(prog, calls, b, done) && c in calls
    ensures Expand(prog, c, b).Some?
  {
    hide Expand, Symbol;
  }

  lemma ReachedByRoot(prog: Program, c: Call)
    requires c in prog.roots && Expand(prog, c, map[]).Some?
    ensures Reachable(prog, Expand(prog, c, map[]).value)
  {
    hide Expand;
    assert Chain(prog, Expand(prog, c, map[]).value, 0);
  }

  lemma ReachedByCall(prog: Program, i: Instance, c: Call)
    requires Reachable(prog, i) && c in CallsOf(prog, i) && Expand(prog, c, EnvOf(prog, i)).Some?
    ensures Reachable(prog, Expand(prog, c, EnvOf(prog, i)).value)
  {
    hide Expand, CallsOf, EnvOf;
    var k: nat :| Chain(prog, i, k);
    assert Chain(prog, Expand(prog, c, EnvOf(prog, i)).value, k + 1);
  }

  lemma NamesAsked(prog: Program, functions: seq<Instance>, c: Call, b: Bindings)
    requires Expand(prog, c, b).Some? && Reachable(prog, Expand(prog, c, b).value)
    requires DistinctSymbols(functions) && AllEmitted(prog, functions) && Unclashing(prog)
    ensures NamesOne(prog, c, b, functions)
  {
    hide Expand, Symbol, Reachable;
  }

  lemma NotBroken(prog: Program, functions: seq<Instance>, done: set<string>)
    requires AllEmitted(prog, functions) && Asked(prog, prog.roots, map[], done) && AllAsked(prog, functions, done)
    ensures !Broken(prog)
  {
    hide Expand, CallsOf, EnvOf, Symbol, Reachable, Asked;
    forall c | c in prog.roots ensures Expand(prog, c, map[]).Some? { AskedOne(prog, prog.roots, map[], done, c); }
    forall j, c | Reachable(prog, j) && c in CallsOf(prog, j) ensures Expand(prog, c, EnvOf(prog, j)).Some? {
      AskedOne(prog, CallsOf(prog, j), EnvOf(prog, j), done, c);
    }
  }

  // ---- when symbols are unique ----

  /** Scalars and pointers to them. */
  predicate Plain(t: Type) {
    match t
    case Int(_, _) => Valid(t)
    case Pointer(p) => Plain(p)
    case Bool => true
    case Char => true
    case Str => true
    case OwnedStr => true
    case _ => false
  }

  /** Not empty, no underscore at either end, no two in a row. */
  predicate Tidy(w: string) {
    w != "" && w[0] != '_' && w[|w| - 1] != '_' && forall i :: 0 <= i < |w| - 1 ==> !(w[i] == '_' && w[i + 1] == '_')
  }

  function Tail(ws: seq<string>): string {
    if ws == [] then "" else "__" + (ws[0] + Tail(ws[1..]))
  }

  function Words(types: seq<Type>): seq<string> {
    if types == [] then [] else [Clean(Format(types[0]))] + Words(types[1..])
  }

  lemma {:induction false} SuffixWords(types: seq<Type>)
    ensures Suffix(types) == Tail(Words(types)) && |Words(types)| == |types|
    decreases |types|
  {
    if types != [] { SuffixWords(types[1..]); }
  }

  lemma CleanCons(c: char, s: string)
    ensures Clean([c] + s) == CleanChar(c) + Clean(s)
  {
    assert ([c] + s)[1..] == s;
  }

  predicate Kept(c: char) {
    'a' <= c <= 'z' || '0' <= c <= '9' || c == '_'
  }

  lemma {:induction false} CleanSame(s: string)
    requires forall i :: 0 <= i < |s| ==> Kept(s[i])
    ensures Clean(s) == s
    decreases |s|
  {
    if s != "" {
      CleanSame(s[1..]);
      assert s == [s[0]] + s[1..];
    }
  }

  lemma TidyWord(w: string)
    requires w != "" && forall i :: 0 <= i < |w| ==> w[i] != '_'
    ensures Tidy(w)
  {
  }

  /** Scalars keep their spelling. */
  lemma ScalarWord(t: Type)
    requires Plain(t) && !t.Pointer?
    ensures Clean(Format(t)) == Format(t) && Format(t)[0] != 'p' && Tidy(Format(t))
  {
    hide Clean, Tidy;
    if t.Int? {
      IntWord(t);
    } else if t.OwnedStr? {
      OwnedStrWord();
    } else {
      NamedWord(t);
    }
  }

  lemma IntWord(t: Type)
    requires t.Int? && Valid(t)
    ensures Clean(Format(t)) == Format(t) && Format(t)[0] != 'p' && Tidy(Format(t))
  {
    var first, digits := if t.signed then 'i' else 'u', Digits(t.bits);
    assert Format(t) == [first] + digits;
    assert forall i :: 0 <= i < |digits| ==> '0' <= digits[i] <= '9';
    hide Digits, Format;
    CleanSame([first] + digits);
    TidyWord([first] + digits);
  }

  lemma NamedWord(t: Type)
    requires t.Bool? || t.Char? || t.Str?
    ensures Clean(Format(t)) == Format(t) && Format(t)[0] != 'p' && Tidy(Format(t))
  {
    var f := Format(t);
    assert |f| <= 4 && Kept(f[0]) && Kept(f[1]) && Kept(f[2]) && (|f| == 4 ==> Kept(f[3]));
    assert f[0] != '_' && f[1] != '_' && f[2] != '_' && (|f| == 4 ==> f[3] != '_');
    hide Format, Kept;
    CleanSame(f);
    TidyWord(f);
  }

  lemma OwnedStrWord()
    ensures Clean("owned_str") == "owned_str" && Tidy("owned_str")
  {
    var f := "owned_str";
    assert f[0] == 'o' && f[1] == 'w' && f[2] == 'n' && f[3] == 'e' && f[4] == 'd' && f[5] == '_';
    assert f[6] == 's' && f[7] == 't' && f[8] == 'r' && |f| == 9;
    NineLetters(f);
  }

  lemma NineLetters(f: string)
    requires |f| == 9 && f[0] == 'o' && f[1] == 'w' && f[2] == 'n' && f[3] == 'e' && f[4] == 'd' && f[5] == '_'
    requires f[6] == 's' && f[7] == 't' && f[8] == 'r'
    ensures Clean(f) == f && Tidy(f)
  {
    hide Clean;
    CleanSame(f);
  }

  /** Pointers become leading `p`s. */
  lemma {:induction false} PlainWord(t: Type)
    requires Plain(t)
    ensures Tidy(Clean(Format(t))) && (t.Pointer? <==> Clean(Format(t))[0] == 'p')
    ensures t.Pointer? ==> Clean(Format(t)) == ['p'] + Clean(Format(t.to))
  {
    hide Clean;
    if t.Pointer? {
      PlainWord(t.to);
      CleanCons('*', Format(t.to));
      assert "*" + Format(t.to) == ['*'] + Format(t.to);
    } else {
      ScalarWord(t);
    }
  }

  lemma {:induction false} PlainSpelled(t: Type)
    requires Plain(t)
    ensures TypeSpelling.Spelled(t)
  {
    if t.Pointer? { PlainSpelled(t.to); }
  }

  lemma {:induction false} WordInjective(t: Type, u: Type)
    requires Plain(t) && Plain(u) && Clean(Format(t)) == Clean(Format(u))
    ensures t == u
  {
    hide Clean, Format;
    PlainWord(t);
    PlainWord(u);
    if t.Pointer? {
      assert (['p'] + Clean(Format(t.to)))[1..] == Clean(Format(t.to));
      assert (['p'] + Clean(Format(u.to)))[1..] == Clean(Format(u.to));
      WordInjective(t.to, u.to);
    } else {
      ScalarWord(t);
      ScalarWord(u);
      PlainSpelled(t);
      PlainSpelled(u);
      TypeSpelling.FormatParse(t);
      TypeSpelling.FormatParse(u);
    }
  }

  /** Two words with what follows them are told apart by the double underscore. */
  lemma FirstWord(w: string, r: seq<string>, v: string, q: seq<string>)
    requires Tidy(w) && Tidy(v) && w + Tail(r) == v + Tail(q)
    ensures |w| >= |v|
  {
    var x, y := w + Tail(r), v + Tail(q);
    assert Tail(r) != "" ==> x[|w|] == '_' && x[|w| + 1] == '_';
    assert forall i :: 0 <= i < |v| ==> y[i] == v[i];
  }

  lemma {:induction false} TailInjective(w: string, r: seq<string>, v: string, q: seq<string>)
    requires Tidy(w) && Tidy(v) && (forall x :: x in r ==> Tidy(x)) && (forall x :: x in q ==> Tidy(x))
    requires w + Tail(r) == v + Tail(q)
    ensures w == v && r == q
    decreases |r|
  {
    FirstWord(w, r, v, q);
    FirstWord(v, q, w, r);
    var x := w + Tail(r);
    assert x[..|w|] == w && x[..|v|] == v && x[|w|..] == Tail(r) && x[|v|..] == Tail(q);
    if r != [] && q != [] {
      assert Tail(r)[2..] == r[0] + Tail(r[1..]) && Tail(q)[2..] == q[0] + Tail(q[1..]);
      TailInjective(r[0], r[1..], q[0], q[1..]);
      assert r == [r[0]] + r[1..] && q == [q[0]] + q[1..];
    }
  }

  predicate AllPlain(types: seq<Type>) {
    forall i :: 0 <= i < |types| ==> Plain(types[i])
  }

  lemma {:induction false} WordsTidy(types: seq<Type>)
    requires AllPlain(types)
    ensures forall w :: w in Words(types) ==> Tidy(w)
    decreases |types|
  {
    if types != [] {
      PlainWord(types[0]);
      WordsTidy(types[1..]);
    }
  }

  lemma {:induction false} WordsInjective(ts: seq<Type>, us: seq<Type>)
    requires AllPlain(ts) && AllPlain(us) && Words(ts) == Words(us)
    ensures ts == us
    decreases |ts|
  {
    hide Clean, Format;
    if ts != [] && us != [] {
      assert Words(ts)[0] == Clean(Format(ts[0])) && Words(us)[0] == Clean(Format(us[0]));
      WordInjective(ts[0], us[0]);
      assert Words(ts)[1..] == Words(ts[1..]) && Words(us)[1..] == Words(us[1..]);
      WordsInjective(ts[1..], us[1..]);
      assert ts == [ts[0]] + ts[1..] && us == [us[0]] + us[1..];
    }
  }

  /** Two functions that are reached, and whose paths have one symbol, are one. */
  ghost predicate PathsApart(prog: Program) {
    forall i, j ::
      (Reachable(prog, i) && Reachable(prog, j) && i.types == j.types
       && Paths.Symbol(i.target) == Paths.Symbol(j.target)) ==> i.target == j.target
  }

  /** Where all instances are at scalars and pointers to them, and no function has a
      double underscore in its symbol, types are told apart. Then symbols are unique if
      and only if those of the paths are, and no ordinary function is in the way. */
  lemma SymbolsAreUnique(prog: Program)
    requires forall i :: Reachable(prog, i) ==> Tidy(Paths.Symbol(i.target)) && AllPlain(i.types) && i.types != []
    requires forall p :: p in prog.ordinary ==> Tidy(Paths.Symbol(p))
    ensures UniqueSymbols(prog) <==> PathsApart(prog)
    ensures Unclashing(prog)
  {
    hide Reachable, Tidy, AllPlain, Symbol, Paths.Symbol;
    if PathsApart(prog) {
      forall i, j | Reachable(prog, i) && Reachable(prog, j) && Symbol(i) == Symbol(j) ensures i == j {
        SameInstance(i, j);
      }
    } else {
      var i, j :| Reachable(prog, i) && Reachable(prog, j) && i.types == j.types
                  && Paths.Symbol(i.target) == Paths.Symbol(j.target) && i.target != j.target;
      SymbolParts(i, j);
    }
    forall i | Reachable(prog, i) ensures Symbol(i) !in OrdinarySymbols(prog) {
      NotTidy(i);
    }
  }

  lemma SymbolParts(i: Instance, j: Instance)
    requires Paths.Symbol(i.target) == Paths.Symbol(j.target) && i.types == j.types
    ensures Symbol(i) == Symbol(j)
  {
  }

  /** Segments without underscores see to that. */
  lemma PlainPathsApart(prog: Program)
    requires forall i :: Reachable(prog, i) ==> i.target != [] && Paths.Free(i.target, '_')
    ensures PathsApart(prog)
  {
    hide Reachable, Paths.Symbol;
    forall i, j | Reachable(prog, i) && Reachable(prog, j) && Paths.Symbol(i.target) == Paths.Symbol(j.target)
      ensures i.target == j.target
    {
      Paths.SymbolInjective(i.target, j.target);
    }
  }

  lemma SameInstance(i: Instance, j: Instance)
    requires Tidy(Paths.Symbol(i.target)) && AllPlain(i.types) && Tidy(Paths.Symbol(j.target)) && AllPlain(j.types)
    requires Symbol(i) == Symbol(j)
    ensures Paths.Symbol(i.target) == Paths.Symbol(j.target) && i.types == j.types
  {
    SuffixWords(i.types);
    SuffixWords(j.types);
    WordsTidy(i.types);
    WordsTidy(j.types);
    TailInjective(Paths.Symbol(i.target), Words(i.types), Paths.Symbol(j.target), Words(j.types));
    WordsInjective(i.types, j.types);
  }

  lemma NotTidy(i: Instance)
    requires i.types != []
    ensures !Tidy(Symbol(i))
  {
    hide Clean, Format;
    var s, n := Symbol(i), |Paths.Symbol(i.target)|;
    assert s[n] == '_' && s[n + 1] == '_';
    assert n + 1 == |s| - 1 ==> s[|s| - 1] == '_';
  }

  // ---- where they are not ----

  function Generic(): Template {
    Template(["T"], [UserStruct("T")], UserStruct("T"), [])
  }

  /** Generic functions of one parameter, and calls of them at these types. */
  function Calling(targets: seq<Path>, types: seq<Type>, ordinary: set<Path>): Program
    requires |targets| == |types|
  {
    Program(map p | p in targets :: Generic(), ordinary,
            seq(|types|, i requires 0 <= i < |types| => Call(targets[i], [types[i]], None)))
  }

  /** A type without parameters is what the call infers for `T`. */
  lemma AtType(targets: seq<Path>, types: seq<Type>, ordinary: set<Path>, i: nat)
    requires i < |types| == |targets| && Substitute(types[i], map[]) == types[i]
    ensures Reachable(Calling(targets, types, ordinary), Instance(targets[i], [types[i]]))
  {
    hide Substitute;
    var prog, t := Calling(targets, types, ordinary), types[i];
    var c, f := prog.roots[i], Generic();
    assert c in prog.roots && prog.templates[c.target] == f;
    OneUnified(t, NameSet(f.generics));
    assert SubstituteAll(c.args, map[]) == [t] by { assert [t][1..] == []; }
    assert "T" in NameSet(f.generics) by { assert f.generics[0] == "T"; }
    var r := UnifyAll(f.params, [t], NameSet(f.generics), map[]);
    assert seq(|f.generics|, k requires 0 <= k < |f.generics| => r.bindings[f.generics[k]]) == [t];
    assert Infer(f, [t], None) == Some([t]);
    assert Chain(prog, Instance(c.target, [t]), 0) by {
      assert Expand(prog, c, map[]) == Some(Instance(c.target, [t]));
    }
  }

  lemma OneUnified(t: Type, names: set<string>)
    requires "T" in names
    ensures UnifyAll([UserStruct("T")], [t], names, map[]) == Unified(true, map["T" := t])
  {
    assert [UserStruct("T")][1..] == [] && [t][1..] == [];
  }

  lemma OneSuffix(p: Path, t: Type)
    ensures Symbol(Instance(p, [t])) == Paths.Symbol(p) + ("__" + (Clean(Format(t)) + ""))
  {
    hide Clean, Format, Paths.Symbol;
    assert [t][1..] == [];
    assert Suffix([t]) == "__" + (Clean(Format(t)) + Suffix([]));
  }

  /** A pointer and a struct can leave the same symbol. */
  lemma SymbolsCollide()
    ensures !UniqueSymbols(Calling([["f"], ["f"]], [Pointer(Int(true, 32)), UserStruct("pi32")], {}))
  {
    var p, u, f: Path := Pointer(Int(true, 32)), UserStruct("pi32"), ["f"];
    AtType([f, f], [p, u], {}, 0);
    AtType([f, f], [p, u], {}, 1);
    CollidingWords(p, u);
    OneSuffix(f, p);
    OneSuffix(f, u);
    assert [p][0] != [u][0];
    hide Symbol, Reachable, UniqueSymbols, Clean, Format;
    NotUnique(Calling([f, f], [p, u], {}), Instance(f, [p]), Instance(f, [u]));
  }

  /** So can a function `f` in a module `a` and a function `a_f`, at one type: the second
      is never emitted, and its calls run the first. */
  lemma PathsCollide()
    ensures var prog := Calling([["a", "f"], ["a_f"]], [Int(true, 32), Int(true, 32)], {});
      !UniqueSymbols(prog) && !PathsApart(prog)
  {
    var t, p, q: Path := Int(true, 32), ["a", "f"], ["a_f"];
    var prog := Calling([p, q], [t, t], {});
    AtType([p, q], [t, t], {}, 0);
    AtType([p, q], [t, t], {}, 1);
    assert Paths.Symbol(p) == Paths.Symbol(q) by {
      assert p[1..] == ["f"];
      assert Paths.Symbol(p) == "a" + ("_" + "f");
    }
    assert |p| != |q|;
    OneSuffix(p, t);
    OneSuffix(q, t);
    hide Symbol, Reachable, UniqueSymbols, Clean, Format, Calling;
    assert Instance(p, [t]).target != Instance(q, [t]).target;
    NotUnique(prog, Instance(p, [t]), Instance(q, [t]));
  }

  lemma NotUnique(prog: Program, i: Instance, j: Instance)
    requires Reachable(prog, i) && Reachable(prog, j) && Symbol(i) == Symbol(j) && i != j
    ensures !UniqueSymbols(prog)
  {
    hide Symbol, Reachable;
  }

  /** An ordinary function can have the name of an instance. */
  lemma OrdinaryNameTaken()
    ensures !Unclashing(Calling([["f"]], [Int(true, 32)], {["f__i32"]}))
  {
    var t, f, taken: Path := Int(true, 32), ["f"], ["f__i32"];
    var prog := Calling([f], [t], {taken});
    AtType([f], [t], {taken}, 0);
    SymbolAtI32();
    assert Paths.Symbol(taken) == "f__i32";
    hide Reachable, Symbol;
    assert taken in prog.ordinary && Paths.Symbol(taken) in OrdinarySymbols(prog);
    assert Reachable(prog, Instance(f, [t]));
  }

  lemma SymbolAtI32()
    ensures Symbol(Instance(["f"], [Int(true, 32)])) == "f__i32"
  {
    var t := Int(true, 32);
    OneSuffix(["f"], t);
    ScalarWord(t);
    assert Format(t) == "i32";
    hide Symbol, Clean, Format;
    assert "f" + ("__" + ("i32" + "")) == "f__i32";
  }

  /** Types are mangled in the order of the parameters they belong to. */
  lemma PairAt()
    ensures var t := Template(["A", "B"], [UserStruct("A"), UserStruct("B")], Bool, []);
      && Infer(t, [Int(true, 32), Bool], None) == Some([Int(true, 32), Bool])
      && Symbol(Instance(["pair"], [Int(true, 32), Bool])) == "pair__i32__bool"
  {
    hide Infer, Symbol;
    PairInferred(Int(true, 32), Bool);
    PairSymbol();
  }

  lemma PairInferred(a: Type, b: Type)
    requires a.Int? && b.Bool?
    ensures Infer(Template(["A", "B"], [UserStruct("A"), UserStruct("B")], Bool, []), [a, b], None) == Some([a, b])
  {
    var names := ["A", "B"];
    var t := Template(names, [UserStruct("A"), UserStruct("B")], Bool, []);
    PairBindings(a, b);
    assert t.params[1..] == [UserStruct("B")] && [a, b][1..] == [b] && NameSet(names) == {"A", "B"};
    InferDecides(t, [a, b], None, [a, b]);
  }

  lemma PairSymbol()
    ensures Symbol(Instance(["pair"], [Int(true, 32), Bool])) == "pair__i32__bool"
  {
    var a, b := Int(true, 32), Bool;
    ScalarWord(a);
    ScalarWord(b);
    assert Format(a) == "i32" && Format(b) == "bool";
    hide Clean, Format;
    assert Suffix([b]) == "__" + ("bool" + "") by { assert [b][1..] == []; }
    assert Suffix([a, b]) == "__" + ("i32" + Suffix([b]));
    assert Paths.Symbol(["pair"]) == "pair";
  }

  lemma PairBindings(a: Type, b: Type)
    ensures BindingsOf(["A", "B"], [a, b]) == map["A" := a, "B" := b]
  {
    assert ["A", "B"][1..] == ["B"] && [a, b][1..] == [b] && ["B"][1..] == [];
    assert BindingsOf(["B"], [b]) == map["B" := b];
  }

  lemma CollidingWords(p: Type, u: Type)
    requires p == Pointer(Int(true, 32)) && u == UserStruct("pi32")
    ensures Clean(Format(p)) == Clean(Format(u))
  {
    hide Clean;
    ScalarWord(p.to);
    CleanCons('*', Format(p.to));
    CleanSame("pi32");
    assert Format(p.to) == "i32";
    assert Format(p) == ['*'] + Format(p.to);
  }
}
