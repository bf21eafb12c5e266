/** The i386 frame builder: one pass over the statements hands out the slots that
    the emitter later looks up by node. */
module FrameI386 {
  import opened Ir
  import opened EmitI386

  /** Slots by node: of `let` statements and of match scrutinees. */
  datatype Slots = Slots(lets: map<nat, int>, matches: map<nat, int>)

  /** The identities of the nodes in a statement that own a slot. */
  function Ids(s: Stmt): set<nat>
    decreases s, 1
  {
    match s
    case Let(id, _, _) => {id}
    case If(_, a, b) => IdsAll(a) + IdsAll(b)
    case While(_, body) => IdsAll(body)
    case For(init, _, step, body) => Ids(init) + IdsAll(body) + Ids(step)
    case Match(id, _, arms) => {id} + IdsArms(arms)
    case _ => {}
  }

  function IdsAll(body: seq<Stmt>): set<nat>
    decreases body, 0
  {
    if body == [] then {} else Ids(body[0]) + IdsAll(body[1..])
  }

  function IdsArms(arms: seq<Arm>): set<nat>
    decreases arms, 0
  {
    if arms == [] then {} else IdsAll(arms[0].body) + IdsArms(arms[1..])
  }

  /** Every node has its own identity. */
  predicate Distinct(s: Stmt)
    decreases s, 1
  {
    match s
    case If(_, a, b) => DistinctAll(a) && DistinctAll(b) && IdsAll(a) !! IdsAll(b)
    case While(_, body) => DistinctAll(body)
    case For(init, _, step, body) =>
      && Distinct(init) && DistinctAll(body) && Distinct(step)
      && Ids(init) !! IdsAll(body) && Ids(init) !! Ids(step) && IdsAll(body) !! Ids(step)
    case Match(id, _, arms) => DistinctArms(arms) && id !in IdsArms(arms)
    case _ => true
  }

  predicate DistinctAll(body: seq<Stmt>)
    decreases body, 0
  {
    body == [] || (Distinct(body[0]) && DistinctAll(body[1..]) && Ids(body[0]) !! IdsAll(body[1..]))
  }

  predicate DistinctArms(arms: seq<Arm>)
    decreases arms, 0
  {
    arms == [] || (DistinctAll(arms[0].body) && DistinctArms(arms[1..]) && IdsAll(arms[0].body) !! IdsArms(arms[1..]))
  }

  /** The slots are those that the emitter hands out in the order of emission,
      `k` being used already. */
  predicate Agrees(s: Stmt, f: Slots, k: nat)
    decreases s, 1
  {
    match s
    case Let(id, _, _) => id in f.lets && f.lets[id] == NextSlot(k)
    case If(_, a, b) => AgreesAll(a, f, k) && AgreesAll(b, f, k + CountAll(a))
    case While(_, body) => AgreesAll(body, f, k)
    case For(init, _, step, body) =>
      Agrees(init, f, k) && AgreesAll(body, f, k + Count(init)) && Agrees(step, f, k + Count(init) + CountAll(body))
    case Match(id, _, arms) => id in f.matches && f.matches[id] == NextSlot(k) && AgreesArms(arms, f, k + 1)
    case _ => true
  }

  predicate AgreesAll(body: seq<Stmt>, f: Slots, k: nat)
    decreases body, 0
  {
    body == [] || (Agrees(body[0], f, k) && AgreesAll(body[1..], f, k + Count(body[0])))
  }

  predicate AgreesArms(arms: seq<Arm>, f: Slots, k: nat)
    decreases arms, 0
  {
    arms == [] || (AgreesAll(arms[0].body, f, k) && AgreesArms(arms[1..], f, k + CountAll(arms[0].body)))
  }

  /** The two frames give the same slots to the nodes in `ids`. */
  predicate SameOn(ids: set<nat>, f: Slots, f': Slots) {
    forall i :: i in ids ==>
      && (i in f.lets ==> i in f'.lets && f'.lets[i] == f.lets[i])
      && (i in f.matches ==> i in f'.matches && f'.matches[i] == f.matches[i])
  }

  lemma {:induction false} StillAgrees(s: Stmt, f: Slots, f': Slots, k: nat)
    requires Agrees(s, f, k) && SameOn(Ids(s), f, f')
    ensures Agrees(s, f', k)
    decreases s, 1
  {
    match s
    case If(_, a, b) =>
      StillAgreesAll(a, f, f', k);
      StillAgreesAll(b, f, f', k + CountAll(a));
    case While(_, body) => StillAgreesAll(body, f, f', k);
    case For(init, _, step, body) =>
      StillAgrees(init, f, f', k);
      StillAgreesAll(body, f, f', k + Count(init));
      StillAgrees(step, f, f', k + Count(init) + CountAll(body));
    case Match(_, _, arms) => StillAgreesArms(arms, f, f', k + 1);
    case _ =>
  }

  lemma StillAgreesAll(body: seq<Stmt>, f: Slots, f': Slots, k: nat)
    requires AgreesAll(body, f, k) && SameOn(IdsAll(body), f, f')
    ensures AgreesAll(body, f', k)
    decreases body, 0
  {
    if body != [] {
      StillAgrees(body[0], f, f', k);
      StillAgreesAll(body[1..], f, f', k + Count(body[0]));
    }
  }

  lemma StillAgreesArms(arms: seq<Arm>, f: Slots, f': Slots, k: nat)
    requires AgreesArms(arms, f, k) && SameOn(IdsArms(arms), f, f')
    ensures AgreesArms(arms, f', k)
    decreases arms, 0
  {
    if arms != [] {
      StillAgreesAll(arms[0].body, f, f', k);
      StillAgreesArms(arms[1..], f, f', k + CountAll(arms[0].body));
    }
  }

  /** Only the nodes in `ids` got a new slot. */
  ghost predicate OnlyAdds(ids: set<nat>, f: Slots, f': Slots) {
    && (forall i :: i !in ids ==> (i in f.lets <==> i in f'.lets) && (i in f.lets ==> f'.lets[i] == f.lets[i]))
    && (forall i :: i !in ids ==> (i in f.matches <==> i in f'.matches))
    && (forall i :: i !in ids && i in f.matches ==> f'.matches[i] == f.matches[i])
  }

  lemma OnlyAddsSame(ids: set<nat>, others: set<nat>, f: Slots, f': Slots)
    requires OnlyAdds(ids, f, f') && ids !! others
    ensures SameOn(others, f, f')
  {
  }

  lemma OnlyAddsBoth(a: set<nat>, b: set<nat>, f: Slots, g: Slots, h: Slots)
    requires OnlyAdds(a, f, g) && OnlyAdds(b, g, h)
    ensures OnlyAdds(a + b, f, h)
  {
  }

  class FrameBuilder {
    var lets: map<nat, int>
    var matches: map<nat, int>
    var localIndex: nat

    ghost function Frame(): Slots
      reads this
    {
      Slots(lets, matches)
    }

    constructor ()
      ensures lets == map[] && matches == map[] && localIndex == 0
    {
      lets, matches, localIndex := map[], map[], 0;
    }

    /** Hands out the slots of one statement. */
    method AssignSlot(s: Stmt)
      requires Distinct(s)
      modifies this
      ensures localIndex == old(localIndex) + Count(s)
      ensures Agrees(s, Frame(), old(localIndex))
      ensures OnlyAdds(Ids(s), old(Frame()), Frame())
      decreases s, 1
    {
      hide DistinctAll, DistinctArms, CountAll, CountArms, AgreesAll, AgreesArms, IdsAll, IdsArms;
      match s
      case Let(id, _, _) =>
        lets := lets[id := -4 * (localIndex + 1)];
        localIndex := localIndex + 1;
      case If(_, thenBody, elseBody) =>
        ghost var f0, k := Frame(), localIndex;
        AssignSlots(thenBody);
        ghost var f1 := Frame();
        AssignSlots(elseBody);
        KeepsAll(thenBody, elseBody, f0, f1, Frame(), k);
      case While(_, body) => AssignSlots(body);
      case For(_, _, _, _) => AssignFor(s);
      case Match(_, _, _) => AssignMatch(s);
      case _ =>
    }

    method AssignFor(s: Stmt)
      requires s.For? && Distinct(s)
      modifies this
      ensures localIndex == old(localIndex) + Count(s)
      ensures Agrees(s, Frame(), old(localIndex))
      ensures OnlyAdds(Ids(s), old(Frame()), Frame())
      decreases s, 0
    {
      hide DistinctAll, CountAll, AgreesAll, IdsAll;
      ghost var f0, k := Frame(), localIndex;
      AssignSlot(s.init);
      ghost var f1 := Frame();
      AssignSlots(s.body);
      ghost var f2 := Frame();
      AssignSlot(s.step);
      KeepsFor(s, f0, f1, f2, Frame(), k);
    }

    method AssignMatch(s: Stmt)
      requires s.Match? && Distinct(s)
      modifies this
      ensures localIndex == old(localIndex) + Count(s)
      ensures Agrees(s, Frame(), old(localIndex))
      ensures OnlyAdds(Ids(s), old(Frame()), Frame())
      decreases s, 0
    {
      hide DistinctArms, CountArms, AgreesArms, IdsArms;
      ghost var f0 := Frame();
      matches := matches[s.id := -4 * (localIndex + 1)];
      localIndex := localIndex + 1;
      ghost var f1 := Frame();
      AssignArms(s.arms);
      OnlyAddsSame(IdsArms(s.arms), {s.id}, f1, Frame());
      OnlyAddsBoth({s.id}, IdsArms(s.arms), f0, f1, Frame());
    }

    /** Hands out the slots of a statement list, first to last. */
    method AssignSlots(body: seq<Stmt>)
      requires DistinctAll(body)
      modifies this
      ensures localIndex == old(localIndex) + CountAll(body)
      ensures AgreesAll(body, Frame(), old(localIndex))
      ensures OnlyAdds(IdsAll(body), old(Frame()), Frame())
      decreases body, 0
    {
      if body != [] {
        ghost var f0, k := Frame(), localIndex;
        AssignSlot(body[0]);
        ghost var f1 := Frame();
        AssignSlots(body[1..]);
        KeepsStmt(body[0], IdsAll(body[1..]), f0, f1, Frame(), k);
      }
    }

    method AssignArms(arms: seq<Arm>)
      requires DistinctArms(arms)
      modifies this
      ensures localIndex == old(localIndex) + CountArms(arms)
      ensures AgreesArms(arms, Frame(), old(localIndex))
      ensures OnlyAdds(IdsArms(arms), old(Frame()), Frame())
      decreases arms, 0
    {
      if arms != [] {
        ghost var f0, k := Frame(), localIndex;
        AssignSlots(arms[0].body);
        ghost var f1 := Frame();
        AssignArms(arms[1..]);
        OnlyAddsSame(IdsArms(arms[1..]), IdsAll(arms[0].body), f1, Frame());
        StillAgreesAll(arms[0].body, f1, Frame(), k);
        OnlyAddsBoth(IdsAll(arms[0].body), IdsArms(arms[1..]), f0, f1, Frame());
      }
    }
  }

  lemma KeepsStmt(s: Stmt, later: set<nat>, f0: Slots, f1: Slots, f2: Slots, k: nat)
    requires Agrees(s, f1, k) && OnlyAdds(Ids(s), f0, f1) && OnlyAdds(later, f1, f2) && Ids(s) !! later
    ensures Agrees(s, f2, k) && OnlyAdds(Ids(s) + later, f0, f2)
  {
    OnlyAddsSame(later, Ids(s), f1, f2);
    StillAgrees(s, f1, f2, k);
    OnlyAddsBoth(Ids(s), later, f0, f1, f2);
  }

  lemma KeepsAll(a: seq<Stmt>, b: seq<Stmt>, f0: Slots, f1: Slots, f2: Slots, k: nat)
    requires AgreesAll(a, f1, k) && OnlyAdds(IdsAll(a), f0, f1) && OnlyAdds(IdsAll(b), f1, f2) && IdsAll(a) !! IdsAll(b)
    ensures AgreesAll(a, f2, k) && OnlyAdds(IdsAll(a) + IdsAll(b), f0, f2)
  {
    OnlyAddsSame(IdsAll(b), IdsAll(a), f1, f2);
    StillAgreesAll(a, f1, f2, k);
    OnlyAddsBoth(IdsAll(a), IdsAll(b), f0, f1, f2);
  }

  lemma KeepsFor(s: Stmt, f0: Slots, f1: Slots, f2: Slots, f3: Slots, k: nat)
    requires s.For? && Distinct(s)
    requires Agrees(s.init, f1, k) && AgreesAll(s.body, f2, k + Count(s.init))
    requires OnlyAdds(Ids(s.init), f0, f1) && OnlyAdds(IdsAll(s.body), f1, f2) && OnlyAdds(Ids(s.step), f2, f3)
    ensures Agrees(s.init, f3, k) && AgreesAll(s.body, f3, k + Count(s.init))
    ensures OnlyAdds(Ids(s), f0, f3)
  {
    OnlyAddsBoth(IdsAll(s.body), Ids(s.step), f1, f2, f3);
    KeepsStmt(s.init, IdsAll(s.body) + Ids(s.step), f0, f1, f3, k);
    OnlyAddsSame(Ids(s.step), IdsAll(s.body), f2, f3);
    StillAgreesAll(s.body, f2, f3, k + Count(s.init));
    assert Ids(s.init) + (IdsAll(s.body) + Ids(s.step)) == Ids(s);
  }
}
