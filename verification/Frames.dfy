/** Frame slots on the three targets. A value takes one or more chunks of a word;
    the allocator hands out words below the frame pointer in order. */
module Frames {
  datatype Target = I386 | X64 | Arm64

  function Word(t: Target): nat {
    if t.I386? then 4 else 8
  }

  /** Where the value that starts at word `start` and has `chunks` chunks is
      recorded: at its lowest word, on x86_64 at its highest. */
  function Base(t: Target, start: nat, chunks: nat): int {
    if t.X64? then -8 * (start + 1) else -(Word(t) * (start + chunks))
  }

  /** The slot of one chunk of a value. Positive slots are arguments on the stack of the caller. */
  function ChunkSlot(t: Target, base: int, chunk: nat): int {
    match t
    case I386 => base + 4 * chunk
    case X64 => if base > 0 then base + 8 * chunk else base - 8 * chunk
    case Arm64 => if base > 0 then base + 16 * chunk else base + 8 * chunk
  }

  /** Which word below the frame pointer chunk `c` of a local lies in. */
  function Cell(t: Target, start: nat, chunks: nat, c: nat): nat
    requires c < chunks
  {
    if t.X64? then start + 1 + c else start + chunks - c
  }

  lemma ChunkCell(t: Target, start: nat, chunks: nat, c: nat)
    requires c < chunks
    ensures ChunkSlot(t, Base(t, start, chunks), c) == -(Word(t) * Cell(t, start, chunks, c))
    ensures start < Cell(t, start, chunks, c) <= start + chunks
    ensures forall d: nat :: d < chunks && d != c ==> Cell(t, start, chunks, d) != Cell(t, start, chunks, c)
  {
    if t.X64? { assert Base(t, start, chunks) < 0; }
  }

  lemma RoundUp(n: nat)
    ensures n <= (n + 15) / 16 * 16 && (n + 15) / 16 * 16 % 16 == 0
  {
  }

  lemma CellsApart(t: Target, a: nat, b: nat, words: nat)
    requires 1 <= a <= words
    ensures a != b ==> Apart(t, -(Word(t) * a), -(Word(t) * b))
    ensures 0 <= AlignedBytes(t, words) - Word(t) * a && -(Word(t) * a) <= 0 - Word(t)
    ensures -(Word(t) * a) % Word(t) == 0
    ensures t != I386 ==> AlignedBytes(t, words) % 16 == 0
  {
    RoundUp(8 * words);
    if t.I386? { assert -(4 * a) % 4 == 0; } else { assert -(8 * a) % 8 == 0; }
  }

  /** Two chunks, of different locals or of one. */
  lemma ChunksApart(t: Target, x: nat, m: nat, c: nat, y: nat, n: nat, d: nat, words: nat)
    requires c < m && d < n && x + m <= words
    requires x + m <= y || y + n <= x || (x == y && m == n)
    ensures var a, b := ChunkSlot(t, Base(t, x, m), c), ChunkSlot(t, Base(t, y, n), d);
      && (x != y || c != d ==> Apart(t, a, b))
      && 0 <= AlignedBytes(t, words) + a && a <= 0 - Word(t) && a % Word(t) == 0
    ensures t != I386 ==> AlignedBytes(t, words) % 16 == 0
  {
    ChunkCell(t, x, m, c);
    ChunkCell(t, y, n, d);
    hide Base, ChunkSlot, AlignedBytes, Apart, Cell, Word;
    CellsApart(t, Cell(t, x, m, c), Cell(t, y, n, d), words);
  }

  /** What owns a slot: a `let`, a match scrutinee or a pattern binding. */
  datatype Owner = Owner(id: nat, chunks: nat)

  datatype Arm = Arm(bindings: seq<Owner>, body: seq<Stmt>)

  datatype Stmt =
    | Let(local: Owner)
    | If(thenBody: seq<Stmt>, elseBody: seq<Stmt>)
    | While(body: seq<Stmt>)
    | For(init: Stmt, step: Stmt, body: seq<Stmt>)
    | Match(local: Owner, arms: seq<Arm>)
    | Other

  /** The owners in a statement, in the order in which they get their slots. */
  function Owners(s: Stmt): seq<Owner>
    decreases s, 1
  {
    match s
    case Let(o) => [o]
    case If(a, b) => OwnersAll(a) + OwnersAll(b)
    case While(body) => OwnersAll(body)
    case For(init, step, body) => Owners(init) + (OwnersAll(body) + Owners(step))
    case Match(o, arms) => [o] + OwnersArms(arms)
    case Other => []
  }

  function OwnersAll(body: seq<Stmt>): seq<Owner>
    decreases body, 0
  {
    if body == [] then [] else Owners(body[0]) + OwnersAll(body[1..])
  }

  function OwnersArms(arms: seq<Arm>): seq<Owner>
    decreases arms, 0
  {
    if arms == [] then [] else arms[0].bindings + (OwnersAll(arms[0].body) + OwnersArms(arms[1..]))
  }

  function Total(owners: seq<Owner>): nat {
    if owners == [] then 0 else owners[0].chunks + Total(owners[1..])
  }

  lemma {:induction false} TotalCat(a: seq<Owner>, b: seq<Owner>)
    ensures Total(a + b) == Total(a) + Total(b)
    decreases |a|
  {
    if a == [] { assert a + b == b; } else {
      assert (a + b)[1..] == a[1..] + b;
      TotalCat(a[1..], b);
    }
  }

  /** Before owner `i` come the chunks of the owners in front of it. */
  function StartOf(owners: seq<Owner>, i: nat): nat
    requires i <= |owners|
  {
    Total(owners[..i])
  }

  /** The bases of the owners, from word `first` on. */
  function SlotsFor(t: Target, owners: seq<Owner>, first: nat): (r: seq<int>)
    ensures |r| == |owners|
  {
    if owners == [] then [] else [Base(t, first, owners[0].chunks)] + SlotsFor(t, owners[1..], first + owners[0].chunks)
  }

  lemma {:induction false} SlotsForCat(t: Target, a: seq<Owner>, b: seq<Owner>, first: nat)
    ensures SlotsFor(t, a + b, first) == SlotsFor(t, a, first) + SlotsFor(t, b, first + Total(a))
    decreases |a|
  {
    if a == [] { assert a + b == b; } else {
      assert (a + b)[1..] == a[1..] + b;
      SlotsForCat(t, a[1..], b, first + a[0].chunks);
    }
  }

  lemma {:induction false} SlotAt(t: Target, owners: seq<Owner>, first: nat, i: nat)
    requires i < |owners|
    ensures SlotsFor(t, owners, first)[i] == Base(t, first + StartOf(owners, i), owners[i].chunks)
    decreases i
  {
    if i > 0 {
      SlotAt(t, owners[1..], first + owners[0].chunks, i - 1);
      assert owners[..i][1..] == owners[1..][..i - 1];
    }
  }

  lemma {:induction false} StartMonotone(owners: seq<Owner>, i: nat, j: nat)
    requires i < j <= |owners|
    ensures StartOf(owners, i) + owners[i].chunks <= StartOf(owners, j)
  {
    assert owners[..j] == owners[..i] + ([owners[i]] + owners[i + 1..j]);
    TotalCat(owners[..i], [owners[i]] + owners[i + 1..j]);
    TotalCat([owners[i]], owners[i + 1..j]);
    assert Total([owners[i]]) == owners[i].chunks by { assert [owners[i]][1..] == []; }
  }

  function AlignedBytes(t: Target, words: nat): nat {
    if t.I386? then 4 * words else (8 * words + 15) / 16 * 16
  }

  predicate Apart(t: Target, a: int, b: int) {
    a + Word(t) <= b || b + Word(t) <= a
  }

  /** No two chunks of locals overlap, and all lie between the stack pointer and
      the words in front of `first`. */
  lemma SlotsAreDisjoint(t: Target, owners: seq<Owner>, first: nat, i: nat, c: nat, j: nat, d: nat)
    requires i < |owners| && c < owners[i].chunks && j < |owners| && d < owners[j].chunks
    ensures var slots := SlotsFor(t, owners, first);
      && (i != j || c != d ==> Apart(t, ChunkSlot(t, slots[i], c), ChunkSlot(t, slots[j], d)))
      && 0 <= AlignedBytes(t, first + Total(owners)) + ChunkSlot(t, slots[i], c)
      && ChunkSlot(t, slots[i], c) <= 0 - Word(t) && ChunkSlot(t, slots[i], c) % Word(t) == 0
    ensures t != I386 ==> AlignedBytes(t, first + Total(owners)) % 16 == 0
  {
    SlotAt(t, owners, first, i);
    SlotAt(t, owners, first, j);
    if i < j { StartMonotone(owners, i, j); }
    if j < i { StartMonotone(owners, j, i); }
    StartMonotone(owners, i, |owners|);
    assert owners[..|owners|] == owners;
    hide *;
    ChunksApart(t, first + StartOf(owners, i), owners[i].chunks, c, first + StartOf(owners, j), owners[j].chunks, d,
                first + StartOf(owners, |owners|));
  }

  /** The allocator: one pass over the statements behind the parameters that came
      in registers. */
  class FrameBuilder {
    const target: Target
    var slots: seq<int>
    var slotIndex: nat

    constructor (target: Target)
      ensures this.target == target && slots == [] && slotIndex == 0
    {
      this.target := target;
      slots, slotIndex := [], 0;
    }

    /** Gives one owner its slot. */
    method Assign(o: Owner)
      requires Chunked([o])
      modifies this
      ensures slots == old(slots) + SlotsFor(target, [o], old(slotIndex)) && slotIndex == old(slotIndex) + Total([o])
    {
      assert o == [o][0];
      if target.X64? {
        slotIndex := slotIndex + 1;
        slots := slots + [-8 * slotIndex];
        slotIndex := slotIndex + o.chunks - 1;
      } else {
        slotIndex := slotIndex + o.chunks;
        slots := slots + [-(Word(target) * slotIndex)];
      }
      assert [o][1..] == [];
    }

    method AssignLocalSlot(s: Stmt)
      requires Chunked(Owners(s))
      modifies this
      ensures slots == old(slots) + SlotsFor(target, Owners(s), old(slotIndex))
      ensures slotIndex == old(slotIndex) + Total(Owners(s))
      decreases s, 2
    {
      hide OwnersAll, OwnersArms, SlotsFor, Total, Chunked;
      match s
      case Let(o) => Assign(o);
      case If(a, b) =>
        ChunkedCat(OwnersAll(a), OwnersAll(b));
        Glue(target, OwnersAll(a), OwnersAll(b), slotIndex, slots);
        AssignLocalSlots(a);
        AssignLocalSlots(b);
      case While(body) => AssignLocalSlots(body);
      case For(init, step, body) =>
        ChunkedCat(Owners(init), OwnersAll(body) + Owners(step));
        ChunkedCat(OwnersAll(body), Owners(step));
        Glue(target, Owners(init), OwnersAll(body) + Owners(step), slotIndex, slots);
        AssignLocalSlot(init);
        Glue(target, OwnersAll(body), Owners(step), slotIndex, slots);
        AssignLocalSlots(body);
        AssignLocalSlot(step);
      case Match(o, arms) =>
        ChunkedCat([o], OwnersArms(arms));
        Glue(target, [o], OwnersArms(arms), slotIndex, slots);
        Assign(o);
        AssignArms(arms);
      case Other => NoOwners(target, slotIndex);
    }

    method AssignLocalSlots(body: seq<Stmt>)
      requires Chunked(OwnersAll(body))
      modifies this
      ensures slots == old(slots) + SlotsFor(target, OwnersAll(body), old(slotIndex))
      ensures slotIndex == old(slotIndex) + Total(OwnersAll(body))
      decreases body, 0
    {
      hide Owners;
      if body != [] {
        ChunkedCat(Owners(body[0]), OwnersAll(body[1..]));
        Glue(target, Owners(body[0]), OwnersAll(body[1..]), slotIndex, slots);
        AssignLocalSlot(body[0]);
        AssignLocalSlots(body[1..]);
      }
    }

    method AssignArms(arms: seq<Arm>)
      requires Chunked(OwnersArms(arms))
      modifies this
      ensures slots == old(slots) + SlotsFor(target, OwnersArms(arms), old(slotIndex))
      ensures slotIndex == old(slotIndex) + Total(OwnersArms(arms))
      decreases arms, 0
    {
      hide OwnersAll;
      if arms != [] {
        var rest := OwnersAll(arms[0].body) + OwnersArms(arms[1..]);
        ChunkedCat(arms[0].bindings, rest);
        ChunkedCat(OwnersAll(arms[0].body), OwnersArms(arms[1..]));
        Glue(target, arms[0].bindings, rest, slotIndex, slots);
        AssignBindings(arms[0].bindings);
        Glue(target, OwnersAll(arms[0].body), OwnersArms(arms[1..]), slotIndex, slots);
        AssignLocalSlots(arms[0].body);
        AssignArms(arms[1..]);
      }
    }

    method AssignBindings(bindings: seq<Owner>)
      requires Chunked(bindings)
      modifies this
      ensures slots == old(slots) + SlotsFor(target, bindings, old(slotIndex))
      ensures slotIndex == old(slotIndex) + Total(bindings)
    {
      assert bindings[0..] == bindings;
      for i := 0 to |bindings|
        invariant slots + SlotsFor(target, bindings[i..], slotIndex)
               == old(slots) + SlotsFor(target, bindings, old(slotIndex))
        invariant slotIndex + Total(bindings[i..]) == old(slotIndex) + Total(bindings)
      {
        assert bindings[i..] == [bindings[i]] + bindings[i + 1..];
        Glue(target, [bindings[i]], bindings[i + 1..], slotIndex, slots);
        Assign(bindings[i]);
      }
    }
  }

  lemma NoOwners(t: Target, first: nat)
    ensures SlotsFor(t, [], first) == [] && Total([]) == 0
  {
  }

  predicate Chunked(owners: seq<Owner>) {
    forall i :: 0 <= i < |owners| ==> owners[i].chunks >= 1
  }

  lemma ChunkedCat(a: seq<Owner>, b: seq<Owner>)
    requires Chunked(a + b)
    ensures Chunked(a) && Chunked(b)
  {
    forall i | 0 <= i < |a| ensures a[i] == (a + b)[i] {}
    forall i | 0 <= i < |b| ensures b[i] == (a + b)[|a| + i] {}
  }

  /** Allocating in two steps. */
  lemma Glue(t: Target, a: seq<Owner>, b: seq<Owner>, first: nat, done: seq<int>)
    ensures (done + SlotsFor(t, a, first)) + SlotsFor(t, b, first + Total(a)) == done + SlotsFor(t, a + b, first)
    ensures Total(a + b) == Total(a) + Total(b)
  {
    SlotsForCat(t, a, b, first);
    TotalCat(a, b);
  }
}
