/** Structs, tuples and enums in registers: literals are put together chunk by
    chunk with mask, shift and or, and fields are taken out with load, shift and
    extension. All masks and shifts are by whole bytes, so a register is a
    sequence of bytes, least significant first. */
module Aggregates {
  import opened Types
  import L = Layout
  import opened Frames

  type Bytes = seq<bv8>

  /** A field of a literal: where it goes, how many bytes of its register it keeps,
      whether it is signed, and the register that its expression leaves. */
  datatype Field = Field(offset: nat, width: nat, signed: bool, value: Bytes)

  predicate WellFormed(t: Target, f: Field) {
    |f.value| == Word(t) && 1 <= f.width <= Word(t) && f.offset % Word(t) + f.width <= Word(t)
  }

  predicate Disjoint(f: Field, g: Field) {
    f.offset + f.width <= g.offset || g.offset + g.width <= f.offset
  }

  predicate AllDisjoint(fields: seq<Field>) {
    forall i, j :: 0 <= i < j < |fields| ==> Disjoint(fields[i], fields[j])
  }

  // ---- the machine ----

  datatype Instr =
    | Zero
    | PushAcc
    | Evaluate(field: nat)
    | Mask(width: nat)
    | ShiftLeft(bytes: nat)
    | ToScratch
    | PopAcc
    | OrScratch
    | ShiftRight(bytes: nat)
    | Extend(width: nat, signed: bool)

  datatype State = State(acc: Bytes, scratch: Bytes, stack: seq<Bytes>)

  function Zeros(n: nat): (r: Bytes)
    ensures |r| == n && forall i :: 0 <= i < n ==> r[i] == 0
  {
    seq(n, i => 0)
  }

  function Masked(v: Bytes, width: nat): (r: Bytes)
    ensures |r| == |v| && forall i :: 0 <= i < |v| ==> r[i] == if i < width then v[i] else 0
  {
    seq(|v|, i requires 0 <= i < |v| => if i < width then v[i] else 0)
  }

  function Left(v: Bytes, k: nat): (r: Bytes)
    ensures |r| == |v| && forall i :: 0 <= i < |v| ==> r[i] == if i >= k then v[i - k] else 0
  {
    seq(|v|, i requires 0 <= i < |v| => if i >= k then v[i - k] else 0)
  }

  function Right(v: Bytes, k: nat): (r: Bytes)
    ensures |r| == |v| && forall i :: 0 <= i < |v| ==> r[i] == if i + k < |v| then v[i + k] else 0
  {
    seq(|v|, i requires 0 <= i < |v| => if i + k < |v| then v[i + k] else 0)
  }

  function Or(v: Bytes, w: Bytes): (r: Bytes)
    requires |v| == |w|
    ensures |r| == |v| && forall i :: 0 <= i < |v| ==> r[i] == v[i] | w[i]
  {
    seq(|v|, i requires 0 <= i < |v| => v[i] | w[i])
  }

  /** The low bytes, and above them zeros or copies of the sign. */
  function Extended(v: Bytes, width: nat, signed: bool): (r: Bytes)
    requires 1 <= width <= |v|
    ensures |r| == |v| && forall i :: 0 <= i < |v| ==>
      r[i] == if i < width then v[i] else if signed && v[width - 1] >= 128 then 255 else 0
  {
    seq(|v|, i requires 0 <= i < |v| => if i < width then v[i] else if signed && v[width - 1] >= 128 then 255 else 0)
  }

  /** Evaluating a field may use the scratch register; the stack is level again
      afterwards. */
  function Step(i: Instr, fields: seq<Field>, noise: nat -> Bytes, s: State): State {
    match i
    case Zero => s.(acc := Zeros(|s.acc|))
    case PushAcc => s.(stack := [s.acc] + s.stack)
    case Evaluate(f) => if f < |fields| then s.(acc := fields[f].value, scratch := noise(f)) else s
    case Mask(n) => s.(acc := Masked(s.acc, n))
    case ShiftLeft(k) => s.(acc := Left(s.acc, k))
    case ToScratch => s.(scratch := s.acc)
    case PopAcc => if s.stack == [] then s else s.(acc := s.stack[0], stack := s.stack[1..])
    case OrScratch => if |s.acc| == |s.scratch| then s.(acc := Or(s.acc, s.scratch)) else s
    case ShiftRight(k) => s.(acc := Right(s.acc, k))
    case Extend(n, signed) => if 1 <= n <= |s.acc| then s.(acc := Extended(s.acc, n, signed)) else s
  }

  function Run(code: seq<Instr>, fields: seq<Field>, noise: nat -> Bytes, s: State): State {
    if code == [] then s else Run(code[1..], fields, noise, Step(code[0], fields, noise, s))
  }

  lemma {:induction false} RunCat(a: seq<Instr>, b: seq<Instr>, fields: seq<Field>, noise: nat -> Bytes, s: State)
    ensures Run(a + b, fields, noise, s) == Run(b, fields, noise, Run(a, fields, noise, s))
    decreases |a|
  {
    hide Step;
    if a == [] {
      assert a + b == b;
    } else {
      assert (a + b)[1..] == a[1..] + b && (a + b)[0] == a[0];
      RunCat(a[1..], b, fields, noise, Step(a[0], fields, noise, s));
    }
  }

  lemma RunOne(i: Instr, fields: seq<Field>, noise: nat -> Bytes, s: State)
    ensures Run([i], fields, noise, s) == Step(i, fields, noise, s)
  {
    assert [i][1..] == [];
  }

  // ---- packing ----

  function Shifted(k: nat): seq<Instr> {
    if k > 0 then [ShiftLeft(k)] else []
  }

  function FieldCode(t: Target, fields: seq<Field>, i: nat): seq<Instr>
    requires i < |fields|
  {
    [PushAcc] + ([Evaluate(i)] + ([Mask(fields[i].width)] + (Shifted(fields[i].offset % Word(t))
      + [ToScratch, PopAcc, OrScratch])))
  }

  /** The first `i` fields of a literal, as far as they belong to chunk `q`. */
  function ChunkCode(t: Target, fields: seq<Field>, q: nat, i: nat): seq<Instr>
    requires i <= |fields|
  {
    if i == 0 then [Zero]
    else
      ChunkCode(t, fields, q, i - 1) + if fields[i - 1].offset / Word(t) == q then FieldCode(t, fields, i - 1) else []
  }

  /** The byte of the whole value that is byte `x` of chunk `q`. */
  predicate Covers(t: Target, f: Field, q: nat, x: nat) {
    f.offset <= q * Word(t) + x < f.offset + f.width
  }

  /** The register holds the bytes of the first `i` fields in chunk `q`, and zeros
      elsewhere. */
  predicate Holds(t: Target, fields: seq<Field>, q: nat, i: nat, acc: Bytes)
    requires i <= |fields|
  {
    && |acc| == Word(t)
    && (forall j, x :: 0 <= j < i && 0 <= x < Word(t) && Covers(t, fields[j], q, x) ==>
          ByteOf(t, fields[j], q, x) == acc[x])
    && (forall x :: 0 <= x < Word(t) && (forall j :: 0 <= j < i ==> !Covers(t, fields[j], q, x)) ==> acc[x] == 0)
  }

  function ByteOf(t: Target, f: Field, q: nat, x: nat): bv8
    requires Covers(t, f, q, x)
  {
    var b := q * Word(t) + x - f.offset;
    if b < |f.value| then f.value[b] else 0
  }

  /** The register that the field is or-ed in with. */
  function Contribution(t: Target, f: Field): Bytes {
    Left(Masked(f.value, f.width), f.offset % Word(t))
  }

  lemma ContributionBytes(t: Target, f: Field, q: nat)
    requires WellFormed(t, f) && f.offset / Word(t) == q
    ensures forall x :: 0 <= x < Word(t) ==>
      Contribution(t, f)[x] == if Covers(t, f, q, x) then ByteOf(t, f, q, x) else 0
  {
    assert f.offset == q * Word(t) + f.offset % Word(t);
  }

  lemma OtherChunk(t: Target, f: Field, q: nat, x: nat)
    requires WellFormed(t, f) && f.offset / Word(t) != q && x < Word(t)
    ensures !Covers(t, f, q, x)
  {
    var p, w := f.offset / Word(t), Word(t);
    assert f.offset == p * w + f.offset % w;
    if p < q { assert (p + 1) * w <= q * w; } else { assert (q + 1) * w <= p * w; }
  }

  lemma FieldRun(t: Target, fields: seq<Field>, i: nat, noise: nat -> Bytes, s: State)
    requires i < |fields| && WellFormed(t, fields[i]) && |s.acc| == Word(t)
    ensures var u := Run(FieldCode(t, fields, i), fields, noise, s);
      u.acc == Or(s.acc, Contribution(t, fields[i])) && u.stack == s.stack
  {
    var f := fields[i];
    var k := f.offset % Word(t);
    var tail := [ToScratch, PopAcc, OrScratch];
    RunCat([PushAcc], [Evaluate(i)] + ([Mask(f.width)] + (Shifted(k) + tail)), fields, noise, s);
    RunOne(PushAcc, fields, noise, s);
    var s1 := Step(PushAcc, fields, noise, s);
    RunCat([Evaluate(i)], [Mask(f.width)] + (Shifted(k) + tail), fields, noise, s1);
    RunOne(Evaluate(i), fields, noise, s1);
    var s2 := Step(Evaluate(i), fields, noise, s1);
    RunCat([Mask(f.width)], Shifted(k) + tail, fields, noise, s2);
    RunOne(Mask(f.width), fields, noise, s2);
    var s3 := Step(Mask(f.width), fields, noise, s2);
    RunCat(Shifted(k), tail, fields, noise, s3);
    var s4 := s3.(acc := Contribution(t, f));
    assert Run(Shifted(k), fields, noise, s3) == s4 by {
      if k > 0 { RunOne(ShiftLeft(k), fields, noise, s3); } else { assert s3.acc == Contribution(t, f); }
    }
    CombineRun(fields, noise, s4, s.acc);
  }

  lemma CombineRun(fields: seq<Field>, noise: nat -> Bytes, s: State, below: Bytes)
    requires s.stack != [] && s.stack[0] == below && |below| == |s.acc|
    ensures var u := Run([ToScratch, PopAcc, OrScratch], fields, noise, s);
      u.acc == Or(below, s.acc) && u.stack == s.stack[1..]
  {
    var code := [ToScratch, PopAcc, OrScratch];
    var s1 := Step(ToScratch, fields, noise, s);
    var s2 := Step(PopAcc, fields, noise, s1);
    assert code[1..] == [PopAcc, OrScratch] && code[1..][1..] == [OrScratch];
    RunOne(OrScratch, fields, noise, s2);
    assert Run(code[1..], fields, noise, s1) == Run([OrScratch], fields, noise, s2);
  }

  lemma {:induction false} ChunkRun(t: Target, fields: seq<Field>, q: nat, i: nat, noise: nat -> Bytes, s: State)
    requires i <= |fields| && |s.acc| == Word(t) && AllDisjoint(fields)
    requires forall j :: 0 <= j < |fields| ==> WellFormed(t, fields[j])
    ensures var u := Run(ChunkCode(t, fields, q, i), fields, noise, s);
      Holds(t, fields, q, i, u.acc) && u.stack == s.stack
  {
    hide Covers, Step, Run, FieldCode, WellFormed, AllDisjoint, Contribution;
    if i == 0 {
      ZeroRun(t, fields, q, noise, s);
    } else {
      ChunkRun(t, fields, q, i - 1, noise, s);
      var u := Run(ChunkCode(t, fields, q, i - 1), fields, noise, s);
      if fields[i - 1].offset / Word(t) == q {
        RunCat(ChunkCode(t, fields, q, i - 1), FieldCode(t, fields, i - 1), fields, noise, s);
        FieldRun(t, fields, i - 1, noise, u);
        HoldsMore(t, fields, q, i, u.acc);
      } else {
        assert ChunkCode(t, fields, q, i) == ChunkCode(t, fields, q, i - 1) + [];
        assert ChunkCode(t, fields, q, i) == ChunkCode(t, fields, q, i - 1);
        HoldsSame(t, fields, q, i, u.acc);
      }
    }
  }

  lemma ZeroRun(t: Target, fields: seq<Field>, q: nat, noise: nat -> Bytes, s: State)
    requires |s.acc| == Word(t)
    ensures var u := Run(ChunkCode(t, fields, q, 0), fields, noise, s);
      Holds(t, fields, q, 0, u.acc) && u.stack == s.stack
  {
    RunOne(Zero, fields, noise, s);
  }

  lemma HoldsSame(t: Target, fields: seq<Field>, q: nat, i: nat, acc: Bytes)
    requires 0 < i <= |fields| && Holds(t, fields, q, i - 1, acc)
    requires WellFormed(t, fields[i - 1]) && fields[i - 1].offset / Word(t) != q
    ensures Holds(t, fields, q, i, acc)
  {
    var f := fields[i - 1];
    forall x | 0 <= x < Word(t) ensures !Covers(t, f, q, x) { OtherChunk(t, f, q, x); }
    hide Covers, WellFormed;
  }

  lemma HoldsMore(t: Target, fields: seq<Field>, q: nat, i: nat, acc: Bytes)
    requires 0 < i <= |fields| && Holds(t, fields, q, i - 1, acc) && AllDisjoint(fields)
    requires WellFormed(t, fields[i - 1]) && fields[i - 1].offset / Word(t) == q
    ensures Holds(t, fields, q, i, Or(acc, Contribution(t, fields[i - 1])))
  {
    var f := fields[i - 1];
    ContributionBytes(t, f, q);
    var u := Or(acc, Contribution(t, f));
    forall j, x | 0 <= j < i && 0 <= x < Word(t) && Covers(t, fields[j], q, x)
      ensures ByteOf(t, fields[j], q, x) == u[x]
    {
      if j < i - 1 {
        assert Disjoint(fields[j], f);
        assert !Covers(t, f, q, x);
      } else {
        forall l | 0 <= l < i - 1 ensures !Covers(t, fields[l], q, x) { assert Disjoint(fields[l], f); }
        assert acc[x] == 0;
      }
    }
  }

  // ---- reading ----

  /** Reads a field out of its chunk. */
  function ReadCode(t: Target, f: Field): seq<Instr> {
    (if f.offset % Word(t) > 0 then [ShiftRight(f.offset % Word(t))] else []) + [Extend(f.width, f.signed)]
  }

  /** What a field expression yields for a field that was filled from `f.value`:
      the low bytes of that register, extended. */
  lemma ReadsBack(t: Target, fields: seq<Field>, i: nat, noise: nat -> Bytes, s: State, s': State)
    requires i < |fields| && |s.acc| == Word(t) && AllDisjoint(fields) && WellFormed(t, fields[i])
    requires forall j :: 0 <= j < |fields| ==> WellFormed(t, fields[j])
    requires s'.acc == Run(ChunkCode(t, fields, fields[i].offset / Word(t), |fields|), fields, noise, s).acc
    ensures var f := fields[i];
      Run(ReadCode(t, f), fields, noise, s').acc == Extended(f.value, f.width, f.signed)
  {
    hide Run, ChunkCode, ReadCode, Extended, Step, AllDisjoint;
    var f := fields[i];
    var q := f.offset / Word(t);
    ChunkRun(t, fields, q, |fields|, noise, s);
    HeldBytes(t, fields, i, s'.acc);
    ReadRun(t, f, fields, noise, s');
  }

  lemma HeldBytes(t: Target, fields: seq<Field>, i: nat, acc: Bytes)
    requires i < |fields| && WellFormed(t, fields[i]) && Holds(t, fields, fields[i].offset / Word(t), |fields|, acc)
    ensures forall b :: 0 <= b < fields[i].width ==> acc[fields[i].offset % Word(t) + b] == fields[i].value[b]
  {
    var f := fields[i];
    var k, q := f.offset % Word(t), f.offset / Word(t);
    assert f.offset == q * Word(t) + k;
    forall b | 0 <= b < f.width ensures acc[k + b] == f.value[b] {
      assert Covers(t, f, q, k + b);
      assert ByteOf(t, f, q, k + b) == f.value[b];
    }
  }

  lemma ShiftRun(k: nat, fields: seq<Field>, noise: nat -> Bytes, s: State)
    ensures Run(if k > 0 then [ShiftRight(k)] else [], fields, noise, s).acc == Right(s.acc, k)
  {
    if k > 0 { RunOne(ShiftRight(k), fields, noise, s); } else { assert Right(s.acc, 0) == s.acc; }
  }

  lemma ExtendRun(width: nat, signed: bool, fields: seq<Field>, noise: nat -> Bytes, s: State)
    requires 1 <= width <= |s.acc|
    ensures Run([Extend(width, signed)], fields, noise, s).acc == Extended(s.acc, width, signed)
  {
    RunOne(Extend(width, signed), fields, noise, s);
  }

  lemma ReadRun(t: Target, f: Field, fields: seq<Field>, noise: nat -> Bytes, s: State)
    requires WellFormed(t, f) && |s.acc| == Word(t)
    requires forall b :: 0 <= b < f.width ==> s.acc[f.offset % Word(t) + b] == f.value[b]
    ensures Run(ReadCode(t, f), fields, noise, s).acc == Extended(f.value, f.width, f.signed)
  {
    hide Step, Run;
    var k := f.offset % Word(t);
    var shift := if k > 0 then [ShiftRight(k)] else [];
    RunCat(shift, [Extend(f.width, f.signed)], fields, noise, s);
    var u := Run(shift, fields, noise, s);
    ShiftRun(k, fields, noise, s);
    ExtendRun(f.width, f.signed, fields, noise, u);
    assert Extended(u.acc, f.width, f.signed) == Extended(f.value, f.width, f.signed);
  }

  // ---- with the layout ----

  predicate Scalar(ty: Type) {
    L.Laid(ty) && !ty.Tuple?
  }

  /** The i386 target has no 64-bit integers. */
  predicate Supported(t: Target, ty: Type) {
    Scalar(ty) && (t.I386? && ty.Int? ==> ty.bits <= 32)
  }

  /** The bytes that a target masks a field of the type to. */
  function Width(t: Target, ty: Type): nat {
    match ty
    case Int(_, bits) => if bits / 8 < Word(t) then bits / 8 else Word(t)
    case Bool => 1
    case Char => if t.Arm64? then 1 else 4
    case _ => Word(t)
  }

  predicate Signed(ty: Type) {
    ty.Int? && ty.signed
  }

  /** The fields of a literal whose types are `ts`, at the offsets of the layout
      behind `base`. */
  function FieldsOf(t: Target, ts: seq<Type>, values: seq<Bytes>, base: nat): (r: seq<Field>)
    requires |values| == |ts|
    ensures |r| == |ts| && forall i :: 0 <= i < |ts| ==>
      r[i] == Field(L.Offsets(ts, 0)[i] + base, Width(t, ts[i]), Signed(ts[i]), values[i])
  {
    seq(|ts|, i requires 0 <= i < |ts| => Field(L.Offsets(ts, 0)[i] + base, Width(t, ts[i]), Signed(ts[i]), values[i]))
  }

  predicate AllSupported(t: Target, ts: seq<Type>) {
    forall i :: 0 <= i < |ts| ==> Supported(t, ts[i])
  }

  lemma {:induction false} SupportedIsLaid(t: Target, ts: seq<Type>)
    requires AllSupported(t, ts)
    ensures L.AllLaid(ts)
    decreases |ts|
  {
    if ts != [] {
      assert Supported(t, ts[0]);
      forall i | 0 <= i < |ts[1..]| ensures Supported(t, ts[1..][i]) { assert ts[1..][i] == ts[i + 1]; }
      SupportedIsLaid(t, ts[1..]);
    }
  }

  /** An aligned scalar lies in one chunk. */
  lemma InOneChunk(t: Target, ty: Type, offset: nat)
    requires Supported(t, ty) && offset % L.Align(ty) == 0
    ensures 1 <= Width(t, ty) <= L.Size(ty) && offset % Word(t) + Width(t, ty) <= Word(t)
  {
    var a, w := L.Align(ty), Word(t);
    if a == 8 { L.DividesLiteral(offset / 8); assert offset == 8 * (offset / 8); }
  }

  lemma FieldsFit(t: Target, ts: seq<Type>, values: seq<Bytes>, base: nat)
    requires AllSupported(t, ts) && |values| == |ts| && forall i :: 0 <= i < |values| ==> |values[i]| == Word(t)
    requires forall i :: 0 <= i < |ts| ==> base % L.Align(ts[i]) == 0
    ensures var fields := FieldsOf(t, ts, values, base);
      && AllDisjoint(fields)
      && forall i :: 0 <= i < |fields| ==> WellFormed(t, fields[i]) && fields[i].offset >= base
  {
    hide L.Offsets, L.Align, L.Size, L.End, L.TotalSize, L.MaxAlign, Width, Word, Supported, WellFormed;
    SupportedIsLaid(t, ts);
    L.LayoutIsCorrect(ts);
    var fields, o := FieldsOf(t, ts, values, base), L.Offsets(ts, 0);
    forall i | 0 <= i < |ts| ensures WellFormed(t, fields[i]) && fields[i].width <= L.Size(ts[i]) {
      FieldFits(t, ts[i], o[i], base, values[i]);
    }
    forall i, j | 0 <= i < j < |ts| ensures Disjoint(fields[i], fields[j]) {
      assert o[i] + L.Size(ts[i]) <= o[j];
    }
  }

  lemma FieldFits(t: Target, ty: Type, o: nat, base: nat, value: Bytes)
    requires Supported(t, ty) && |value| == Word(t) && o % L.Align(ty) == 0 && base % L.Align(ty) == 0
    ensures WellFormed(t, Field(o + base, Width(t, ty), Signed(ty), value)) && Width(t, ty) <= L.Size(ty)
  {
    hide L.Align, L.Size, Width;
    SupportedPower(t, ty);
    L.SumDivisible(o, base, L.Align(ty));
    InOneChunk(t, ty, o + base);
    WidthInWord(t, ty);
  }

  lemma WidthInWord(t: Target, ty: Type)
    ensures Width(t, ty) <= Word(t)
  {
  }

  lemma SupportedPower(t: Target, ty: Type)
    requires Supported(t, ty)
    ensures L.Power(L.Align(ty))
  {
    L.AlignIsPower(ty);
  }

  /** The register holds a value of the type: what lies above the bytes of the type
      is its extension. */
  predicate Represents(t: Target, ty: Type, v: Bytes)
    requires Scalar(ty) && |v| == Word(t)
  {
    var n := if L.Size(ty) < Word(t) then L.Size(ty) else Word(t);
    1 <= n && v == Extended(v, n, Signed(ty))
  }

  /** What survives packing and reading: everything but the high bytes of a `char`
      on arm64, where fields of that type are masked to one byte. */
  predicate Survives(t: Target, ty: Type, v: Bytes)
    requires |v| == Word(t)
  {
    t.Arm64? && ty.Char? ==> v[1] == 0 && v[2] == 0 && v[3] == 0
  }

  lemma ExtendedBack(t: Target, ty: Type, v: Bytes)
    requires Supported(t, ty) && |v| == Word(t) && Represents(t, ty, v)
    ensures 1 <= Width(t, ty) <= |v| && (Extended(v, Width(t, ty), Signed(ty)) == v <==> Survives(t, ty, v))
  {
    var e := Extended(v, if L.Size(ty) < Word(t) then L.Size(ty) else Word(t), Signed(ty));
    if t.Arm64? && ty.Char? {
      var x := Extended(v, 1, false);
      assert x[1] == 0 && x[2] == 0 && x[3] == 0;
      assert forall i :: 4 <= i < 8 ==> v[i] == e[i] == 0;
      if Survives(t, ty, v) { assert x == v; }
    }
  }

  /** Building a struct or tuple literal and reading a field gives the value of
      that field, exactly if it survives the mask. */
  lemma StructRoundTrip(t: Target, ts: seq<Type>, values: seq<Bytes>, i: nat, noise: nat -> Bytes, s: State, s': State)
    requires AllSupported(t, ts) && |values| == |ts| && i < |ts| && |s.acc| == Word(t)
    requires forall j :: 0 <= j < |values| ==> |values[j]| == Word(t)
    requires Represents(t, ts[i], values[i])
    requires var fields := FieldsOf(t, ts, values, 0);
      s'.acc == Run(ChunkCode(t, fields, fields[i].offset / Word(t), |fields|), fields, noise, s).acc
    ensures var fields := FieldsOf(t, ts, values, 0);
      Run(ReadCode(t, fields[i]), fields, noise, s').acc == values[i] <==> Survives(t, ts[i], values[i])
  {
    hide Run, ChunkCode, ReadCode, L.Offsets, L.Align, WellFormed, AllDisjoint, Represents, Survives;
    var fields := FieldsOf(t, ts, values, 0);
    ZeroMod(ts);
    FieldsFit(t, ts, values, 0);
    ReadsBack(t, fields, i, noise, s, s');
    ExtendedBack(t, ts[i], values[i]);
  }

  /** On arm64 a struct with one `char` field that holds U+0101. */
  function WideChar(): seq<Field> {
    FieldsOf(Arm64, [Char], [[1, 1, 0, 0, 0, 0, 0, 0]], 0)
  }

  /** Its second byte does not survive: the field reads back as U+0001. */
  lemma WideCharLosesByte(noise: nat -> Bytes, s: State, s': State)
    requires |s.acc| == 8 && s'.acc == Run(ChunkCode(Arm64, WideChar(), 0, 1), WideChar(), noise, s).acc
    ensures Run(ReadCode(Arm64, WideChar()[0]), WideChar(), noise, s').acc == [1, 0, 0, 0, 0, 0, 0, 0]
  {
    var v: Bytes := [1, 1, 0, 0, 0, 0, 0, 0];
    WideCharIs();
    hide Run, ChunkCode, ReadCode, WideChar;
    ReadsBack(Arm64, WideChar(), 0, noise, s, s');
    assert Extended(v, 1, false) == [1, 0, 0, 0, 0, 0, 0, 0];
  }

  lemma WideCharIs()
    ensures WideChar() == [Field(0, 1, false, [1, 1, 0, 0, 0, 0, 0, 0])]
  {
    assert L.Offsets([Char], 0)[0] == L.AlignUp(0, 4) == 0;
  }

  lemma ZeroMod(ts: seq<Type>)
    ensures forall i :: 0 <= i < |ts| ==> 0 % L.Align(ts[i]) == 0
  {
  }

  // ---- enums ----

  /** The tag comes first; the payload of variant `v` lies behind it. */
  function EnumFields(t: Target, variants: seq<seq<Type>>, v: nat, tag: Bytes, values: seq<Bytes>): seq<Field>
    requires v < |variants| && |values| == |variants[v]|
  {
    [Field(0, 4, false, tag)] + FieldsOf(t, variants[v], values, L.PayloadOffset(variants))
  }

  lemma EnumFieldsFit(t: Target, variants: seq<seq<Type>>, v: nat, tag: Bytes, values: seq<Bytes>)
    requires v < |variants| && |values| == |variants[v]| && |tag| == Word(t)
    requires forall j :: 0 <= j < |variants| ==> AllSupported(t, variants[j])
    requires forall j :: 0 <= j < |values| ==> |values[j]| == Word(t)
    ensures var fields := EnumFields(t, variants, v, tag, values);
      AllDisjoint(fields) && forall i :: 0 <= i < |fields| ==> WellFormed(t, fields[i])
  {
    hide L.Offsets, L.Align, L.PayloadAlign, L.MaxAlign, L.AlignUp, AllSupported;
    forall j | 0 <= j < |variants| ensures L.AllLaid(variants[j]) { SupportedIsLaid(t, variants[j]); }
    L.PayloadBounds(variants);
    L.AlignUpIsLeast(4, L.PayloadAlign(variants));
    var ts, base := variants[v], L.PayloadOffset(variants);
    forall i | 0 <= i < |ts| ensures base % L.Align(ts[i]) == 0 {
      L.EachAlignBelow(ts, i);
      L.Divides(L.Align(ts[i]), L.PayloadAlign(variants), base);
    }
    FieldsFit(t, ts, values, base);
    var payload := FieldsOf(t, ts, values, base);
    var fields := EnumFields(t, variants, v, tag, values);
    forall i | 0 < i < |fields| ensures fields[i] == payload[i - 1] {}
    assert WellFormed(t, fields[0]);
  }

  /** Building an enum literal and reading the tag or a payload field, as a match
      binding does, gives what was put in. */
  lemma EnumRoundTrip(t: Target, variants: seq<seq<Type>>, v: nat, tag: Bytes, values: seq<Bytes>, i: nat,
                      noise: nat -> Bytes, s: State, s': State)
    requires v < |variants| && |values| == |variants[v]| && |tag| == Word(t) && |s.acc| == Word(t)
    requires forall j :: 0 <= j < |variants| ==> AllSupported(t, variants[j])
    requires forall j :: 0 <= j < |values| ==> |values[j]| == Word(t)
    requires i <= |values| && (i == 0 ==> tag == Extended(tag, 4, false))
    requires (i > 0 ==> Supported(t, variants[v][i - 1]) && Represents(t, variants[v][i - 1], values[i - 1]))
    requires var fields := EnumFields(t, variants, v, tag, values);
      s'.acc == Run(ChunkCode(t, fields, fields[i].offset / Word(t), |fields|), fields, noise, s).acc
    ensures var fields := EnumFields(t, variants, v, tag, values);
      var read := Run(ReadCode(t, fields[i]), fields, noise, s').acc;
      if i == 0 then read == tag else read == values[i - 1] <==> Survives(t, variants[v][i - 1], values[i - 1])
  {
    hide Run, ChunkCode, ReadCode, L.Offsets, WellFormed, AllDisjoint, Represents, Survives;
    var fields := EnumFields(t, variants, v, tag, values);
    EnumFieldsFit(t, variants, v, tag, values);
    ReadsBack(t, fields, i, noise, s, s');
    if i > 0 { ExtendedBack(t, variants[v][i - 1], values[i - 1]); }
  }

  // ---- emitting it ----

  /** The emitter: one pass over the fields for one chunk. */
  method EmitStructLiteralChunk(t: Target, fields: seq<Field>, q: nat) returns (code: seq<Instr>)
    ensures code == ChunkCode(t, fields, q, |fields|)
  {
    code := [Zero];
    for i := 0 to |fields|
      invariant code == ChunkCode(t, fields, q, i)
    {
      if fields[i].offset / Word(t) != q {
        assert code == code + [];
        continue;
      }
      ghost var before := code;
      var chunkOffset := fields[i].offset % Word(t);
      var fieldCode := [PushAcc] + ([Evaluate(i)] + [Mask(fields[i].width)]);
      if chunkOffset > 0 { fieldCode := fieldCode + [ShiftLeft(chunkOffset)]; }
      fieldCode := fieldCode + [ToScratch, PopAcc, OrScratch];
      assert fieldCode == FieldCode(t, fields, i);
      code := code + fieldCode;
    }
  }
}
