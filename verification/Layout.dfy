/** Sizes, alignments and field offsets, for types built from scalars, pointers,
    handles and tuples. */
module Layout {
  import opened Types

  predicate Laid(t: Type)
    decreases t, 0
  {
    match t
    case Int(_, bits) => Valid(t)
    case Tuple(es) => |es| >= 2 && AllLaid(es)
    case UserStruct(_) => false
    case UserEnum(_) => false
    case _ => true
  }

  predicate AllLaid(ts: seq<Type>)
    decreases ts, 1
  {
    ts == [] || (Laid(ts[0]) && AllLaid(ts[1..]))
  }

  function Max(a: nat, b: nat): nat {
    if a < b then b else a
  }

  function AlignUp(value: nat, alignment: nat): nat {
    if alignment <= 1 then value else (value + alignment - 1) / alignment * alignment
  }

  function Size(t: Type): nat
    decreases t, 1
  {
    match t
    case Int(_, bits) => bits / 8
    case Bool => 1
    case Char => 4
    case Tuple(es) => AlignUp(End(es, 0), MaxAlign(es))
    case UserStruct(_) => 0
    case UserEnum(_) => 0
    case _ => 8
  }

  function Align(t: Type): (r: nat)
    ensures r >= 1
    decreases t, 2
  {
    if t.Tuple? then MaxAlign(t.elements) else Max(Size(t), 1)
  }

  function MaxAlign(ts: seq<Type>): (r: nat)
    ensures r >= 1
    decreases ts, 3
  {
    if ts == [] then 1 else Max(Align(ts[0]), MaxAlign(ts[1..]))
  }

  /** The offsets of fields laid out from `offset` on. */
  function Offsets(ts: seq<Type>, offset: nat): (r: seq<nat>)
    ensures |r| == |ts|
    decreases ts, 3
  {
    if ts == [] then [] else
    var at := AlignUp(offset, Align(ts[0]));
    [at] + Offsets(ts[1..], at + Size(ts[0]))
  }

  /** Where the last field ends. */
  function End(ts: seq<Type>, offset: nat): nat
    decreases ts, 3
  {
    if ts == [] then offset else End(ts[1..], AlignUp(offset, Align(ts[0])) + Size(ts[0]))
  }

  function TotalSize(ts: seq<Type>): nat {
    AlignUp(End(ts, 0), MaxAlign(ts))
  }

  predicate Power(a: nat) {
    a in {1, 2, 4, 8}
  }

  /** The least multiple of the alignment that is not below the value. */
  lemma AlignUpIsLeast(value: nat, a: nat)
    requires Power(a)
    ensures value <= AlignUp(value, a) < value + a && AlignUp(value, a) % a == 0
    ensures forall v: nat :: v >= value && v % a == 0 ==> v >= AlignUp(value, a)
  {
  }

  lemma Divides(a: nat, b: nat, n: nat)
    requires Power(a) && Power(b) && a <= b && n % b == 0
    ensures n % a == 0
  {
    if b == 8 {
      DividesLiteral(n / 8);
      assert n == 8 * (n / 8);
    } else if b == 4 {
      DividesLiteral(n / 4);
      assert n == 4 * (n / 4);
    }
  }

  lemma DividesLiteral(k: nat)
    ensures 8 * k % 4 == 0 && 8 * k % 2 == 0 && 4 * k % 2 == 0
  {
    FourDivides(2 * k);
    TwoDivides(4 * k);
    TwoDivides(2 * k);
    assert 8 * k == 4 * (2 * k) && 8 * k == 2 * (4 * k) && 4 * k == 2 * (2 * k);
  }

  lemma FourDivides(k: nat)
    ensures 4 * k % 4 == 0
  {
  }

  lemma TwoDivides(k: nat)
    ensures 2 * k % 2 == 0
  {
  }

  lemma {:induction false} AlignIsPower(t: Type)
    requires Laid(t)
    ensures Power(Align(t)) && Size(t) % Align(t) == 0 && Size(t) > 0
    decreases t, 1
  {
    if t.Tuple? {
      AlignsArePowers(t.elements);
      AlignUpIsLeast(End(t.elements, 0), MaxAlign(t.elements));
      EndGrows(t.elements, 0);
    }
  }

  lemma AlignsArePowers(ts: seq<Type>)
    requires AllLaid(ts)
    ensures Power(MaxAlign(ts))
    decreases ts, 2
  {
    if ts != [] {
      AlignIsPower(ts[0]);
      AlignsArePowers(ts[1..]);
    }
  }

  lemma EndGrows(ts: seq<Type>, offset: nat)
    requires AllLaid(ts)
    ensures End(ts, offset) >= offset && (ts != [] ==> End(ts, offset) > offset)
    decreases ts, 2
  {
    if ts != [] {
      AlignIsPower(ts[0]);
      AlignUpIsLeast(offset, Align(ts[0]));
      EndGrows(ts[1..], AlignUp(offset, Align(ts[0])) + Size(ts[0]));
    }
  }

  /** Every field is aligned and starts at or behind `from`, no two overlap, and all end by
      `end`. */
  predicate Placed(ts: seq<Type>, offsets: seq<nat>, from: nat, end: nat)
    requires |offsets| == |ts|
  {
    && (forall i :: 0 <= i < |ts| ==>
          offsets[i] >= from && offsets[i] % Align(ts[i]) == 0 && offsets[i] + Size(ts[i]) <= end)
    && (forall i, j :: 0 <= i < j < |ts| ==> offsets[i] + Size(ts[i]) <= offsets[j])
  }

  lemma {:induction false} FieldsPlaced(ts: seq<Type>, offset: nat)
    requires AllLaid(ts)
    ensures Placed(ts, Offsets(ts, offset), offset, End(ts, offset))
    decreases |ts|
  {
    hide AlignUp, Align, Size;
    if ts != [] {
      var at := AlignUp(offset, Align(ts[0]));
      AlignIsPower(ts[0]);
      AlignUpIsLeast(offset, Align(ts[0]));
      FieldsPlaced(ts[1..], at + Size(ts[0]));
      EndGrows(ts[1..], at + Size(ts[0]));
      var rest := Offsets(ts[1..], at + Size(ts[0]));
      var all := Offsets(ts, offset);
      forall i | 0 < i < |ts| ensures all[i] == rest[i - 1] && ts[i] == ts[1..][i - 1] {}
    }
  }

  lemma {:induction false} EachAlignBelow(ts: seq<Type>, i: nat)
    requires AllLaid(ts) && i < |ts|
    ensures Power(Align(ts[i])) && Align(ts[i]) <= MaxAlign(ts)
    decreases |ts|
  {
    AlignIsPower(ts[0]);
    if i > 0 { EachAlignBelow(ts[1..], i - 1); }
  }

  /** The layout of a struct or tuple: aligned disjoint fields inside a size that
      is a multiple of the alignment of every field. */
  lemma LayoutIsCorrect(ts: seq<Type>)
    requires AllLaid(ts)
    ensures Placed(ts, Offsets(ts, 0), 0, TotalSize(ts))
    ensures TotalSize(ts) % MaxAlign(ts) == 0
    ensures forall i :: 0 <= i < |ts| ==> TotalSize(ts) % Align(ts[i]) == 0
    ensures TotalSize(ts) < End(ts, 0) + MaxAlign(ts)
  {
    FieldsPlaced(ts, 0);
    AlignsArePowers(ts);
    AlignUpIsLeast(End(ts, 0), MaxAlign(ts));
    forall i | 0 <= i < |ts| ensures TotalSize(ts) % Align(ts[i]) == 0 {
      EachAlignBelow(ts, i);
      Divides(Align(ts[i]), MaxAlign(ts), TotalSize(ts));
    }
  }

  /** Where the field in front of field `i` ends. */
  function Free(ts: seq<Type>, i: nat): nat
    requires i < |ts|
  {
    if i == 0 then 0 else Offsets(ts, 0)[i - 1] + Size(ts[i - 1])
  }

  lemma {:induction false} OffsetIs(ts: seq<Type>, offset: nat, i: nat)
    requires i < |ts|
    ensures var o := Offsets(ts, offset);
      o[i] == AlignUp(if i == 0 then offset else o[i - 1] + Size(ts[i - 1]), Align(ts[i]))
    ensures End(ts, offset) == (var last := |ts| - 1; Offsets(ts, offset)[last] + Size(ts[last]))
    decreases |ts|
  {
    hide AlignUp, Align, Size;
    var rest, at := ts[1..], AlignUp(offset, Align(ts[0]));
    if |ts| > 1 {
      OffsetIs(rest, at + Size(ts[0]), if i == 0 then 0 else i - 1);
      var o, q := Offsets(ts, offset), Offsets(rest, at + Size(ts[0]));
      assert forall k :: 0 < k < |ts| ==> o[k] == q[k - 1] && ts[k] == rest[k - 1];
    }
  }

  /** No field could start earlier: not at this place behind the field in front of it. */
  lemma OffsetsAreLeast(ts: seq<Type>, i: nat, v: nat)
    requires AllLaid(ts) && i < |ts| && v >= Free(ts, i) && v % Align(ts[i]) == 0
    ensures v >= Offsets(ts, 0)[i]
  {
    hide AlignUp, Align, Size;
    OffsetIs(ts, 0, i);
    EachAlignBelow(ts, i);
    AlignUpIsLeast(Free(ts, i), Align(ts[i]));
  }

  /** No smaller size would hold the last field and suit all alignments. */
  lemma SizeIsLeast(ts: seq<Type>, v: nat)
    requires AllLaid(ts) && v >= End(ts, 0) && forall k :: 0 <= k < |ts| ==> v % Align(ts[k]) == 0
    ensures v >= TotalSize(ts)
    ensures ts != [] ==> End(ts, 0) == Offsets(ts, 0)[|ts| - 1] + Size(ts[|ts| - 1])
  {
    hide AlignUp, Align, Size, End, Offsets;
    AlignsArePowers(ts);
    AlignUpIsLeast(End(ts, 0), MaxAlign(ts));
    if ts != [] { OffsetIs(ts, 0, 0); }
    if MaxAlign(ts) > 1 {
      var k := MostAligned(ts);
      assert v % MaxAlign(ts) == 0;
    }
  }

  lemma {:induction false} MostAligned(ts: seq<Type>) returns (k: nat)
    requires MaxAlign(ts) > 1
    ensures k < |ts| && Align(ts[k]) == MaxAlign(ts)
    decreases |ts|
  {
    if Align(ts[0]) == MaxAlign(ts) {
      k := 0;
    } else {
      k := MostAligned(ts[1..]);
      assert ts[1..][k] == ts[k + 1];
      k := k + 1;
    }
  }

  /** The sizes of single values, which are aligned like themselves. */
  lemma SingleSizes(t: Type)
    requires Laid(t) && !t.Tuple?
    ensures Align(t) == Size(t)
    ensures match t
      case Int(_, bits) => 8 * Size(t) == bits
      case Bool => Size(t) == 1
      case Char => Size(t) == 4
      case _ => Size(t) == 8
  {
  }

  // ---- enums ----

  predicate AllVariantsLaid(variants: seq<seq<Type>>) {
    forall i :: 0 <= i < |variants| ==> AllLaid(variants[i])
  }

  function PayloadAlign(variants: seq<seq<Type>>): (r: nat)
    ensures r >= 1
  {
    if variants == [] then 1 else Max(MaxAlign(variants[0]), PayloadAlign(variants[1..]))
  }

  function PayloadSize(variants: seq<seq<Type>>): nat {
    if variants == [] then 0 else Max(TotalSize(variants[0]), PayloadSize(variants[1..]))
  }

  /** Behind the tag, which takes four bytes. */
  function PayloadOffset(variants: seq<seq<Type>>): nat {
    AlignUp(4, PayloadAlign(variants))
  }

  function EnumSize(variants: seq<seq<Type>>): nat {
    AlignUp(PayloadOffset(variants) + PayloadSize(variants), Max(4, PayloadAlign(variants)))
  }

  lemma {:induction false} PayloadBounds(variants: seq<seq<Type>>)
    requires AllVariantsLaid(variants)
    ensures Power(PayloadAlign(variants))
    ensures forall i :: 0 <= i < |variants| ==>
      && Power(MaxAlign(variants[i])) && MaxAlign(variants[i]) <= PayloadAlign(variants)
      && TotalSize(variants[i]) <= PayloadSize(variants)
  {
    if variants != [] {
      AlignsArePowers(variants[0]);
      PayloadBounds(variants[1..]);
      forall i | 0 < i < |variants| ensures variants[i] == variants[1..][i - 1] {}
    }
  }

  function Shift(offsets: seq<nat>, base: nat): (r: seq<nat>)
    ensures |r| == |offsets| && forall i :: 0 <= i < |r| ==> r[i] == offsets[i] + base
  {
    seq(|offsets|, i requires 0 <= i < |offsets| => offsets[i] + base)
  }

  /** In every variant the payload fields, at their places in the whole value, are
      aligned, disjoint, clear of the tag and inside the value. */
  lemma EnumLayoutIsCorrect(variants: seq<seq<Type>>, i: nat)
    requires AllVariantsLaid(variants) && i < |variants|
    ensures Placed(variants[i], Shift(Offsets(variants[i], 0), PayloadOffset(variants)), 4, EnumSize(variants))
    ensures EnumSize(variants) % 4 == 0 && EnumSize(variants) % PayloadAlign(variants) == 0
  {
    hide Offsets, End, Size, Align, AlignUp, TotalSize, MaxAlign, AllLaid, PayloadAlign, PayloadSize, Power;
    var ts, base := variants[i], PayloadOffset(variants);
    PayloadBounds(variants);
    LayoutIsCorrect(ts);
    AlignUpIsLeast(4, PayloadAlign(variants));
    MaxPower(PayloadAlign(variants));
    AlignUpIsLeast(base + PayloadSize(variants), Max(4, PayloadAlign(variants)));
    Divides(4, Max(4, PayloadAlign(variants)), EnumSize(variants));
    Divides(PayloadAlign(variants), Max(4, PayloadAlign(variants)), EnumSize(variants));
    var o := Offsets(ts, 0);
    forall j | 0 <= j < |ts| ensures (o[j] + base) % Align(ts[j]) == 0 {
      EachAlignBelow(ts, j);
      Divides(Align(ts[j]), PayloadAlign(variants), base);
      SumDivisible(o[j], base, Align(ts[j]));
    }
    PlacedShifted(ts, o, base, TotalSize(ts), EnumSize(variants));
  }

  lemma PlacedShifted(ts: seq<Type>, offsets: seq<nat>, base: nat, end: nat, whole: nat)
    requires |offsets| == |ts| && Placed(ts, offsets, 0, end) && base >= 4 && base + end <= whole
    requires forall j :: 0 <= j < |ts| ==> (offsets[j] + base) % Align(ts[j]) == 0
    ensures Placed(ts, Shift(offsets, base), 4, whole)
  {
    hide Align, Size;
  }

  lemma MaxPower(a: nat)
    requires Power(a)
    ensures Power(4) && Power(Max(4, a)) && a <= Max(4, a)
  {
  }

  lemma SumDivisible(a: nat, b: nat, d: nat)
    requires Power(d) && a % d == 0 && b % d == 0
    ensures (a + b) % d == 0
  {
  }

  // ---- the copies of the struct layout ----

  /** Size and alignment as the lowering pass computes them for itself. */
  function SizeInBytes(t: Type): nat {
    match t
    case Int(_, bits) => bits / 8
    case Bool => 1
    case Char => 4
    case Tuple(es) => TotalSize(es)
    case UserStruct(_) => 0
    case UserEnum(_) => 0
    case _ => 8
  }

  function AlignmentOf(t: Type): nat {
    if t.Tuple? then MaxAlign(t.elements) else if SizeInBytes(t) == 0 then 1 else SizeInBytes(t)
  }

  lemma CopiesAgree(t: Type)
    ensures SizeInBytes(t) == Size(t) && AlignmentOf(t) == Align(t)
  {
  }

  // ---- a struct inside a struct ----

  /** Where a struct ends that has a struct of this size among its fields, in a copy that
      aligns the inner struct to `a`. */
  function Around(pre: seq<Type>, size: nat, a: nat, post: seq<Type>): nat {
    AlignUp(End(post, AlignUp(End(pre, 0), a) + size), Max(MaxAlign(pre), Max(a, MaxAlign(post))))
  }

  /** The analysis and the standard library align the inner struct to its size, as they do
      with all that is no tuple. */
  function SizeInFront(pre: seq<Type>, inner: seq<Type>, post: seq<Type>): nat {
    Around(pre, TotalSize(inner), Max(TotalSize(inner), 1), post)
  }

  /** The lowering pass aligns it like its most aligned field. */
  function SizeLowered(pre: seq<Type>, inner: seq<Type>, post: seq<Type>): nat {
    Around(pre, TotalSize(inner), MaxAlign(inner), post)
  }

  lemma BehindBool(size: nat, a: nat)
    requires a >= 1
    ensures Around([Bool], size, a, []) == AlignUp(AlignUp(1, a) + size, a)
  {
    assert End([Bool], 0) == 1 && MaxAlign([Bool]) == 1 by { assert [Bool][1..] == []; }
    assert End([], AlignUp(1, a) + size) == AlignUp(1, a) + size && MaxAlign([]) == 1;
  }

  /** The copies agree on all structs around an inner one if and only if its size is its
      alignment: they differ on the struct with a `bool` in front of it otherwise. */
  lemma NestedCopies(inner: seq<Type>)
    requires AllLaid(inner)
    ensures (forall pre, post :: AllLaid(pre) && AllLaid(post) ==>
               SizeInFront(pre, inner, post) == SizeLowered(pre, inner, post))
        <==> Max(TotalSize(inner), 1) == MaxAlign(inner)
  {
    hide Around;
    var s, a := TotalSize(inner), MaxAlign(inner);
    if Max(s, 1) != a {
      AlignsArePowers(inner);
      AlignUpIsLeast(End(inner, 0), a);
      assert s % a == 0;
      assert AllLaid([Bool]) by { assert [Bool][1..] == []; }
      BehindBool(s, Max(s, 1));
      BehindBool(s, a);
      InnerBehind(s, a);
      assert SizeInFront([Bool], inner, []) != SizeLowered([Bool], inner, []);
    }
  }

  lemma InnerBehind(s: nat, a: nat)
    requires Power(a) && s % a == 0 && Max(s, 1) != a
    ensures AlignUp(AlignUp(1, a) + s, a) != AlignUp(AlignUp(1, Max(s, 1)) + s, Max(s, 1))
  {
    assert AlignUp(1, a) == a && AlignUp(a + s, a) == a + s by { PowerKept(s, a); }
    if s > 1 {
      MultipleKept(1, s);
      MultipleKept(2, s);
      OneUp(s);
    }
  }

  lemma PowerKept(s: nat, a: nat)
    requires Power(a) && s % a == 0
    ensures AlignUp(1, a) == a && AlignUp(a + s, a) == a + s
  {
  }

  lemma OneUp(k: nat)
    requires k > 1
    ensures AlignUp(1, k) == k
  {
    Quotient(k, k, 1, 0);
  }

  /** Multiples are rounded up already. */
  lemma MultipleKept(q: nat, k: nat)
    requires k > 1
    ensures AlignUp(q * k, k) == q * k
  {
    Quotient(q * k + (k - 1), k, q, k - 1);
  }

  lemma Quotient(n: nat, k: nat, q: nat, r: nat)
    requires r < k && n == q * k + r
    ensures n / k == q
  {
    var d, m := n / k, n % k;
    assert n == d * k + m && m < k;
    if d < q { Apart(q - d, k); } else if d > q { Apart(d - q, k); }
    assert (q - d) * k == m - r;
  }

  lemma Apart(x: nat, k: nat)
    requires x >= 1
    ensures x * k >= k
  {
  }

  /** The semantic analysis: size and alignment. */
  method ComputeStructLayout(fields: seq<Type>) returns (size: nat, alignment: nat)
    ensures size == TotalSize(fields) && alignment == MaxAlign(fields)
  {
    var offset: nat, structAlignment: nat := 0, 1;
    assert fields[0..] == fields;
    for i := 0 to |fields|
      invariant End(fields[i..], offset) == End(fields, 0)
      invariant structAlignment >= 1 && Max(structAlignment, MaxAlign(fields[i..])) == MaxAlign(fields)
    {
      assert fields[i..][1..] == fields[i + 1..] && fields[i..][0] == fields[i];
      offset := AlignUp(offset, Align(fields[i]));
      offset := offset + Size(fields[i]);
      if Align(fields[i]) > structAlignment { structAlignment := Align(fields[i]); }
    }
    return AlignUp(offset, structAlignment), structAlignment;
  }

  /** The lowering pass: offsets too. */
  method ComputeStructLayouts(fields: seq<Type>) returns (offsets: seq<nat>, size: nat, alignment: nat)
    ensures offsets == Offsets(fields, 0) && size == TotalSize(fields) && alignment == MaxAlign(fields)
  {
    var offset: nat, structAlignment: nat := 0, 1;
    offsets := [];
    assert fields[0..] == fields;
    for i := 0 to |fields|
      invariant End(fields[i..], offset) == End(fields, 0)
      invariant offsets + Offsets(fields[i..], offset) == Offsets(fields, 0)
      invariant structAlignment >= 1 && Max(structAlignment, MaxAlign(fields[i..])) == MaxAlign(fields)
    {
      assert fields[i..][1..] == fields[i + 1..] && fields[i..][0] == fields[i];
      CopiesAgree(fields[i]);
      ghost var before := offsets;
      offset := AlignUp(offset, AlignmentOf(fields[i]));
      offsets := offsets + [offset];
      ghost var at := offset;
      offset := offset + SizeInBytes(fields[i]);
      assert (before + [at]) + Offsets(fields[i + 1..], offset) == before + ([at] + Offsets(fields[i + 1..], offset));
      if AlignmentOf(fields[i]) > structAlignment { structAlignment := AlignmentOf(fields[i]); }
    }
    size, alignment := AlignUp(offset, structAlignment), structAlignment;
  }

  /** The standard library: the size only. */
  method ComputeStructSizeBytes(fields: seq<Type>) returns (size: nat)
    ensures size == TotalSize(fields)
  {
    var offset: nat, structAlignment: nat := 0, 1;
    assert fields[0..] == fields;
    for i := 0 to |fields|
      invariant End(fields[i..], offset) == End(fields, 0)
      invariant structAlignment >= 1 && Max(structAlignment, MaxAlign(fields[i..])) == MaxAlign(fields)
    {
      assert fields[i..][1..] == fields[i + 1..] && fields[i..][0] == fields[i];
      var fieldAlignment, fieldSize := Align(fields[i]), Size(fields[i]);
      offset := AlignUp(offset, fieldAlignment);
      offset := offset + fieldSize;
      if fieldAlignment > structAlignment { structAlignment := fieldAlignment; }
    }
    return AlignUp(offset, structAlignment);
  }

  /** All variants of an enum: offsets in the payload, where it starts, and the
      size of the whole. */
  method LayoutEnumVariants(variants: seq<seq<Type>>)
    returns (fields: seq<seq<nat>>, payloadOffset: nat, size: nat, alignment: nat)
    ensures |fields| == |variants| && forall i :: 0 <= i < |variants| ==> fields[i] == Offsets(variants[i], 0)
    ensures payloadOffset == PayloadOffset(variants) && size == EnumSize(variants)
    ensures alignment == Max(4, PayloadAlign(variants))
  {
    var maxSize: nat, maxAlignment: nat := 0, 1;
    fields := [];
    assert variants[0..] == variants;
    for i := 0 to |variants|
      invariant |fields| == i && forall j :: 0 <= j < i ==> fields[j] == Offsets(variants[j], 0)
      invariant Max(maxSize, PayloadSize(variants[i..])) == PayloadSize(variants)
      invariant maxAlignment >= 1 && Max(maxAlignment, PayloadAlign(variants[i..])) == PayloadAlign(variants)
    {
      assert variants[i..][1..] == variants[i + 1..] && variants[i..][0] == variants[i];
      var offsets, payloadSize, payloadAlignment := ComputeStructLayouts(variants[i]);
      fields := fields + [offsets];
      maxSize := Max(maxSize, payloadSize);
      maxAlignment := Max(maxAlignment, payloadAlignment);
    }
    payloadOffset := AlignUp(4, maxAlignment);
    alignment := Max(4, maxAlignment);
    size := AlignUp(payloadOffset + maxSize, alignment);
  }
}
