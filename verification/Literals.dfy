/** Integer literals from their digits to a register. */
module Literals {
  import opened Decimals

  datatype Option<T> = None | Some(value: T)

  const MAX64: nat := 0xFFFF_FFFF_FFFF_FFFF

  lemma {:induction false} DecimalGrows(s: string, i: nat)
    requires AllDigits(s) && i <= |s|
    ensures AllDigits(s[..i]) && Number(s[..i]) <= Number(s)
    decreases |s| - i
  {
    if i < |s| {
      DecimalGrows(s, i + 1);
      assert s[..i + 1][..i] == s[..i];
    } else {
      assert s[..i] == s;
    }
  }

  /** The digits as an unsigned 64-bit number, if they fit. No step of the
      computation exceeds 64 bits. */
  method ParseDecimalMagnitude(literal: string) returns (r: Option<nat>)
    requires AllDigits(literal)
    ensures r == if Number(literal) <= MAX64 then Some(Number(literal)) else None
  {
    var value: nat := 0;
    for i := 0 to |literal|
      invariant value == Number(literal[..i]) && value <= MAX64
    {
      var next := Digit(literal[i]);
      assert literal[..i + 1][..i] == literal[..i];
      DecimalGrows(literal, i + 1);
      if value > (MAX64 - next) / 10 { return None; }
      value := value * 10 + next;
    }
    assert literal[..|literal|] == literal;
    return Some(value);
  }

  datatype IntType = IntType(signed: bool, bits: nat)

  predicate Valid(ty: IntType) {
    ty.bits in {8, 16, 32, 64}
  }

  function Pow2(n: nat): nat {
    if n == 0 then 1 else 2 * Pow2(n - 1)
  }

  predicate InRange(ty: IntType, v: int)
    requires Valid(ty)
  {
    if ty.signed then 0 - Pow2(ty.bits - 1) <= v < Pow2(ty.bits - 1) else 0 <= v < Pow2(ty.bits)
  }

  function Signed(literal: string, negative: bool): int
    requires AllDigits(literal)
  {
    if negative then 0 - Number(literal) else Number(literal)
  }

  /** The literals that the analysis accepts: the value is in the range of the
      type, and there is no minus sign on an unsigned type, not even before zero. */
  predicate Accepted(ty: IntType, literal: string, negative: bool)
    requires Valid(ty) && AllDigits(literal)
  {
    InRange(ty, Signed(literal, negative)) && (negative ==> ty.signed)
  }

  function MaxSignedMagnitude(bits: nat): nat
    requires bits in {8, 16, 32, 64}
  {
    if bits == 64 then 9223372036854775807 else Shift1(bits - 1) - 1
  }

  function Shift1(n: nat): (r: nat)
    ensures r >= 1
  {
    if n == 0 then 1 else 2 * Shift1(n - 1)
  }

  function MaxUnsigned(bits: nat): nat
    requires bits in {8, 16, 32, 64}
  {
    if bits == 8 then 0xFF else if bits == 16 then 0xFFFF else if bits == 32 then 0xFFFF_FFFF else MAX64
  }

  lemma Powers()
    ensures Pow2(7) == 128 && Pow2(8) == 256 && Pow2(15) == 32768 && Pow2(16) == 65536
    ensures Pow2(31) == 0x8000_0000 && Pow2(32) == 0x1_0000_0000
    ensures Pow2(63) == 0x8000_0000_0000_0000 && Pow2(64) == 0x1_0000_0000_0000_0000
  {
    PowSum(8, 8);
    PowSum(16, 15);
    PowSum(16, 16);
    PowSum(32, 31);
    PowSum(32, 32);
    PowSum(8, 7);
    assert Pow2(7) == 128;
  }

  lemma {:induction false} PowSum(a: nat, b: nat)
    ensures Pow2(a + b) == Pow2(a) * Pow2(b)
  {
    if a > 0 { PowSum(a - 1, b); }
  }

  lemma {:induction false} ShiftIsPow(n: nat)
    ensures Shift1(n) == Pow2(n)
  {
    if n > 0 { ShiftIsPow(n - 1); }
  }

  /** The check decides acceptance for digit strings of any length. */
  method CheckIntegerLiteral(ty: IntType, literal: string, negative: bool) returns (fits: bool)
    requires Valid(ty) && AllDigits(literal)
    ensures fits <==> Accepted(ty, literal, negative)
  {
    Powers();
    ShiftIsPow(ty.bits - 1);
    fits := false;
    var magnitude := ParseDecimalMagnitude(literal);
    if magnitude.Some? {
      if !ty.signed {
        fits := !negative && magnitude.value <= MaxUnsigned(ty.bits);
      } else {
        var max := MaxSignedMagnitude(ty.bits);
        fits := if negative then magnitude.value <= max + 1 else magnitude.value <= max;
      }
    }
  }

  // ---- into a register of the arm64 target ----

  /** A 64-bit register as four 16-bit parts, least significant first. */
  datatype Register = Register(h0: nat, h1: nat, h2: nat, h3: nat)

  const TWO16: nat := 0x1_0000
  const TWO32: nat := 0x1_0000_0000
  const TWO48: nat := 0x1_0000_0000_0000
  const TWO64: nat := 0x1_0000_0000_0000_0000

  function Value(r: Register): nat {
    r.h0 + r.h1 * TWO16 + r.h2 * TWO32 + r.h3 * TWO48
  }

  datatype Instr = MovW(n: nat) | Movz(part: nat, chunk: nat) | Movk(part: nat, chunk: nat)

  function Put(r: Register, part: nat, chunk: nat): Register {
    match chunk
    case 0 => r.(h0 := part)
    case 1 => r.(h1 := part)
    case 2 => r.(h2 := part)
    case _ => r.(h3 := part)
  }

  /** `movk` replaces one part, the others clear the rest. Writing the 32-bit half
      clears the upper half. */
  function Step(i: Instr, r: Register): Register {
    match i
    case MovW(n) => Register(n % TWO16, n / TWO16 % TWO16, 0, 0)
    case Movz(part, chunk) => Put(Register(0, 0, 0, 0), part, chunk)
    case Movk(part, chunk) => Put(r, part, chunk)
  }

  function Run(code: seq<Instr>, r: Register): Register {
    if code == [] then r else Step(code[|code| - 1], Run(code[..|code| - 1], r))
  }

  function Part(value: nat, chunk: nat): nat {
    match chunk
    case 0 => value % TWO16
    case 1 => value / TWO16 % TWO16
    case 2 => value / TWO32 % TWO16
    case _ => value / TWO48 % TWO16
  }

  function Prefix(value: nat, chunks: nat): Register {
    Register(if chunks > 0 then Part(value, 0) else 0, if chunks > 1 then Part(value, 1) else 0,
             if chunks > 2 then Part(value, 2) else 0, if chunks > 3 then Part(value, 3) else 0)
  }

  lemma WholeValue(value: nat)
    requires value < TWO64
    ensures Value(Prefix(value, 4)) == value && Value(Prefix(value, 2)) == value % TWO32
  {
    var a, b, c := value / TWO16, value / TWO32, value / TWO48;
    assert a == b * TWO16 + Part(value, 1) && b == c * TWO16 + Part(value, 2);
    assert value == a * TWO16 + Part(value, 0);
    assert value == b * TWO32 + (Part(value, 1) * TWO16 + Part(value, 0));
  }

  /** After the emitted moves the register holds the value, modulo 2^32 for types
      of up to 32 bits. */
  method EmitIntegerImmediate(value: nat, bits: nat) returns (code: seq<Instr>)
    requires value < TWO64
    ensures forall r :: Value(Run(code, r)) == value % if bits <= 32 then TWO32 else TWO64
  {
    WholeValue(value);
    if bits <= 32 && value <= 65535 {
      code := [MovW(value)];
      forall r ensures Value(Run(code, r)) == value {
        assert code[..0] == [];
        assert Run(code, r) == Step(MovW(value), r);
      }
      return;
    }
    var chunkCount := if bits <= 32 then 2 else 4;
    var emitted := false;
    code := [];
    for chunk := 0 to chunkCount
      invariant emitted <==> chunk > 0
      invariant emitted ==> forall r :: Run(code, r) == Prefix(value, chunk)
    {
      var part := Part(value, chunk);
      if part == 0 && emitted { continue; }
      ghost var before := code;
      if !emitted {
        code := code + [Movz(part, chunk)];
        emitted := true;
      } else {
        code := code + [Movk(part, chunk)];
      }
      forall r ensures Run(code, r) == Prefix(value, chunk + 1) {
        assert code[..|code| - 1] == before;
      }
    }
  }

  /** An accepted literal arrives in the register as its value. The magnitude is
      read without leading zeros and negated modulo 2^64 if there is a sign. */
  method EmitInteger(ty: IntType, literal: string, negative: bool) returns (code: seq<Instr>)
    requires Valid(ty) && AllDigits(literal) && Accepted(ty, literal, negative)
    ensures forall r :: Value(Run(code, r)) == Signed(literal, negative) % if ty.bits <= 32 then TWO32 else TWO64
  {
    Powers();
    var canonical := CanonicalDecimalLiteral(literal);
    var magnitude := ParseDecimalMagnitude(canonical);
    var value := magnitude.value;
    if negative { value := (TWO64 - value) % TWO64; }
    Negated(Number(literal), if ty.bits <= 32 then TWO32 else TWO64);
    code := EmitIntegerImmediate(value, ty.bits);
  }

  lemma Negated(n: nat, m: nat)
    requires n < TWO64 && (m == TWO32 || m == TWO64)
    ensures (TWO64 - n) % TWO64 % m == (0 - n) % m
  {
    if n == 0 { return; }
    assert (TWO64 - n) % TWO64 == TWO64 - n;
    if m == TWO32 { Shifted32(0 - n); } else { Shifted64(0 - n); }
  }

  lemma Shifted32(a: int)
    ensures (a + TWO64) % TWO32 == a % TWO32
  {
  }

  lemma Shifted64(a: int)
    ensures (a + TWO64) % TWO64 == a % TWO64
  {
  }

  method CanonicalDecimalLiteral(literal: string) returns (r: string)
    requires AllDigits(literal)
    ensures AllDigits(r) && r != "" && Number(r) == Number(literal)
    ensures |r| > 1 ==> r[0] != '0'
  {
    var i := 0;
    while i < |literal| && literal[i] == '0'
      invariant 0 <= i <= |literal|
      invariant forall j :: 0 <= j < i ==> literal[j] == '0'
    {
      i := i + 1;
    }
    LeadingZeros(literal, i);
    if i == |literal| {
      assert Number("0") == 0 by { assert "0"[..0] == ""; }
      return "0";
    }
    return literal[i..];
  }

  lemma {:induction false} LeadingZeros(s: string, i: nat)
    requires AllDigits(s) && i <= |s| && forall j :: 0 <= j < i ==> s[j] == '0'
    ensures AllDigits(s[i..]) && Number(s[i..]) == Number(s)
    decreases |s|
  {
    if i < |s| {
      LeadingZeros(s[..|s| - 1], i);
      assert s[i..][..|s| - i - 1] == s[..|s| - 1][i..];
    } else if i > 0 {
      LeadingZeros(s[..|s| - 1], i - 1);
      assert s[..|s| - 1][i - 1..] == [];
    }
  }
}
