/** 32-bit machine words, their signed reading, and truncating division.
    A word is an int in [0, 2^32); IR numbers are mathematical integers in the
    range of their type, and `Wrap` brings a result back into that range. */
module Words {

  const TWO31: int := 0x8000_0000
  const TWO32: int := 0x1_0000_0000

  function Word(n: int): (w: int)
    ensures 0 <= w < TWO32
  {
    n % TWO32
  }

  /** The signed reading of a word. */
  function Signed(w: int): int {
    if w < TWO31 then w else w - TWO32
  }

  predicate IsWord(w: int) {
    0 <= w < TWO32
  }

  function Abs(n: int): (m: int)
    ensures m >= 0
  {
    if n < 0 then -n else n
  }

  /** Division that truncates toward zero, as `idivl` and C++ do. */
  function TruncDiv(a: int, b: int): int
    requires b != 0
  {
    if (a < 0) == (b < 0) then Abs(a) / Abs(b) else -(Abs(a) / Abs(b))
  }

  function TruncRem(a: int, b: int): int
    requires b != 0
  {
    if a < 0 then -(Abs(a) % Abs(b)) else Abs(a) % Abs(b)
  }

  lemma Product(q: nat, m: int, c: int)
    requires c <= m
    ensures q * m >= q * c
  {
    assert q * m - q * c == q * (m - c);
  }

  /** Division of natural numbers with its remainder. */
  lemma DivisionStep(n: nat, m: nat)
    requires m > 0
    ensures n == (n / m) * m + n % m && 0 <= n % m < m && n / m >= 0
  {
  }

  /** Quotient and remainder rebuild the dividend; the remainder is smaller than the
      divisor and never has the opposite sign of the dividend. */
  ghost predicate Divides(a: int, b: int, q: int, r: int) {
    a == q * b + r && Abs(r) < Abs(b) && (a >= 0 ==> r >= 0) && (a <= 0 ==> r <= 0)
  }

  lemma DivPlusPlus(n: nat, m: nat)
    requires m > 0
    ensures Divides(n, m, n / m, n % m)
  {
    DivisionStep(n, m);
  }

  lemma DivPlusMinus(n: int, m: int, q: int, r: int)
    requires m > 0 && n >= 0 && Divides(n, m, q, r)
    ensures Divides(n, -m, -q, r)
  {
    MulNeg(-q, m);
    MulNeg(q, m);
  }

  lemma DivMinusPlus(n: int, m: int, q: int, r: int)
    requires m > 0 && n > 0 && Divides(n, m, q, r)
    ensures Divides(-n, m, -q, -r)
  {
    MulNeg(q, m);
  }

  lemma DivMinusMinus(n: int, m: int, q: int, r: int)
    requires m > 0 && n > 0 && Divides(n, m, q, r)
    ensures Divides(-n, -m, q, -r)
  {
    MulNeg(q, m);
  }

  lemma TruncDivRem(a: int, b: int)
    requires b != 0
    ensures Divides(a, b, TruncDiv(a, b), TruncRem(a, b))
  {
    hide Divides;
    var n, m := Abs(a), Abs(b);
    DivPlusPlus(n, m);
    var q, r := n / m, n % m;
    assert q >= 0 && r >= 0 by { DivisionStep(n, m); }
    if a >= 0 && b < 0 {
      DivPlusMinus(n, m, q, r);
    } else if a < 0 && b > 0 {
      DivMinusPlus(n, m, q, r);
    } else if a < 0 && b < 0 {
      DivMinusMinus(n, m, q, r);
    }
  }

  lemma MulNeg(x: int, y: int)
    ensures x * (-y) == -(x * y) == (-x) * y
  {
  }

  /** The quotient is no larger in magnitude than the dividend, and strictly
      smaller unless the divisor is a unit. */
  lemma QuotientBound(a: int, b: int)
    requires b != 0
    ensures Abs(TruncDiv(a, b)) <= Abs(a)
    ensures b != -1 && b != 1 && a != 0 ==> Abs(TruncDiv(a, b)) < Abs(a)
  {
    var m, n := Abs(b), Abs(a);
    DivisionStep(n, m);
    var q := n / m;
    Product(q, m, 1);
    if m >= 2 { Product(q, m, 2); }
  }

  /** Two integers that differ by a multiple of 2^32 are the same word. */
  lemma WordShift(n: int, k: int)
    ensures Word(n + k * TWO32) == Word(n)
  {
    var q, r := n / TWO32, n % TWO32;
    assert n + k * TWO32 == (q + k) * TWO32 + r;
    assert (n + k * TWO32) % TWO32 == r;
  }

  lemma WordAdd(a: int, b: int)
    ensures Word(Word(a) + Word(b)) == Word(a + b)
  {
    assert a + b == Word(a) + Word(b) + (a / TWO32 + b / TWO32) * TWO32;
    WordShift(Word(a) + Word(b), a / TWO32 + b / TWO32);
  }

  lemma WordSub(a: int, b: int)
    ensures Word(Word(a) - Word(b)) == Word(a - b)
  {
    assert a - b == Word(a) - Word(b) + (a / TWO32 - b / TWO32) * TWO32;
    WordShift(Word(a) - Word(b), a / TWO32 - b / TWO32);
  }

  lemma LowByte(w: int, bit: int)
    requires 0 <= bit < 256
    ensures (w / 256 * 256 + bit) % 256 == bit
  {
  }

  lemma SignedOfWord(n: int)
    ensures -TWO31 <= Signed(Word(n)) < TWO31
    ensures Word(Signed(Word(n))) == Word(n)
    ensures -TWO31 <= n < TWO31 ==> Signed(Word(n)) == n
    ensures 0 <= n < TWO32 ==> Word(n) == n
  {
  }

  lemma WordOfSigned(w: int)
    requires IsWord(w)
    ensures Word(Signed(w)) == w
  {
  }

  /** The low half of a product does not depend on which representative of each
      factor is multiplied: `imull` serves signed and unsigned alike. */
  lemma WordMul(a: int, b: int)
    ensures Word(Signed(Word(a)) * Signed(Word(b))) == Word(a * b)
  {
    var s, t := Signed(Word(a)), Signed(Word(b));
    var i := if Word(a) < TWO31 then a / TWO32 else a / TWO32 + 1;
    var j := if Word(b) < TWO31 then b / TWO32 else b / TWO32 + 1;
    assert a == s + i * TWO32;
    assert b == t + j * TWO32;
    var k := s * j + i * t + i * j * TWO32;
    calc {
      a * b;
      (s + i * TWO32) * (t + j * TWO32);
      s * t + s * (j * TWO32) + (i * TWO32) * t + (i * TWO32) * (j * TWO32);
      s * t + (s * j) * TWO32 + (i * t) * TWO32 + (i * j * TWO32) * TWO32;
      s * t + k * TWO32;
    }
    WordShift(s * t, k);
  }

  /** On words, unsigned division is truncating division and cannot overflow. */
  lemma UnsignedDivision(a: int, b: int)
    requires IsWord(a) && 0 < b < TWO32
    ensures a / b == TruncDiv(a, b) && a % b == TruncRem(a, b)
    ensures IsWord(TruncDiv(a, b)) && IsWord(TruncRem(a, b))
    ensures Word(TruncDiv(a, b)) == TruncDiv(a, b) && Word(TruncRem(a, b)) == TruncRem(a, b)
  {
    TruncDivRem(a, b);
    QuotientBound(a, b);
    assert a / b == TruncDiv(a, b);
    assert a / b >= 0;
    SignedOfWord(TruncDiv(a, b));
    SignedOfWord(TruncRem(a, b));
  }
}
