/** Where the numbers of the hash come from: FIPS 180-4, sections 4.2.2 and 5.3.3. */
module Sha256Numbers {
  import opened Sha256Standard

  ghost predicate Prime(p: nat) {
    p >= 2 && forall d :: 2 <= d < p ==> p % d != 0
  }

  /** No prime lies between these two. */
  ghost predicate NextPrime(p: nat, q: nat) {
    p < q && Prime(q) && forall n: nat :: p < n < q ==> !Prime(n)
  }

  /** These are the first 32 bits of the fraction of the cube root of `p`. */
  ghost predicate CubeRootBits(p: nat, k: bv32) {
    exists whole: nat :: IsCubeRoot(p, whole * 0x1_0000_0000 + k as nat)
  }

  /** The cube root, cut off behind 32 binary places. */
  predicate IsCubeRoot(p: nat, r: nat) {
    r * r * r <= p * 0x1_0000_0000_0000_0000_0000_0000 < (r + 1) * (r + 1) * (r + 1)
  }

  ghost predicate SquareRootBits(p: nat, k: bv32) {
    exists whole: nat :: IsSquareRoot(p, whole * 0x1_0000_0000 + k as nat)
  }

  predicate IsSquareRoot(p: nat, r: nat) {
    r * r <= p * 0x1_0000_0000_0000_0000 < (r + 1) * (r + 1)
  }

  /** The first 64 primes. */
  function Primes(): seq<nat> {
    [2, 3, 5, 7, 11, 13, 17, 19]
    + [23, 29, 31, 37, 41, 43, 47, 53]
    + [59, 61, 67, 71, 73, 79, 83, 89]
    + [97, 101, 103, 107, 109, 113, 127, 131]
    + [137, 139, 149, 151, 157, 163, 167, 173]
    + [179, 181, 191, 193, 197, 199, 211, 223]
    + [227, 229, 233, 239, 241, 251, 257, 263]
    + [269, 271, 277, 281, 283, 293, 307, 311]
  }

  // ---- primes below 361 ----

  predicate NoSmallFactor(n: nat) {
    && n >= 2 && (n % 2 != 0 || n == 2) && (n % 3 != 0 || n == 3) && (n % 5 != 0 || n == 5)
    && (n % 7 != 0 || n == 7) && (n % 11 != 0 || n == 11) && (n % 13 != 0 || n == 13) && (n % 17 != 0 || n == 17)
  }

  lemma HasSmallFactor(p: nat, d: nat, q: nat)
    requires p == d * q && 2 <= q < 19 && q < p
    ensures !NoSmallFactor(p)
  {
    if q % 2 == 0 { Multiple(p, d, q, 2); }
    else if q % 3 == 0 { Multiple(p, d, q, 3); }
    else { Multiple(p, d, q, q); }
  }

  lemma Multiple(p: nat, d: nat, q: nat, f: nat)
    requires p == d * q && f in {2, 3, 5, 7, 11, 13, 17} && q % f == 0 && f < p
    ensures !NoSmallFactor(p)
  {
    hide NoSmallFactor;
    var e := d * (q / f);
    assert p == e * f by { assert q == q / f * f; assert d * (q / f * f) == e * f; }
    HasFactor(p, e, f);
  }

  lemma HasFactor(p: nat, e: nat, f: nat)
    requires p == e * f && f in {2, 3, 5, 7, 11, 13, 17} && f < p
    ensures !NoSmallFactor(p)
  {
    if f == 2 { assert p % 2 == 0; }
    else if f == 3 { assert p % 3 == 0; }
    else if f == 5 { assert p % 5 == 0; }
    else if f == 7 { assert p % 7 == 0; }
    else if f == 11 { assert p % 11 == 0; }
    else if f == 13 { assert p % 13 == 0; }
    else { assert p % 17 == 0; }
  }

  lemma PrimesHaveNone(p: nat)
    requires p < 361
    ensures Prime(p) <==> NoSmallFactor(p)
  {
    if NoSmallFactor(p) {
      forall d | 2 <= d < p ensures p % d != 0 {
        if p % d == 0 {
          var q := p / d;
          assert p == d * q && p == q * d;
          if d < 19 { HasSmallFactor(p, q, d); } else { SmallCofactor(p, d, q); }
        }
      }
    }
  }

  /** One of two factors is small. */
  lemma SmallCofactor(p: nat, d: nat, q: nat)
    requires 19 <= d < p < 361 && p == d * q
    ensures !NoSmallFactor(p)
  {
    if q >= 19 { Products(d, q); }
    HasSmallFactor(p, d, q);
  }

  lemma Products(d: nat, q: nat)
    requires d >= 19 && q >= 19
    ensures d * q >= 19 * 19
  {
  }

  /** `k` numbers from `n` on have small factors, and the next one has none. */
  predicate Gap(n: nat, k: nat)
    decreases k
  {
    if k == 0 then NoSmallFactor(n) else !NoSmallFactor(n) && Gap(n + 1, k - 1)
  }

  lemma {:induction false} GapIsNext(p: nat, k: nat)
    requires Gap(p + 1, k) && p + 1 + k < 361
    ensures NextPrime(p, p + 1 + k)
    decreases k
  {
    hide NoSmallFactor, Prime;
    PrimesHaveNone(p + 1);
    if k > 0 { GapIsNext(p + 1, k - 1); }
  }

  // ---- the constants ----

  /** What the standard says of round constant `t`. */
  ghost predicate Stands(t: nat) {
    && |Primes()| == |Constants()| == 64 && t < 64 && CubeRootBits(Primes()[t], Constants()[t])
    && (if t == 0 then Primes()[t] == 2 else NextPrime(Primes()[t - 1], Primes()[t]))
  }

  lemma Entry(t: nat, p: nat, q: nat, whole: nat, k: bv32, n: nat)
    requires t < 64 && |Primes()| == |Constants()| == 64 && Primes()[t] == q && Constants()[t] == k
    requires k as nat == n && IsCubeRoot(q, whole * 0x1_0000_0000 + n)
    requires if t == 0 then q == 2 else p < q < 361 && Gap(p + 1, q - p - 1) && Primes()[t - 1] == p
    ensures Stands(t)
  {
    hide Constants, Primes, NextPrime, IsCubeRoot, Gap;
    if t > 0 { GapIsNext(p, q - p - 1); }
  }

  lemma Listed0()
    ensures |Primes()| == |Constants()| == 64
    ensures Primes()[0] == 2 && Constants()[0] == 0x428a2f98
    ensures Primes()[1] == 3 && Constants()[1] == 0x71374491
    ensures Primes()[2] == 5 && Constants()[2] == 0xb5c0fbcf
    ensures Primes()[3] == 7 && Constants()[3] == 0xe9b5dba5
    ensures Primes()[4] == 11 && Constants()[4] == 0x3956c25b
    ensures Primes()[5] == 13 && Constants()[5] == 0x59f111f1
    ensures Primes()[6] == 17 && Constants()[6] == 0x923f82a4
    ensures Primes()[7] == 19 && Constants()[7] == 0xab1c5ed5
  {
  }

  lemma Gaps0()
    ensures Gap(3, 0) && Gap(4, 1) && Gap(6, 1)
    ensures Gap(8, 3) && Gap(12, 1) && Gap(14, 3) && Gap(18, 1)
  {
  }

  lemma Row0()
    ensures forall t :: 0 <= t < 8 ==> Stands(t)
  {
    hide Stands, Constants, Primes, Gap;
    Listed0();
    Gaps0();
    Entry(0, 0, 2, 1, 0x428a2f98, 0x428a2f98);
    Entry(1, 2, 3, 1, 0x71374491, 0x71374491);
    Entry(2, 3, 5, 1, 0xb5c0fbcf, 0xb5c0fbcf);
    Entry(3, 5, 7, 1, 0xe9b5dba5, 0xe9b5dba5);
    Entry(4, 7, 11, 2, 0x3956c25b, 0x3956c25b);
    Entry(5, 11, 13, 2, 0x59f111f1, 0x59f111f1);
    Entry(6, 13, 17, 2, 0x923f82a4, 0x923f82a4);
    Entry(7, 17, 19, 2, 0xab1c5ed5, 0xab1c5ed5);
  }

  lemma Listed1()
    ensures |Primes()| == |Constants()| == 64
    ensures Primes()[8] == 23 && Constants()[8] == 0xd807aa98
    ensures Primes()[9] == 29 && Constants()[9] == 0x12835b01
    ensures Primes()[10] == 31 && Constants()[10] == 0x243185be
    ensures Primes()[11] == 37 && Constants()[11] == 0x550c7dc3
    ensures Primes()[12] == 41 && Constants()[12] == 0x72be5d74
    ensures Primes()[13] == 43 && Constants()[13] == 0x80deb1fe
    ensures Primes()[14] == 47 && Constants()[14] == 0x9bdc06a7
    ensures Primes()[15] == 53 && Constants()[15] == 0xc19bf174
    ensures Primes()[7] == 19
  {
  }

  lemma Gaps1()
    ensures Gap(20, 3) && Gap(24, 5) && Gap(30, 1) && Gap(32, 5)
    ensures Gap(38, 3) && Gap(42, 1) && Gap(44, 3) && Gap(48, 5)
  {
  }

  lemma Row1()
    ensures forall t :: 8 <= t < 16 ==> Stands(t)
  {
    hide Stands, Constants, Primes, Gap;
    Listed1();
    Gaps1();
    Entry(8, 19, 23, 2, 0xd807aa98, 0xd807aa98);
    Entry(9, 23, 29, 3, 0x12835b01, 0x12835b01);
    Entry(10, 29, 31, 3, 0x243185be, 0x243185be);
    Entry(11, 31, 37, 3, 0x550c7dc3, 0x550c7dc3);
    Entry(12, 37, 41, 3, 0x72be5d74, 0x72be5d74);
    Entry(13, 41, 43, 3, 0x80deb1fe, 0x80deb1fe);
    Entry(14, 43, 47, 3, 0x9bdc06a7, 0x9bdc06a7);
    Entry(15, 47, 53, 3, 0xc19bf174, 0xc19bf174);
  }

  lemma Listed2()
    ensures |Primes()| == |Constants()| == 64
    ensures Primes()[16] == 59 && Constants()[16] == 0xe49b69c1
    ensures Primes()[17] == 61 && Constants()[17] == 0xefbe4786
    ensures Primes()[18] == 67 && Constants()[18] == 0x0fc19dc6
    ensures Primes()[19] == 71 && Constants()[19] == 0x240ca1cc
    ensures Primes()[20] == 73 && Constants()[20] == 0x2de92c6f
    ensures Primes()[21] == 79 && Constants()[21] == 0x4a7484aa
    ensures Primes()[22] == 83 && Constants()[22] == 0x5cb0a9dc
    ensures Primes()[23] == 89 && Constants()[23] == 0x76f988da
    ensures Primes()[15] == 53
  {
  }

  lemma Gaps2()
    ensures Gap(54, 5) && Gap(60, 1) && Gap(62, 5) && Gap(68, 3)
    ensures Gap(72, 1) && Gap(74, 5) && Gap(80, 3) && Gap(84, 5)
  {
  }

  lemma Row2()
    ensures forall t :: 16 <= t < 24 ==> Stands(t)
  {
    hide Stands, Constants, Primes, Gap;
    Listed2();
    Gaps2();
    Entry(16, 53, 59, 3, 0xe49b69c1, 0xe49b69c1);
    Entry(17, 59, 61, 3, 0xefbe4786, 0xefbe4786);
    Entry(18, 61, 67, 4, 0x0fc19dc6, 0x0fc19dc6);
    Entry(19, 67, 71, 4, 0x240ca1cc, 0x240ca1cc);
    Entry(20, 71, 73, 4, 0x2de92c6f, 0x2de92c6f);
    Entry(21, 73, 79, 4, 0x4a7484aa, 0x4a7484aa);
    Entry(22, 79, 83, 4, 0x5cb0a9dc, 0x5cb0a9dc);
    Entry(23, 83, 89, 4, 0x76f988da, 0x76f988da);
  }

  lemma Listed3()
    ensures |Primes()| == |Constants()| == 64
    ensures Primes()[24] == 97 && Constants()[24] == 0x983e5152
    ensures Primes()[25] == 101 && Constants()[25] == 0xa831c66d
    ensures Primes()[26] == 103 && Constants()[26] == 0xb00327c8
    ensures Primes()[27] == 107 && Constants()[27] == 0xbf597fc7
    ensures Primes()[28] == 109 && Constants()[28] == 0xc6e00bf3
    ensures Primes()[29] == 113 && Constants()[29] == 0xd5a79147
    ensures Primes()[30] == 127 && Constants()[30] == 0x06ca6351
    ensures Primes()[31] == 131 && Constants()[31] == 0x14292967
    ensures Primes()[23] == 89
  {
  }

  lemma Gaps3()
    ensures Gap(90, 7) && Gap(98, 3) && Gap(102, 1) && Gap(104, 3)
    ensures Gap(108, 1) && Gap(110, 3) && Gap(114, 13) && Gap(128, 3)
  {
    assert Gap(121, 6);
  }

  lemma Row3()
    ensures forall t :: 24 <= t < 32 ==> Stands(t)
  {
    hide Stands, Constants, Primes, Gap;
    Listed3();
    Gaps3();
    Entry(24, 89, 97, 4, 0x983e5152, 0x983e5152);
    Entry(25, 97, 101, 4, 0xa831c66d, 0xa831c66d);
    Entry(26, 101, 103, 4, 0xb00327c8, 0xb00327c8);
    Entry(27, 103, 107, 4, 0xbf597fc7, 0xbf597fc7);
    Entry(28, 107, 109, 4, 0xc6e00bf3, 0xc6e00bf3);
    Entry(29, 109, 113, 4, 0xd5a79147, 0xd5a79147);
    Entry(30, 113, 127, 5, 0x06ca6351, 0x06ca6351);
    Entry(31, 127, 131, 5, 0x14292967, 0x14292967);
  }

  lemma Listed4()
    ensures |Primes()| == |Constants()| == 64
    ensures Primes()[32] == 137 && Constants()[32] == 0x27b70a85
    ensures Primes()[33] == 139 && Constants()[33] == 0x2e1b2138
    ensures Primes()[34] == 149 && Constants()[34] == 0x4d2c6dfc
    ensures Primes()[35] == 151 && Constants()[35] == 0x53380d13
    ensures Primes()[36] == 157 && Constants()[36] == 0x650a7354
    ensures Primes()[37] == 163 && Constants()[37] == 0x766a0abb
    ensures Primes()[38] == 167 && Constants()[38] == 0x81c2c92e
    ensures Primes()[39] == 173 && Constants()[39] == 0x92722c85
    ensures Primes()[31] == 131
  {
  }

  lemma Gaps4()
    ensures Gap(132, 5) && Gap(138, 1) && Gap(140, 9) && Gap(150, 1)
    ensures Gap(152, 5) && Gap(158, 5) && Gap(164, 3) && Gap(168, 5)
  {
  }

  lemma Row4()
    ensures forall t :: 32 <= t < 40 ==> Stands(t)
  {
    hide Stands, Constants, Primes, Gap;
    Listed4();
    Gaps4();
    Entry(32, 131, 137, 5, 0x27b70a85, 0x27b70a85);
    Entry(33, 137, 139, 5, 0x2e1b2138, 0x2e1b2138);
    Entry(34, 139, 149, 5, 0x4d2c6dfc, 0x4d2c6dfc);
    Entry(35, 149, 151, 5, 0x53380d13, 0x53380d13);
    Entry(36, 151, 157, 5, 0x650a7354, 0x650a7354);
    Entry(37, 157, 163, 5, 0x766a0abb, 0x766a0abb);
    Entry(38, 163, 167, 5, 0x81c2c92e, 0x81c2c92e);
    Entry(39, 167, 173, 5, 0x92722c85, 0x92722c85);
  }

  lemma Listed5()
    ensures |Primes()| == |Constants()| == 64
    ensures Primes()[40] == 179 && Constants()[40] == 0xa2bfe8a1
    ensures Primes()[41] == 181 && Constants()[41] == 0xa81a664b
    ensures Primes()[42] == 191 && Constants()[42] == 0xc24b8b70
    ensures Primes()[43] == 193 && Constants()[43] == 0xc76c51a3
    ensures Primes()[44] == 197 && Constants()[44] == 0xd192e819
    ensures Primes()[45] == 199 && Constants()[45] == 0xd6990624
    ensures Primes()[46] == 211 && Constants()[46] == 0xf40e3585
    ensures Primes()[47] == 223 && Constants()[47] == 0x106aa070
    ensures Primes()[39] == 173
  {
  }

  lemma Gaps5()
    ensures Gap(174, 5) && Gap(180, 1) && Gap(182, 9) && Gap(192, 1)
    ensures Gap(194, 3) && Gap(198, 1) && Gap(200, 11) && Gap(212, 11)
  {
  }

  lemma Row5()
    ensures forall t :: 40 <= t < 48 ==> Stands(t)
  {
    hide Stands, Constants, Primes, Gap;
    Listed5();
    Gaps5();
    Entry(40, 173, 179, 5, 0xa2bfe8a1, 0xa2bfe8a1);
    Entry(41, 179, 181, 5, 0xa81a664b, 0xa81a664b);
    Entry(42, 181, 191, 5, 0xc24b8b70, 0xc24b8b70);
    Entry(43, 191, 193, 5, 0xc76c51a3, 0xc76c51a3);
    Entry(44, 193, 197, 5, 0xd192e819, 0xd192e819);
    Entry(45, 197, 199, 5, 0xd6990624, 0xd6990624);
    Entry(46, 199, 211, 5, 0xf40e3585, 0xf40e3585);
    Entry(47, 211, 223, 6, 0x106aa070, 0x106aa070);
  }

  lemma Listed6()
    ensures |Primes()| == |Constants()| == 64
    ensures Primes()[48] == 227 && Constants()[48] == 0x19a4c116
    ensures Primes()[49] == 229 && Constants()[49] == 0x1e376c08
    ensures Primes()[50] == 233 && Constants()[50] == 0x2748774c
    ensures Primes()[51] == 239 && Constants()[51] == 0x34b0bcb5
    ensures Primes()[52] == 241 && Constants()[52] == 0x391c0cb3
    ensures Primes()[53] == 251 && Constants()[53] == 0x4ed8aa4a
    ensures Primes()[54] == 257 && Constants()[54] == 0x5b9cca4f
    ensures Primes()[55] == 263 && Constants()[55] == 0x682e6ff3
    ensures Primes()[47] == 223
  {
  }

  lemma Gaps6()
    ensures Gap(224, 3) && Gap(228, 1) && Gap(230, 3) && Gap(234, 5)
    ensures Gap(240, 1) && Gap(242, 9) && Gap(252, 5) && Gap(258, 5)
  {
  }

  lemma Row6()
    ensures forall t :: 48 <= t < 56 ==> Stands(t)
  {
    hide Stands, Constants, Primes, Gap;
    Listed6();
    Gaps6();
    Entry(48, 223, 227, 6, 0x19a4c116, 0x19a4c116);
    Entry(49, 227, 229, 6, 0x1e376c08, 0x1e376c08);
    Entry(50, 229, 233, 6, 0x2748774c, 0x2748774c);
    Entry(51, 233, 239, 6, 0x34b0bcb5, 0x34b0bcb5);
    Entry(52, 239, 241, 6, 0x391c0cb3, 0x391c0cb3);
    Entry(53, 241, 251, 6, 0x4ed8aa4a, 0x4ed8aa4a);
    Entry(54, 251, 257, 6, 0x5b9cca4f, 0x5b9cca4f);
    Entry(55, 257, 263, 6, 0x682e6ff3, 0x682e6ff3);
  }

  lemma Listed7()
    ensures |Primes()| == |Constants()| == 64
    ensures Primes()[56] == 269 && Constants()[56] == 0x748f82ee
    ensures Primes()[57] == 271 && Constants()[57] == 0x78a5636f
    ensures Primes()[58] == 277 && Constants()[58] == 0x84c87814
    ensures Primes()[59] == 281 && Constants()[59] == 0x8cc70208
    ensures Primes()[60] == 283 && Constants()[60] == 0x90befffa
    ensures Primes()[61] == 293 && Constants()[61] == 0xa4506ceb
    ensures Primes()[62] == 307 && Constants()[62] == 0xbef9a3f7
    ensures Primes()[63] == 311 && Constants()[63] == 0xc67178f2
    ensures Primes()[55] == 263
  {
  }

  lemma Gaps7()
    ensures Gap(264, 5) && Gap(270, 1) && Gap(272, 5) && Gap(278, 3)
    ensures Gap(282, 1) && Gap(284, 9) && Gap(294, 13) && Gap(308, 3)
  {
    assert Gap(301, 6);
  }

  lemma Row7()
    ensures forall t :: 56 <= t < 64 ==> Stands(t)
  {
    hide Stands, Constants, Primes, Gap;
    Listed7();
    Gaps7();
    Entry(56, 263, 269, 6, 0x748f82ee, 0x748f82ee);
    Entry(57, 269, 271, 6, 0x78a5636f, 0x78a5636f);
    Entry(58, 271, 277, 6, 0x84c87814, 0x84c87814);
    Entry(59, 277, 281, 6, 0x8cc70208, 0x8cc70208);
    Entry(60, 281, 283, 6, 0x90befffa, 0x90befffa);
    Entry(61, 283, 293, 6, 0xa4506ceb, 0xa4506ceb);
    Entry(62, 293, 307, 6, 0xbef9a3f7, 0xbef9a3f7);
    Entry(63, 307, 311, 6, 0xc67178f2, 0xc67178f2);
  }

  /** The round constants are the first 32 bits of the fractions of the cube roots of the
      first 64 primes, and the initial values those of the square roots of the first eight. */
  lemma NumbersAreRoots()
    ensures forall t :: 0 <= t < 64 ==> Stands(t)
    ensures forall k :: 0 <= k < 8 ==> SquareRootBits(Primes()[k], WordAt(Initial(), k))
  {
    hide Stands, SquareRootBits;
    Row0();
    Row1();
    Row2();
    Row3();
    Row4();
    Row5();
    Row6();
    Row7();
    Root(0, 2, 1, 0x6a09e667, 0x6a09e667);
    Root(1, 3, 1, 0xbb67ae85, 0xbb67ae85);
    Root(2, 5, 2, 0x3c6ef372, 0x3c6ef372);
    Root(3, 7, 2, 0xa54ff53a, 0xa54ff53a);
    Root(4, 11, 3, 0x510e527f, 0x510e527f);
    Root(5, 13, 3, 0x9b05688c, 0x9b05688c);
    Root(6, 17, 4, 0x1f83d9ab, 0x1f83d9ab);
    Root(7, 19, 4, 0x5be0cd19, 0x5be0cd19);
  }

  lemma Root(i: nat, p: nat, whole: nat, k: bv32, n: nat)
    requires i < 8 && |Primes()| == 64 && Primes()[i] == p && WordAt(Initial(), i) == k
    requires k as nat == n && IsSquareRoot(p, whole * 0x1_0000_0000 + n)
    ensures SquareRootBits(Primes()[i], WordAt(Initial(), i))
  {
    hide Primes, IsSquareRoot, Initial;
  }
}
