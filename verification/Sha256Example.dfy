/** The example of the standard: the hash of "abc", round by round. */
module Sha256Example {
  import opened Sha256Standard

  /** The only block of the padded message: the message, the one bit, zeros and the
      length of 24 bits. */
  predicate AbcBlock(b: Bytes) {
    && |b| == 64 && b[0] == 97 && b[1] == 98 && b[2] == 99 && b[3] == 128 && b[63] == 24
    && forall i :: 4 <= i < 63 ==> b[i] == 0
  }

  lemma PadIs(m: Bytes)
    requires m == [97, 98, 99]
    ensures AbcBlock(Pad(m))
  {
    LengthBytes();
    hide BigEndian, Shr, LowByte, Zeros;
    assert PadZeros(3) == 52;
    Joined(Pad(m), Zeros(52), BigEndian(24, 8));
  }

  lemma Joined(b: Bytes, zeros: Bytes, length: Bytes)
    requires b == [97, 98, 99] + [0x80] + zeros + length
    requires |zeros| == 52 && |length| == 8 && forall i :: 0 <= i < 52 ==> zeros[i] == 0
    requires forall i :: 0 <= i < 8 ==> length[i] == if i == 7 then 24 else 0
    ensures AbcBlock(b)
  {
    assert b[63] == length[7];
  }

  lemma LengthBytes()
    ensures forall i :: 0 <= i < 8 ==> BigEndian(24, 8)[i] == if i == 7 then 24 else 0
  {
    forall i | 0 <= i < 8 ensures BigEndian(24, 8)[i] == if i == 7 then 24 else 0 { Length(7 - i); }
  }

  lemma Length(k: nat)
    requires k <= 7
    ensures LowByte(Shr(24, k)) == if k == 0 then 24 else 0
  {
    NothingLeft(k - 1);
  }

  lemma {:induction false} NothingLeft(k: int)
    ensures k >= 0 ==> Shr(0, k) == 0
    decreases k
  {
    if k > 0 { NothingLeft(k - 1); }
  }

  predicate Scheduled(b: Bytes, t: nat, w: bv32) {
    |b| == 64 && Schedule(b, t) == w
  }

  lemma WordOf(b: Bytes, t: nat, b0: byte, b1: byte, b2: byte, b3: byte, w: bv32)
    requires |b| == 64 && t < 16 && b[4 * t] == b0 && b[4 * t + 1] == b1 && b[4 * t + 2] == b2 && b[4 * t + 3] == b3
    requires (b0 as bv32 << 24) | (b1 as bv32 << 16) | (b2 as bv32 << 8) | (b3 as bv32) == w
    ensures Scheduled(b, t, w)
  {
  }

  lemma FirstWords(b: Bytes)
    requires AbcBlock(b)
    ensures Scheduled(b, 0, 0x61626380) && Scheduled(b, 15, 0x00000018)
    ensures forall t :: 0 < t < 15 ==> Scheduled(b, t, 0)
  {
    hide Scheduled;
    forall t | 0 < t < 15 ensures Scheduled(b, t, 0) { WordOf(b, t, 0, 0, 0, 0, 0); }
    WordOf(b, 0, 97, 98, 99, 128, 0x61626380);
    WordOf(b, 15, 0, 0, 0, 24, 0x00000018);
  }

  // ---- one step ----

  lemma Extends(b: Bytes, t: nat, w16: bv32, w15: bv32, w7: bv32, w2: bv32, w: bv32)
    requires t >= 16 && Scheduled(b, t - 16, w16) && Scheduled(b, t - 15, w15)
    requires Scheduled(b, t - 7, w7) && Scheduled(b, t - 2, w2) && ScheduleSum(w16, w15, w7, w2) == w
    ensures Scheduled(b, t, w)
  {
    hide ScheduleSum;
  }

  /** Consecutive words of the schedule. */
  predicate Row(b: Bytes, t: nat, ws: seq<bv32>) {
    forall i {:trigger ws[i]} :: 0 <= i < |ws| ==> Scheduled(b, t + i, ws[i])
  }

  lemma RowOf(x: Bytes, t: nat, a: bv32, b: bv32, c: bv32, d: bv32, e: bv32, f: bv32, g: bv32, h: bv32)
    ensures Row(x, t, [a, b, c, d, e, f, g, h]) <==>
      && Scheduled(x, t, a) && Scheduled(x, t + 1, b) && Scheduled(x, t + 2, c) && Scheduled(x, t + 3, d)
      && Scheduled(x, t + 4, e) && Scheduled(x, t + 5, f) && Scheduled(x, t + 6, g) && Scheduled(x, t + 7, h)
  {
    hide Scheduled;
    var ws := [a, b, c, d, e, f, g, h];
    if Row(x, t, ws) {
      assert Scheduled(x, t + 0, ws[0]) && Scheduled(x, t + 1, ws[1]) && Scheduled(x, t + 2, ws[2]);
      assert Scheduled(x, t + 3, ws[3]) && Scheduled(x, t + 4, ws[4]) && Scheduled(x, t + 5, ws[5]);
      assert Scheduled(x, t + 6, ws[6]) && Scheduled(x, t + 7, ws[7]);
    }
  }

  predicate Reached(b: Bytes, t: nat, s: Words) {
    |b| == 64 && Rounds(b, Initial(), t) == s
  }

  lemma Turns(b: Bytes, t: nat, s: Words, k: bv32, w: bv32, s': Words)
    requires Reached(b, t, s) && Constant(t) == k && Scheduled(b, t, w) && Round(s, k, w) == s'
    ensures Reached(b, t + 1, s')
  {
    hide Round, Constant, Schedule, Initial;
  }

  lemma Words0(b: Bytes)
    requires AbcBlock(b)
    ensures Row(b, 0,
      [0x61626380, 0x00000000, 0x00000000, 0x00000000, 0x00000000, 0x00000000, 0x00000000, 0x00000000])
  {
    hide Scheduled, Row, AbcBlock;
    FirstWords(b);
    RowOf(b, 0, 0x61626380, 0x00000000, 0x00000000, 0x00000000,
          0x00000000, 0x00000000, 0x00000000, 0x00000000);
  }

  lemma Words8(b: Bytes)
    requires AbcBlock(b)
    ensures Row(b, 8,
      [0x00000000, 0x00000000, 0x00000000, 0x00000000, 0x00000000, 0x00000000, 0x00000000, 0x00000018])
  {
    hide Scheduled, Row, AbcBlock;
    FirstWords(b);
    RowOf(b, 8, 0x00000000, 0x00000000, 0x00000000, 0x00000000,
          0x00000000, 0x00000000, 0x00000000, 0x00000018);
  }

  lemma Words16(b: Bytes)
    requires AbcBlock(b)
    ensures Row(b, 16,
      [0x61626380, 0x000f0000, 0x7da86405, 0x600003c6, 0x3e9d7b78, 0x0183fc00, 0x12dcbfdb, 0xe2e2c38e])
  {
    hide Scheduled, Row, AbcBlock;
    Words0(b);
    RowOf(b, 0, 0x61626380, 0x00000000, 0x00000000, 0x00000000,
          0x00000000, 0x00000000, 0x00000000, 0x00000000);
    Words8(b);
    RowOf(b, 8, 0x00000000, 0x00000000, 0x00000000, 0x00000000,
          0x00000000, 0x00000000, 0x00000000, 0x00000018);
    Extends(b, 16, 0x61626380, 0x00000000, 0x00000000, 0x00000000, 0x61626380);
    Extends(b, 17, 0x00000000, 0x00000000, 0x00000000, 0x00000018, 0x000f0000);
    Extends(b, 18, 0x00000000, 0x00000000, 0x00000000, 0x61626380, 0x7da86405);
    Extends(b, 19, 0x00000000, 0x00000000, 0x00000000, 0x000f0000, 0x600003c6);
    Extends(b, 20, 0x00000000, 0x00000000, 0x00000000, 0x7da86405, 0x3e9d7b78);
    Extends(b, 21, 0x00000000, 0x00000000, 0x00000000, 0x600003c6, 0x0183fc00);
    Extends(b, 22, 0x00000000, 0x00000000, 0x00000018, 0x3e9d7b78, 0x12dcbfdb);
    Extends(b, 23, 0x00000000, 0x00000000, 0x61626380, 0x0183fc00, 0xe2e2c38e);
    RowOf(b, 16, 0x61626380, 0x000f0000, 0x7da86405, 0x600003c6,
          0x3e9d7b78, 0x0183fc00, 0x12dcbfdb, 0xe2e2c38e);
  }

  lemma Words24(b: Bytes)
    requires AbcBlock(b)
    ensures Row(b, 24,
      [0xc8215c1a, 0xb73679a2, 0xe5bc3909, 0x32663c5b, 0x9d209d67, 0xec8726cb, 0x702138a4, 0xd3b7973b])
  {
    hide Scheduled, Row, AbcBlock;
    Words8(b);
    RowOf(b, 8, 0x00000000, 0x00000000, 0x00000000, 0x00000000,
          0x00000000, 0x00000000, 0x00000000, 0x00000018);
    Words16(b);
    RowOf(b, 16, 0x61626380, 0x000f0000, 0x7da86405, 0x600003c6,
          0x3e9d7b78, 0x0183fc00, 0x12dcbfdb, 0xe2e2c38e);
    Extends(b, 24, 0x00000000, 0x00000000, 0x000f0000, 0x12dcbfdb, 0xc8215c1a);
    Extends(b, 25, 0x00000000, 0x00000000, 0x7da86405, 0xe2e2c38e, 0xb73679a2);
    Extends(b, 26, 0x00000000, 0x00000000, 0x600003c6, 0xc8215c1a, 0xe5bc3909);
    Extends(b, 27, 0x00000000, 0x00000000, 0x3e9d7b78, 0xb73679a2, 0x32663c5b);
    Extends(b, 28, 0x00000000, 0x00000000, 0x0183fc00, 0xe5bc3909, 0x9d209d67);
    Extends(b, 29, 0x00000000, 0x00000000, 0x12dcbfdb, 0x32663c5b, 0xec8726cb);
    Extends(b, 30, 0x00000000, 0x00000018, 0xe2e2c38e, 0x9d209d67, 0x702138a4);
    Extends(b, 31, 0x00000018, 0x61626380, 0xc8215c1a, 0xec8726cb, 0xd3b7973b);
    RowOf(b, 24, 0xc8215c1a, 0xb73679a2, 0xe5bc3909, 0x32663c5b,
          0x9d209d67, 0xec8726cb, 0x702138a4, 0xd3b7973b);
  }

  lemma Words32(b: Bytes)
    requires AbcBlock(b)
    ensures Row(b, 32,
      [0x93f5997f, 0x3b68ba73, 0xaff4ffc1, 0xf10a5c62, 0x0a8b3996, 0x72af830a, 0x9409e33e, 0x24641522])
  {
    hide Scheduled, Row, AbcBlock;
    Words16(b);
    RowOf(b, 16, 0x61626380, 0x000f0000, 0x7da86405, 0x600003c6,
          0x3e9d7b78, 0x0183fc00, 0x12dcbfdb, 0xe2e2c38e);
    Words24(b);
    RowOf(b, 24, 0xc8215c1a, 0xb73679a2, 0xe5bc3909, 0x32663c5b,
          0x9d209d67, 0xec8726cb, 0x702138a4, 0xd3b7973b);
    Extends(b, 32, 0x61626380, 0x000f0000, 0xb73679a2, 0x702138a4, 0x93f5997f);
    Extends(b, 33, 0x000f0000, 0x7da86405, 0xe5bc3909, 0xd3b7973b, 0x3b68ba73);
    Extends(b, 34, 0x7da86405, 0x600003c6, 0x32663c5b, 0x93f5997f, 0xaff4ffc1);
    Extends(b, 35, 0x600003c6, 0x3e9d7b78, 0x9d209d67, 0x3b68ba73, 0xf10a5c62);
    Extends(b, 36, 0x3e9d7b78, 0x0183fc00, 0xec8726cb, 0xaff4ffc1, 0x0a8b3996);
    Extends(b, 37, 0x0183fc00, 0x12dcbfdb, 0x702138a4, 0xf10a5c62, 0x72af830a);
    Extends(b, 38, 0x12dcbfdb, 0xe2e2c38e, 0xd3b7973b, 0x0a8b3996, 0x9409e33e);
    Extends(b, 39, 0xe2e2c38e, 0xc8215c1a, 0x93f5997f, 0x72af830a, 0x24641522);
    RowOf(b, 32, 0x93f5997f, 0x3b68ba73, 0xaff4ffc1, 0xf10a5c62,
          0x0a8b3996, 0x72af830a, 0x9409e33e, 0x24641522);
  }

  lemma Words40(b: Bytes)
    requires AbcBlock(b)
    ensures Row(b, 40,
      [0x9f47bf94, 0xf0a64f5a, 0x3e246a79, 0x27333ba3, 0x0c4763f2, 0x840abf27, 0x7a290d5d, 0x065c43da])
  {
    hide Scheduled, Row, AbcBlock;
    Words24(b);
    RowOf(b, 24, 0xc8215c1a, 0xb73679a2, 0xe5bc3909, 0x32663c5b,
          0x9d209d67, 0xec8726cb, 0x702138a4, 0xd3b7973b);
    Words32(b);
    RowOf(b, 32, 0x93f5997f, 0x3b68ba73, 0xaff4ffc1, 0xf10a5c62,
          0x0a8b3996, 0x72af830a, 0x9409e33e, 0x24641522);
    Extends(b, 40, 0xc8215c1a, 0xb73679a2, 0x3b68ba73, 0x9409e33e, 0x9f47bf94);
    Extends(b, 41, 0xb73679a2, 0xe5bc3909, 0xaff4ffc1, 0x24641522, 0xf0a64f5a);
    Extends(b, 42, 0xe5bc3909, 0x32663c5b, 0xf10a5c62, 0x9f47bf94, 0x3e246a79);
    Extends(b, 43, 0x32663c5b, 0x9d209d67, 0x0a8b3996, 0xf0a64f5a, 0x27333ba3);
    Extends(b, 44, 0x9d209d67, 0xec8726cb, 0x72af830a, 0x3e246a79, 0x0c4763f2);
    Extends(b, 45, 0xec8726cb, 0x702138a4, 0x9409e33e, 0x27333ba3, 0x840abf27);
    Extends(b, 46, 0x702138a4, 0xd3b7973b, 0x24641522, 0x0c4763f2, 0x7a290d5d);
    Extends(b, 47, 0xd3b7973b, 0x93f5997f, 0x9f47bf94, 0x840abf27, 0x065c43da);
    RowOf(b, 40, 0x9f47bf94, 0xf0a64f5a, 0x3e246a79, 0x27333ba3,
          0x0c4763f2, 0x840abf27, 0x7a290d5d, 0x065c43da);
  }

  lemma Words48(b: Bytes)
    requires AbcBlock(b)
    ensures Row(b, 48,
      [0xfb3e89cb, 0xcc7617db, 0xb9e66c34, 0xa9993667, 0x84badedd, 0xc21462bc, 0x1487472c, 0xb20f7a99])
  {
    hide Scheduled, Row, AbcBlock;
    Words32(b);
    RowOf(b, 32, 0x93f5997f, 0x3b68ba73, 0xaff4ffc1, 0xf10a5c62,
          0x0a8b3996, 0x72af830a, 0x9409e33e, 0x24641522);
    Words40(b);
    RowOf(b, 40, 0x9f47bf94, 0xf0a64f5a, 0x3e246a79, 0x27333ba3,
          0x0c4763f2, 0x840abf27, 0x7a290d5d, 0x065c43da);
    Extends(b, 48, 0x93f5997f, 0x3b68ba73, 0xf0a64f5a, 0x7a290d5d, 0xfb3e89cb);
    Extends(b, 49, 0x3b68ba73, 0xaff4ffc1, 0x3e246a79, 0x065c43da, 0xcc7617db);
    Extends(b, 50, 0xaff4ffc1, 0xf10a5c62, 0x27333ba3, 0xfb3e89cb, 0xb9e66c34);
    Extends(b, 51, 0xf10a5c62, 0x0a8b3996, 0x0c4763f2, 0xcc7617db, 0xa9993667);
    Extends(b, 52, 0x0a8b3996, 0x72af830a, 0x840abf27, 0xb9e66c34, 0x84badedd);
    Extends(b, 53, 0x72af830a, 0x9409e33e, 0x7a290d5d, 0xa9993667, 0xc21462bc);
    Extends(b, 54, 0x9409e33e, 0x24641522, 0x065c43da, 0x84badedd, 0x1487472c);
    Extends(b, 55, 0x24641522, 0x9f47bf94, 0xfb3e89cb, 0xc21462bc, 0xb20f7a99);
    RowOf(b, 48, 0xfb3e89cb, 0xcc7617db, 0xb9e66c34, 0xa9993667,
          0x84badedd, 0xc21462bc, 0x1487472c, 0xb20f7a99);
  }

  lemma Words56(b: Bytes)
    requires AbcBlock(b)
    ensures Row(b, 56,
      [0xef57b9cd, 0xebe6b238, 0x9fe3095e, 0x78bc8d4b, 0xa43fcf15, 0x668b2ff8, 0xeeaba2cc, 0x12b1edeb])
  {
    hide Scheduled, Row, AbcBlock;
    Words40(b);
    RowOf(b, 40, 0x9f47bf94, 0xf0a64f5a, 0x3e246a79, 0x27333ba3,
          0x0c4763f2, 0x840abf27, 0x7a290d5d, 0x065c43da);
    Words48(b);
    RowOf(b, 48, 0xfb3e89cb, 0xcc7617db, 0xb9e66c34, 0xa9993667,
          0x84badedd, 0xc21462bc, 0x1487472c, 0xb20f7a99);
    Extends(b, 56, 0x9f47bf94, 0xf0a64f5a, 0xcc7617db, 0x1487472c, 0xef57b9cd);
    Extends(b, 57, 0xf0a64f5a, 0x3e246a79, 0xb9e66c34, 0xb20f7a99, 0xebe6b238);
    Extends(b, 58, 0x3e246a79, 0x27333ba3, 0xa9993667, 0xef57b9cd, 0x9fe3095e);
    Extends(b, 59, 0x27333ba3, 0x0c4763f2, 0x84badedd, 0xebe6b238, 0x78bc8d4b);
    Extends(b, 60, 0x0c4763f2, 0x840abf27, 0xc21462bc, 0x9fe3095e, 0xa43fcf15);
    Extends(b, 61, 0x840abf27, 0x7a290d5d, 0x1487472c, 0x78bc8d4b, 0x668b2ff8);
    Extends(b, 62, 0x7a290d5d, 0x065c43da, 0xb20f7a99, 0xa43fcf15, 0xeeaba2cc);
    Extends(b, 63, 0x065c43da, 0xfb3e89cb, 0xef57b9cd, 0x668b2ff8, 0x12b1edeb);
    RowOf(b, 56, 0xef57b9cd, 0xebe6b238, 0x9fe3095e, 0x78bc8d4b,
          0xa43fcf15, 0x668b2ff8, 0xeeaba2cc, 0x12b1edeb);
  }

  lemma Rounds0(b: Bytes)
    requires AbcBlock(b)
    ensures Reached(b, 8,
      Words(0x85a07b5f, 0xe5030380, 0x2b4209f5, 0x04409a6a, 0x0c657a79, 0x9b27a401, 0x714260ad, 0x43ada245))
  {
    hide Scheduled, Row, Reached, Constant, AbcBlock;
    Constants0();
    Words0(b);
    RowOf(b, 0, 0x61626380, 0x00000000, 0x00000000, 0x00000000,
          0x00000000, 0x00000000, 0x00000000, 0x00000000);
    AtFirst(b);
    Turns(b, 0, Words(0x6a09e667, 0xbb67ae85, 0x3c6ef372, 0xa54ff53a, 0x510e527f, 0x9b05688c, 0x1f83d9ab, 0x5be0cd19),
          0x428a2f98, 0x61626380,
          Words(0x5d6aebcd, 0x6a09e667, 0xbb67ae85, 0x3c6ef372, 0xfa2a4622, 0x510e527f, 0x9b05688c, 0x1f83d9ab));
    Turns(b, 1, Words(0x5d6aebcd, 0x6a09e667, 0xbb67ae85, 0x3c6ef372, 0xfa2a4622, 0x510e527f, 0x9b05688c, 0x1f83d9ab),
          0x71374491, 0x00000000,
          Words(0x5a6ad9ad, 0x5d6aebcd, 0x6a09e667, 0xbb67ae85, 0x78ce7989, 0xfa2a4622, 0x510e527f, 0x9b05688c));
    Turns(b, 2, Words(0x5a6ad9ad, 0x5d6aebcd, 0x6a09e667, 0xbb67ae85, 0x78ce7989, 0xfa2a4622, 0x510e527f, 0x9b05688c),
          0xb5c0fbcf, 0x00000000,
          Words(0xc8c347a7, 0x5a6ad9ad, 0x5d6aebcd, 0x6a09e667, 0xf92939eb, 0x78ce7989, 0xfa2a4622, 0x510e527f));
    Turns(b, 3, Words(0xc8c347a7, 0x5a6ad9ad, 0x5d6aebcd, 0x6a09e667, 0xf92939eb, 0x78ce7989, 0xfa2a4622, 0x510e527f),
          0xe9b5dba5, 0x00000000,
          Words(0xd550f666, 0xc8c347a7, 0x5a6ad9ad, 0x5d6aebcd, 0x24e00850, 0xf92939eb, 0x78ce7989, 0xfa2a4622));
    Turns(b, 4, Words(0xd550f666, 0xc8c347a7, 0x5a6ad9ad, 0x5d6aebcd, 0x24e00850, 0xf92939eb, 0x78ce7989, 0xfa2a4622),
          0x3956c25b, 0x00000000,
          Words(0x04409a6a, 0xd550f666, 0xc8c347a7, 0x5a6ad9ad, 0x43ada245, 0x24e00850, 0xf92939eb, 0x78ce7989));
    Turns(b, 5, Words(0x04409a6a, 0xd550f666, 0xc8c347a7, 0x5a6ad9ad, 0x43ada245, 0x24e00850, 0xf92939eb, 0x78ce7989),
          0x59f111f1, 0x00000000,
          Words(0x2b4209f5, 0x04409a6a, 0xd550f666, 0xc8c347a7, 0x714260ad, 0x43ada245, 0x24e00850, 0xf92939eb));
    Turns(b, 6, Words(0x2b4209f5, 0x04409a6a, 0xd550f666, 0xc8c347a7, 0x714260ad, 0x43ada245, 0x24e00850, 0xf92939eb),
          0x923f82a4, 0x00000000,
          Words(0xe5030380, 0x2b4209f5, 0x04409a6a, 0xd550f666, 0x9b27a401, 0x714260ad, 0x43ada245, 0x24e00850));
    Turns(b, 7, Words(0xe5030380, 0x2b4209f5, 0x04409a6a, 0xd550f666, 0x9b27a401, 0x714260ad, 0x43ada245, 0x24e00850),
          0xab1c5ed5, 0x00000000,
          Words(0x85a07b5f, 0xe5030380, 0x2b4209f5, 0x04409a6a, 0x0c657a79, 0x9b27a401, 0x714260ad, 0x43ada245));
  }

  lemma Constants0()
    ensures Constant(0) == 0x428a2f98 && Constant(1) == 0x71374491
    ensures Constant(2) == 0xb5c0fbcf && Constant(3) == 0xe9b5dba5
    ensures Constant(4) == 0x3956c25b && Constant(5) == 0x59f111f1
    ensures Constant(6) == 0x923f82a4 && Constant(7) == 0xab1c5ed5
  {
  }

  lemma Rounds8(b: Bytes)
    requires AbcBlock(b)
    ensures Reached(b, 16,
      Words(0xb0fa238e, 0xc0645fde, 0xd932eb16, 0x87912990, 0x07590dcd, 0x0b92f20c, 0x745a48de, 0x1e578218))
  {
    hide Scheduled, Row, Reached, Constant, AbcBlock;
    Constants8();
    Words8(b);
    RowOf(b, 8, 0x00000000, 0x00000000, 0x00000000, 0x00000000,
          0x00000000, 0x00000000, 0x00000000, 0x00000018);
    Rounds0(b);
    Turns(b, 8, Words(0x85a07b5f, 0xe5030380, 0x2b4209f5, 0x04409a6a, 0x0c657a79, 0x9b27a401, 0x714260ad, 0x43ada245),
          0xd807aa98, 0x00000000,
          Words(0x8e04ecb9, 0x85a07b5f, 0xe5030380, 0x2b4209f5, 0x32ca2d8c, 0x0c657a79, 0x9b27a401, 0x714260ad));
    Turns(b, 9, Words(0x8e04ecb9, 0x85a07b5f, 0xe5030380, 0x2b4209f5, 0x32ca2d8c, 0x0c657a79, 0x9b27a401, 0x714260ad),
          0x12835b01, 0x00000000,
          Words(0x8c87346b, 0x8e04ecb9, 0x85a07b5f, 0xe5030380, 0x1cc92596, 0x32ca2d8c, 0x0c657a79, 0x9b27a401));
    Turns(b, 10, Words(0x8c87346b, 0x8e04ecb9, 0x85a07b5f, 0xe5030380, 0x1cc92596, 0x32ca2d8c, 0x0c657a79, 0x9b27a401),
          0x243185be, 0x00000000,
          Words(0x4798a3f4, 0x8c87346b, 0x8e04ecb9, 0x85a07b5f, 0x436b23e8, 0x1cc92596, 0x32ca2d8c, 0x0c657a79));
    Turns(b, 11, Words(0x4798a3f4, 0x8c87346b, 0x8e04ecb9, 0x85a07b5f, 0x436b23e8, 0x1cc92596, 0x32ca2d8c, 0x0c657a79),
          0x550c7dc3, 0x00000000,
          Words(0xf71fc5a9, 0x4798a3f4, 0x8c87346b, 0x8e04ecb9, 0x816fd6e9, 0x436b23e8, 0x1cc92596, 0x32ca2d8c));
    Turns(b, 12, Words(0xf71fc5a9, 0x4798a3f4, 0x8c87346b, 0x8e04ecb9, 0x816fd6e9, 0x436b23e8, 0x1cc92596, 0x32ca2d8c),
          0x72be5d74, 0x00000000,
          Words(0x87912990, 0xf71fc5a9, 0x4798a3f4, 0x8c87346b, 0x1e578218, 0x816fd6e9, 0x436b23e8, 0x1cc92596));
    Turns(b, 13, Words(0x87912990, 0xf71fc5a9, 0x4798a3f4, 0x8c87346b, 0x1e578218, 0x816fd6e9, 0x436b23e8, 0x1cc92596),
          0x80deb1fe, 0x00000000,
          Words(0xd932eb16, 0x87912990, 0xf71fc5a9, 0x4798a3f4, 0x745a48de, 0x1e578218, 0x816fd6e9, 0x436b23e8));
    Turns(b, 14, Words(0xd932eb16, 0x87912990, 0xf71fc5a9, 0x4798a3f4, 0x745a48de, 0x1e578218, 0x816fd6e9, 0x436b23e8),
          0x9bdc06a7, 0x00000000,
          Words(0xc0645fde, 0xd932eb16, 0x87912990, 0xf71fc5a9, 0x0b92f20c, 0x745a48de, 0x1e578218, 0x816fd6e9));
    Turns(b, 15, Words(0xc0645fde, 0xd932eb16, 0x87912990, 0xf71fc5a9, 0x0b92f20c, 0x745a48de, 0x1e578218, 0x816fd6e9),
          0xc19bf174, 0x00000018,
          Words(0xb0fa238e, 0xc0645fde, 0xd932eb16, 0x87912990, 0x07590dcd, 0x0b92f20c, 0x745a48de, 0x1e578218));
  }

  lemma Constants8()
    ensures Constant(8) == 0xd807aa98 && Constant(9) == 0x12835b01
    ensures Constant(10) == 0x243185be && Constant(11) == 0x550c7dc3
    ensures Constant(12) == 0x72be5d74 && Constant(13) == 0x80deb1fe
    ensures Constant(14) == 0x9bdc06a7 && Constant(15) == 0xc19bf174
  {
  }

  lemma Rounds16(b: Bytes)
    requires AbcBlock(b)
    ensures Reached(b, 24,
      Words(0xc5d53d8d, 0xa7a3623f, 0xc2606d6d, 0x9dc68b63, 0xaa47c347, 0x49f5114a, 0xe1257970, 0x8ada8930))
  {
    hide Scheduled, Row, Reached, Constant, AbcBlock;
    Constants16();
    Words16(b);
    RowOf(b, 16, 0x61626380, 0x000f0000, 0x7da86405, 0x600003c6,
          0x3e9d7b78, 0x0183fc00, 0x12dcbfdb, 0xe2e2c38e);
    Rounds8(b);
    Turns(b, 16, Words(0xb0fa238e, 0xc0645fde, 0xd932eb16, 0x87912990, 0x07590dcd, 0x0b92f20c, 0x745a48de, 0x1e578218),
          0xe49b69c1, 0x61626380,
          Words(0x21da9a9b, 0xb0fa238e, 0xc0645fde, 0xd932eb16, 0x8034229c, 0x07590dcd, 0x0b92f20c, 0x745a48de));
    Turns(b, 17, Words(0x21da9a9b, 0xb0fa238e, 0xc0645fde, 0xd932eb16, 0x8034229c, 0x07590dcd, 0x0b92f20c, 0x745a48de),
          0xefbe4786, 0x000f0000,
          Words(0xc2fbd9d1, 0x21da9a9b, 0xb0fa238e, 0xc0645fde, 0x846ee454, 0x8034229c, 0x07590dcd, 0x0b92f20c));
    Turns(b, 18, Words(0xc2fbd9d1, 0x21da9a9b, 0xb0fa238e, 0xc0645fde, 0x846ee454, 0x8034229c, 0x07590dcd, 0x0b92f20c),
          0x0fc19dc6, 0x7da86405,
          Words(0xfe777bbf, 0xc2fbd9d1, 0x21da9a9b, 0xb0fa238e, 0xcc899961, 0x846ee454, 0x8034229c, 0x07590dcd));
    Turns(b, 19, Words(0xfe777bbf, 0xc2fbd9d1, 0x21da9a9b, 0xb0fa238e, 0xcc899961, 0x846ee454, 0x8034229c, 0x07590dcd),
          0x240ca1cc, 0x600003c6,
          Words(0xe1f20c33, 0xfe777bbf, 0xc2fbd9d1, 0x21da9a9b, 0xb0638179, 0xcc899961, 0x846ee454, 0x8034229c));
    Turns(b, 20, Words(0xe1f20c33, 0xfe777bbf, 0xc2fbd9d1, 0x21da9a9b, 0xb0638179, 0xcc899961, 0x846ee454, 0x8034229c),
          0x2de92c6f, 0x3e9d7b78,
          Words(0x9dc68b63, 0xe1f20c33, 0xfe777bbf, 0xc2fbd9d1, 0x8ada8930, 0xb0638179, 0xcc899961, 0x846ee454));
    Turns(b, 21, Words(0x9dc68b63, 0xe1f20c33, 0xfe777bbf, 0xc2fbd9d1, 0x8ada8930, 0xb0638179, 0xcc899961, 0x846ee454),
          0x4a7484aa, 0x0183fc00,
          Words(0xc2606d6d, 0x9dc68b63, 0xe1f20c33, 0xfe777bbf, 0xe1257970, 0x8ada8930, 0xb0638179, 0xcc899961));
    Turns(b, 22, Words(0xc2606d6d, 0x9dc68b63, 0xe1f20c33, 0xfe777bbf, 0xe1257970, 0x8ada8930, 0xb0638179, 0xcc899961),
          0x5cb0a9dc, 0x12dcbfdb,
          Words(0xa7a3623f, 0xc2606d6d, 0x9dc68b63, 0xe1f20c33, 0x49f5114a, 0xe1257970, 0x8ada8930, 0xb0638179));
    Turns(b, 23, Words(0xa7a3623f, 0xc2606d6d, 0x9dc68b63, 0xe1f20c33, 0x49f5114a, 0xe1257970, 0x8ada8930, 0xb0638179),
          0x76f988da, 0xe2e2c38e,
          Words(0xc5d53d8d, 0xa7a3623f, 0xc2606d6d, 0x9dc68b63, 0xaa47c347, 0x49f5114a, 0xe1257970, 0x8ada8930));
  }

  lemma Constants16()
    ensures Constant(16) == 0xe49b69c1 && Constant(17) == 0xefbe4786
    ensures Constant(18) == 0x0fc19dc6 && Constant(19) == 0x240ca1cc
    ensures Constant(20) == 0x2de92c6f && Constant(21) == 0x4a7484aa
    ensures Constant(22) == 0x5cb0a9dc && Constant(23) == 0x76f988da
  {
  }

  lemma Rounds24(b: Bytes)
    requires AbcBlock(b)
    ensures Reached(b, 32,
      Words(0x73b33bf5, 0xea992a22, 0xa0060b30, 0x363482c9, 0xba591112, 0x0109ab3a, 0xade79437, 0x6112a3b7))
  {
    hide Scheduled, Row, Reached, Constant, AbcBlock;
    Constants24();
    Words24(b);
    RowOf(b, 24, 0xc8215c1a, 0xb73679a2, 0xe5bc3909, 0x32663c5b,
          0x9d209d67, 0xec8726cb, 0x702138a4, 0xd3b7973b);
    Rounds16(b);
    Turns(b, 24, Words(0xc5d53d8d, 0xa7a3623f, 0xc2606d6d, 0x9dc68b63, 0xaa47c347, 0x49f5114a, 0xe1257970, 0x8ada8930),
          0x983e5152, 0xc8215c1a,
          Words(0x1c2c2838, 0xc5d53d8d, 0xa7a3623f, 0xc2606d6d, 0x2823ef91, 0xaa47c347, 0x49f5114a, 0xe1257970));
    Turns(b, 25, Words(0x1c2c2838, 0xc5d53d8d, 0xa7a3623f, 0xc2606d6d, 0x2823ef91, 0xaa47c347, 0x49f5114a, 0xe1257970),
          0xa831c66d, 0xb73679a2,
          Words(0xcde8037d, 0x1c2c2838, 0xc5d53d8d, 0xa7a3623f, 0x14383d8e, 0x2823ef91, 0xaa47c347, 0x49f5114a));
    Turns(b, 26, Words(0xcde8037d, 0x1c2c2838, 0xc5d53d8d, 0xa7a3623f, 0x14383d8e, 0x2823ef91, 0xaa47c347, 0x49f5114a),
          0xb00327c8, 0xe5bc3909,
          Words(0xb62ec4bc, 0xcde8037d, 0x1c2c2838, 0xc5d53d8d, 0xc74c6516, 0x14383d8e, 0x2823ef91, 0xaa47c347));
    Turns(b, 27, Words(0xb62ec4bc, 0xcde8037d, 0x1c2c2838, 0xc5d53d8d, 0xc74c6516, 0x14383d8e, 0x2823ef91, 0xaa47c347),
          0xbf597fc7, 0x32663c5b,
          Words(0x77d37528, 0xb62ec4bc, 0xcde8037d, 0x1c2c2838, 0xedffbff8, 0xc74c6516, 0x14383d8e, 0x2823ef91));
    Turns(b, 28, Words(0x77d37528, 0xb62ec4bc, 0xcde8037d, 0x1c2c2838, 0xedffbff8, 0xc74c6516, 0x14383d8e, 0x2823ef91),
          0xc6e00bf3, 0x9d209d67,
          Words(0x363482c9, 0x77d37528, 0xb62ec4bc, 0xcde8037d, 0x6112a3b7, 0xedffbff8, 0xc74c6516, 0x14383d8e));
    Turns(b, 29, Words(0x363482c9, 0x77d37528, 0xb62ec4bc, 0xcde8037d, 0x6112a3b7, 0xedffbff8, 0xc74c6516, 0x14383d8e),
          0xd5a79147, 0xec8726cb,
          Words(0xa0060b30, 0x363482c9, 0x77d37528, 0xb62ec4bc, 0xade79437, 0x6112a3b7, 0xedffbff8, 0xc74c6516));
    Turns(b, 30, Words(0xa0060b30, 0x363482c9, 0x77d37528, 0xb62ec4bc, 0xade79437, 0x6112a3b7, 0xedffbff8, 0xc74c6516),
          0x06ca6351, 0x702138a4,
          Words(0xea992a22, 0xa0060b30, 0x363482c9, 0x77d37528, 0x0109ab3a, 0xade79437, 0x6112a3b7, 0xedffbff8));
    Turns(b, 31, Words(0xea992a22, 0xa0060b30, 0x363482c9, 0x77d37528, 0x0109ab3a, 0xade79437, 0x6112a3b7, 0xedffbff8),
          0x14292967, 0xd3b7973b,
          Words(0x73b33bf5, 0xea992a22, 0xa0060b30, 0x363482c9, 0xba591112, 0x0109ab3a, 0xade79437, 0x6112a3b7));
  }

  lemma Constants24()
    ensures Constant(24) == 0x983e5152 && Constant(25) == 0xa831c66d
    ensures Constant(26) == 0xb00327c8 && Constant(27) == 0xbf597fc7
    ensures Constant(28) == 0xc6e00bf3 && Constant(29) == 0xd5a79147
    ensures Constant(30) == 0x06ca6351 && Constant(31) == 0x14292967
  {
  }

  lemma Rounds32(b: Bytes)
    requires AbcBlock(b)
    ensures Reached(b, 40,
      Words(0x79ea687a, 0x6dc57a8a, 0x34df1604, 0x41a65cb1, 0x1efbc0a0, 0xf0781bc8, 0xa507a53d, 0x0772a26b))
  {
    hide Scheduled, Row, Reached, Constant, AbcBlock;
    Constants32();
    Words32(b);
    RowOf(b, 32, 0x93f5997f, 0x3b68ba73, 0xaff4ffc1, 0xf10a5c62,
          0x0a8b3996, 0x72af830a, 0x9409e33e, 0x24641522);
    Rounds24(b);
    Turns(b, 32, Words(0x73b33bf5, 0xea992a22, 0xa0060b30, 0x363482c9, 0xba591112, 0x0109ab3a, 0xade79437, 0x6112a3b7),
          0x27b70a85, 0x93f5997f,
          Words(0x98e12507, 0x73b33bf5, 0xea992a22, 0xa0060b30, 0x9cd9f5f6, 0xba591112, 0x0109ab3a, 0xade79437));
    Turns(b, 33, Words(0x98e12507, 0x73b33bf5, 0xea992a22, 0xa0060b30, 0x9cd9f5f6, 0xba591112, 0x0109ab3a, 0xade79437),
          0x2e1b2138, 0x3b68ba73,
          Words(0xfe604df5, 0x98e12507, 0x73b33bf5, 0xea992a22, 0x59249dd3, 0x9cd9f5f6, 0xba591112, 0x0109ab3a));
    Turns(b, 34, Words(0xfe604df5, 0x98e12507, 0x73b33bf5, 0xea992a22, 0x59249dd3, 0x9cd9f5f6, 0xba591112, 0x0109ab3a),
          0x4d2c6dfc, 0xaff4ffc1,
          Words(0xa9a7738c, 0xfe604df5, 0x98e12507, 0x73b33bf5, 0x085f3833, 0x59249dd3, 0x9cd9f5f6, 0xba591112));
    Turns(b, 35, Words(0xa9a7738c, 0xfe604df5, 0x98e12507, 0x73b33bf5, 0x085f3833, 0x59249dd3, 0x9cd9f5f6, 0xba591112),
          0x53380d13, 0xf10a5c62,
          Words(0x65a0cfe4, 0xa9a7738c, 0xfe604df5, 0x98e12507, 0xf4b002d6, 0x085f3833, 0x59249dd3, 0x9cd9f5f6));
    Turns(b, 36, Words(0x65a0cfe4, 0xa9a7738c, 0xfe604df5, 0x98e12507, 0xf4b002d6, 0x085f3833, 0x59249dd3, 0x9cd9f5f6),
          0x650a7354, 0x0a8b3996,
          Words(0x41a65cb1, 0x65a0cfe4, 0xa9a7738c, 0xfe604df5, 0x0772a26b, 0xf4b002d6, 0x085f3833, 0x59249dd3));
    Turns(b, 37, Words(0x41a65cb1, 0x65a0cfe4, 0xa9a7738c, 0xfe604df5, 0x0772a26b, 0xf4b002d6, 0x085f3833, 0x59249dd3),
          0x766a0abb, 0x72af830a,
          Words(0x34df1604, 0x41a65cb1, 0x65a0cfe4, 0xa9a7738c, 0xa507a53d, 0x0772a26b, 0xf4b002d6, 0x085f3833));
    Turns(b, 38, Words(0x34df1604, 0x41a65cb1, 0x65a0cfe4, 0xa9a7738c, 0xa507a53d, 0x0772a26b, 0xf4b002d6, 0x085f3833),
          0x81c2c92e, 0x9409e33e,
          Words(0x6dc57a8a, 0x34df1604, 0x41a65cb1, 0x65a0cfe4, 0xf0781bc8, 0xa507a53d, 0x0772a26b, 0xf4b002d6));
    Turns(b, 39, Words(0x6dc57a8a, 0x34df1604, 0x41a65cb1, 0x65a0cfe4, 0xf0781bc8, 0xa507a53d, 0x0772a26b, 0xf4b002d6),
          0x92722c85, 0x24641522,
          Words(0x79ea687a, 0x6dc57a8a, 0x34df1604, 0x41a65cb1, 0x1efbc0a0, 0xf0781bc8, 0xa507a53d, 0x0772a26b));
  }

  lemma Constants32()
    ensures Constant(32) == 0x27b70a85 && Constant(33) == 0x2e1b2138
    ensures Constant(34) == 0x4d2c6dfc && Constant(35) == 0x53380d13
    ensures Constant(36) == 0x650a7354 && Constant(37) == 0x766a0abb
    ensures Constant(38) == 0x81c2c92e && Constant(39) == 0x92722c85
  {
  }

  lemma Rounds40(b: Bytes)
    requires AbcBlock(b)
    ensures Reached(b, 48,
      Words(0x4172328d, 0xa14c14b0, 0x72ab4b91, 0x26628815, 0xfecf0bc6, 0xd57b94a9, 0xb7755da1, 0xa80f11f0))
  {
    hide Scheduled, Row, Reached, Constant, AbcBlock;
    Constants40();
    Words40(b);
    RowOf(b, 40, 0x9f47bf94, 0xf0a64f5a, 0x3e246a79, 0x27333ba3,
          0x0c4763f2, 0x840abf27, 0x7a290d5d, 0x065c43da);
    Rounds32(b);
    Turns(b, 40, Words(0x79ea687a, 0x6dc57a8a, 0x34df1604, 0x41a65cb1, 0x1efbc0a0, 0xf0781bc8, 0xa507a53d, 0x0772a26b),
          0xa2bfe8a1, 0x9f47bf94,
          Words(0xd6670766, 0x79ea687a, 0x6dc57a8a, 0x34df1604, 0x26352d63, 0x1efbc0a0, 0xf0781bc8, 0xa507a53d));
    Turns(b, 41, Words(0xd6670766, 0x79ea687a, 0x6dc57a8a, 0x34df1604, 0x26352d63, 0x1efbc0a0, 0xf0781bc8, 0xa507a53d),
          0xa81a664b, 0xf0a64f5a,
          Words(0xdf46652f, 0xd6670766, 0x79ea687a, 0x6dc57a8a, 0x838b2711, 0x26352d63, 0x1efbc0a0, 0xf0781bc8));
    Turns(b, 42, Words(0xdf46652f, 0xd6670766, 0x79ea687a, 0x6dc57a8a, 0x838b2711, 0x26352d63, 0x1efbc0a0, 0xf0781bc8),
          0xc24b8b70, 0x3e246a79,
          Words(0x17aa0dfe, 0xdf46652f, 0xd6670766, 0x79ea687a, 0xdecd4715, 0x838b2711, 0x26352d63, 0x1efbc0a0));
    Turns(b, 43, Words(0x17aa0dfe, 0xdf46652f, 0xd6670766, 0x79ea687a, 0xdecd4715, 0x838b2711, 0x26352d63, 0x1efbc0a0),
          0xc76c51a3, 0x27333ba3,
          Words(0x9d4baf93, 0x17aa0dfe, 0xdf46652f, 0xd6670766, 0xfda24c2e, 0xdecd4715, 0x838b2711, 0x26352d63));
    Turns(b, 44, Words(0x9d4baf93, 0x17aa0dfe, 0xdf46652f, 0xd6670766, 0xfda24c2e, 0xdecd4715, 0x838b2711, 0x26352d63),
          0xd192e819, 0x0c4763f2,
          Words(0x26628815, 0x9d4baf93, 0x17aa0dfe, 0xdf46652f, 0xa80f11f0, 0xfda24c2e, 0xdecd4715, 0x838b2711));
    Turns(b, 45, Words(0x26628815, 0x9d4baf93, 0x17aa0dfe, 0xdf46652f, 0xa80f11f0, 0xfda24c2e, 0xdecd4715, 0x838b2711),
          0xd6990624, 0x840abf27,
          Words(0x72ab4b91, 0x26628815, 0x9d4baf93, 0x17aa0dfe, 0xb7755da1, 0xa80f11f0, 0xfda24c2e, 0xdecd4715));
    Turns(b, 46, Words(0x72ab4b91, 0x26628815, 0x9d4baf93, 0x17aa0dfe, 0xb7755da1, 0xa80f11f0, 0xfda24c2e, 0xdecd4715),
          0xf40e3585, 0x7a290d5d,
          Words(0xa14c14b0, 0x72ab4b91, 0x26628815, 0x9d4baf93, 0xd57b94a9, 0xb7755da1, 0xa80f11f0, 0xfda24c2e));
    Turns(b, 47, Words(0xa14c14b0, 0x72ab4b91, 0x26628815, 0x9d4baf93, 0xd57b94a9, 0xb7755da1, 0xa80f11f0, 0xfda24c2e),
          0x106aa070, 0x065c43da,
          Words(0x4172328d, 0xa14c14b0, 0x72ab4b91, 0x26628815, 0xfecf0bc6, 0xd57b94a9, 0xb7755da1, 0xa80f11f0));
  }

  lemma Constants40()
    ensures Constant(40) == 0xa2bfe8a1 && Constant(41) == 0xa81a664b
    ensures Constant(42) == 0xc24b8b70 && Constant(43) == 0xc76c51a3
    ensures Constant(44) == 0xd192e819 && Constant(45) == 0xd6990624
    ensures Constant(46) == 0xf40e3585 && Constant(47) == 0x106aa070
  {
  }

  lemma Rounds48(b: Bytes)
    requires AbcBlock(b)
    ensures Reached(b, 56,
      Words(0x38cc9913, 0x3ec45cdb, 0xf5702fdb, 0x101fd28f, 0x54cb266b, 0xe50e1b4f, 0x9f4787c3, 0x529e7d00))
  {
    hide Scheduled, Row, Reached, Constant, AbcBlock;
    Constants48();
    Words48(b);
    RowOf(b, 48, 0xfb3e89cb, 0xcc7617db, 0xb9e66c34, 0xa9993667,
          0x84badedd, 0xc21462bc, 0x1487472c, 0xb20f7a99);
    Rounds40(b);
    Turns(b, 48, Words(0x4172328d, 0xa14c14b0, 0x72ab4b91, 0x26628815, 0xfecf0bc6, 0xd57b94a9, 0xb7755da1, 0xa80f11f0),
          0x19a4c116, 0xfb3e89cb,
          Words(0x05757ceb, 0x4172328d, 0xa14c14b0, 0x72ab4b91, 0xbd714038, 0xfecf0bc6, 0xd57b94a9, 0xb7755da1));
    Turns(b, 49, Words(0x05757ceb, 0x4172328d, 0xa14c14b0, 0x72ab4b91, 0xbd714038, 0xfecf0bc6, 0xd57b94a9, 0xb7755da1),
          0x1e376c08, 0xcc7617db,
          Words(0xf11bfaa8, 0x05757ceb, 0x4172328d, 0xa14c14b0, 0x6e5c390c, 0xbd714038, 0xfecf0bc6, 0xd57b94a9));
    Turns(b, 50, Words(0xf11bfaa8, 0x05757ceb, 0x4172328d, 0xa14c14b0, 0x6e5c390c, 0xbd714038, 0xfecf0bc6, 0xd57b94a9),
          0x2748774c, 0xb9e66c34,
          Words(0x7a0508a1, 0xf11bfaa8, 0x05757ceb, 0x4172328d, 0x52f1ccf7, 0x6e5c390c, 0xbd714038, 0xfecf0bc6));
    Turns(b, 51, Words(0x7a0508a1, 0xf11bfaa8, 0x05757ceb, 0x4172328d, 0x52f1ccf7, 0x6e5c390c, 0xbd714038, 0xfecf0bc6),
          0x34b0bcb5, 0xa9993667,
          Words(0x886e7a22, 0x7a0508a1, 0xf11bfaa8, 0x05757ceb, 0x49231c1e, 0x52f1ccf7, 0x6e5c390c, 0xbd714038));
    Turns(b, 52, Words(0x886e7a22, 0x7a0508a1, 0xf11bfaa8, 0x05757ceb, 0x49231c1e, 0x52f1ccf7, 0x6e5c390c, 0xbd714038),
          0x391c0cb3, 0x84badedd,
          Words(0x101fd28f, 0x886e7a22, 0x7a0508a1, 0xf11bfaa8, 0x529e7d00, 0x49231c1e, 0x52f1ccf7, 0x6e5c390c));
    Turns(b, 53, Words(0x101fd28f, 0x886e7a22, 0x7a0508a1, 0xf11bfaa8, 0x529e7d00, 0x49231c1e, 0x52f1ccf7, 0x6e5c390c),
          0x4ed8aa4a, 0xc21462bc,
          Words(0xf5702fdb, 0x101fd28f, 0x886e7a22, 0x7a0508a1, 0x9f4787c3, 0x529e7d00, 0x49231c1e, 0x52f1ccf7));
    Turns(b, 54, Words(0xf5702fdb, 0x101fd28f, 0x886e7a22, 0x7a0508a1, 0x9f4787c3, 0x529e7d00, 0x49231c1e, 0x52f1ccf7),
          0x5b9cca4f, 0x1487472c,
          Words(0x3ec45cdb, 0xf5702fdb, 0x101fd28f, 0x886e7a22, 0xe50e1b4f, 0x9f4787c3, 0x529e7d00, 0x49231c1e));
    Turns(b, 55, Words(0x3ec45cdb, 0xf5702fdb, 0x101fd28f, 0x886e7a22, 0xe50e1b4f, 0x9f4787c3, 0x529e7d00, 0x49231c1e),
          0x682e6ff3, 0xb20f7a99,
          Words(0x38cc9913, 0x3ec45cdb, 0xf5702fdb, 0x101fd28f, 0x54cb266b, 0xe50e1b4f, 0x9f4787c3, 0x529e7d00));
  }

  lemma Constants48()
    ensures Constant(48) == 0x19a4c116 && Constant(49) == 0x1e376c08
    ensures Constant(50) == 0x2748774c && Constant(51) == 0x34b0bcb5
    ensures Constant(52) == 0x391c0cb3 && Constant(53) == 0x4ed8aa4a
    ensures Constant(54) == 0x5b9cca4f && Constant(55) == 0x682e6ff3
  {
  }

  lemma Rounds56(b: Bytes)
    requires AbcBlock(b)
    ensures Reached(b, 64,
      Words(0x506e3058, 0xd39a2165, 0x04d24d6c, 0xb85e2ce9, 0x5ef50f24, 0xfb121210, 0x948d25b6, 0x961f4894))
  {
    hide Scheduled, Row, Reached, Constant, AbcBlock;
    Constants56();
    Words56(b);
    RowOf(b, 56, 0xef57b9cd, 0xebe6b238, 0x9fe3095e, 0x78bc8d4b,
          0xa43fcf15, 0x668b2ff8, 0xeeaba2cc, 0x12b1edeb);
    Rounds48(b);
    Turns(b, 56, Words(0x38cc9913, 0x3ec45cdb, 0xf5702fdb, 0x101fd28f, 0x54cb266b, 0xe50e1b4f, 0x9f4787c3, 0x529e7d00),
          0x748f82ee, 0xef57b9cd,
          Words(0xfcd1887b, 0x38cc9913, 0x3ec45cdb, 0xf5702fdb, 0x9b5e906c, 0x54cb266b, 0xe50e1b4f, 0x9f4787c3));
    Turns(b, 57, Words(0xfcd1887b, 0x38cc9913, 0x3ec45cdb, 0xf5702fdb, 0x9b5e906c, 0x54cb266b, 0xe50e1b4f, 0x9f4787c3),
          0x78a5636f, 0xebe6b238,
          Words(0xc062d46f, 0xfcd1887b, 0x38cc9913, 0x3ec45cdb, 0x7e44008e, 0x9b5e906c, 0x54cb266b, 0xe50e1b4f));
    Turns(b, 58, Words(0xc062d46f, 0xfcd1887b, 0x38cc9913, 0x3ec45cdb, 0x7e44008e, 0x9b5e906c, 0x54cb266b, 0xe50e1b4f),
          0x84c87814, 0x9fe3095e,
          Words(0xffb70472, 0xc062d46f, 0xfcd1887b, 0x38cc9913, 0x6d83bfc6, 0x7e44008e, 0x9b5e906c, 0x54cb266b));
    Turns(b, 59, Words(0xffb70472, 0xc062d46f, 0xfcd1887b, 0x38cc9913, 0x6d83bfc6, 0x7e44008e, 0x9b5e906c, 0x54cb266b),
          0x8cc70208, 0x78bc8d4b,
          Words(0xb6ae8fff, 0xffb70472, 0xc062d46f, 0xfcd1887b, 0xb21bad3d, 0x6d83bfc6, 0x7e44008e, 0x9b5e906c));
    Turns(b, 60, Words(0xb6ae8fff, 0xffb70472, 0xc062d46f, 0xfcd1887b, 0xb21bad3d, 0x6d83bfc6, 0x7e44008e, 0x9b5e906c),
          0x90befffa, 0xa43fcf15,
          Words(0xb85e2ce9, 0xb6ae8fff, 0xffb70472, 0xc062d46f, 0x961f4894, 0xb21bad3d, 0x6d83bfc6, 0x7e44008e));
    Turns(b, 61, Words(0xb85e2ce9, 0xb6ae8fff, 0xffb70472, 0xc062d46f, 0x961f4894, 0xb21bad3d, 0x6d83bfc6, 0x7e44008e),
          0xa4506ceb, 0x668b2ff8,
          Words(0x04d24d6c, 0xb85e2ce9, 0xb6ae8fff, 0xffb70472, 0x948d25b6, 0x961f4894, 0xb21bad3d, 0x6d83bfc6));
    Turns(b, 62, Words(0x04d24d6c, 0xb85e2ce9, 0xb6ae8fff, 0xffb70472, 0x948d25b6, 0x961f4894, 0xb21bad3d, 0x6d83bfc6),
          0xbef9a3f7, 0xeeaba2cc,
          Words(0xd39a2165, 0x04d24d6c, 0xb85e2ce9, 0xb6ae8fff, 0xfb121210, 0x948d25b6, 0x961f4894, 0xb21bad3d));
    Turns(b, 63, Words(0xd39a2165, 0x04d24d6c, 0xb85e2ce9, 0xb6ae8fff, 0xfb121210, 0x948d25b6, 0x961f4894, 0xb21bad3d),
          0xc67178f2, 0x12b1edeb,
          Words(0x506e3058, 0xd39a2165, 0x04d24d6c, 0xb85e2ce9, 0x5ef50f24, 0xfb121210, 0x948d25b6, 0x961f4894));
  }

  lemma Constants56()
    ensures Constant(56) == 0x748f82ee && Constant(57) == 0x78a5636f
    ensures Constant(58) == 0x84c87814 && Constant(59) == 0x8cc70208
    ensures Constant(60) == 0x90befffa && Constant(61) == 0xa4506ceb
    ensures Constant(62) == 0xbef9a3f7 && Constant(63) == 0xc67178f2
  {
  }

  lemma AtFirst(b: Bytes)
    requires AbcBlock(b)
    ensures Reached(b, 0,
      Words(0x6a09e667, 0xbb67ae85, 0x3c6ef372, 0xa54ff53a, 0x510e527f, 0x9b05688c, 0x1f83d9ab, 0x5be0cd19))
  {
  }

  /** The hash of "abc" that the standard gives. */
  lemma AbcHash(m: Bytes)
    requires m == [97, 98, 99]
    ensures HashBlocks(Pad(m)) ==
      Words(0xba7816bf, 0x8f01cfea, 0x414140de, 0x5dae2223, 0xb00361a3, 0x96177a9c, 0xb410ff61, 0xf20015ad)
  {
    hide AbcBlock, HashBlocks, Pad, Reached;
    PadIs(m);
    var b := Pad(m);
    Rounds56(b);
    OneBlock(b, Words(0x506e3058, 0xd39a2165, 0x04d24d6c, 0xb85e2ce9, 0x5ef50f24, 0xfb121210, 0x948d25b6, 0x961f4894));
  }

  lemma OneBlock(b: Bytes, s: Words)
    requires AbcBlock(b) && Reached(b, 64, s)
    ensures HashBlocks(b) == Add(Initial(), s)
  {
    hide Rounds, Initial, Add;
    assert AllButLast(b) == [] && LastBlock(b) == b;
  }

  /** Its first and its last word in bytes. */
  lemma AbcBytes(s: Words)
    requires s.a == 0xba7816bf && s.h == 0xf20015ad
    ensures DigestBytes(s)[0] == 0xba && DigestBytes(s)[1] == 0x78
    ensures DigestBytes(s)[2] == 0x16 && DigestBytes(s)[3] == 0xbf
    ensures DigestBytes(s)[28] == 0xf2 && DigestBytes(s)[29] == 0x00
    ensures DigestBytes(s)[30] == 0x15 && DigestBytes(s)[31] == 0xad
  {
  }
}
