/** The hash of FIPS 180-4, sections 5.1.1 (padding), 5.3.3 (initial value) and
    6.2.2 (computation), on messages of whole bytes. */
module Sha256Standard {
  type byte = b: int | 0 <= b < 256

  type Bytes = seq<byte>

  datatype Words = Words(a: bv32, b: bv32, c: bv32, d: bv32, e: bv32, f: bv32, g: bv32, h: bv32)

  function Constants(): seq<bv32> {
    [0x428a2f98, 0x71374491, 0xb5c0fbcf, 0xe9b5dba5, 0x3956c25b, 0x59f111f1, 0x923f82a4, 0xab1c5ed5]
    + [0xd807aa98, 0x12835b01, 0x243185be, 0x550c7dc3, 0x72be5d74, 0x80deb1fe, 0x9bdc06a7, 0xc19bf174]
    + [0xe49b69c1, 0xefbe4786, 0x0fc19dc6, 0x240ca1cc, 0x2de92c6f, 0x4a7484aa, 0x5cb0a9dc, 0x76f988da]
    + [0x983e5152, 0xa831c66d, 0xb00327c8, 0xbf597fc7, 0xc6e00bf3, 0xd5a79147, 0x06ca6351, 0x14292967]
    + [0x27b70a85, 0x2e1b2138, 0x4d2c6dfc, 0x53380d13, 0x650a7354, 0x766a0abb, 0x81c2c92e, 0x92722c85]
    + [0xa2bfe8a1, 0xa81a664b, 0xc24b8b70, 0xc76c51a3, 0xd192e819, 0xd6990624, 0xf40e3585, 0x106aa070]
    + [0x19a4c116, 0x1e376c08, 0x2748774c, 0x34b0bcb5, 0x391c0cb3, 0x4ed8aa4a, 0x5b9cca4f, 0x682e6ff3]
    + [0x748f82ee, 0x78a5636f, 0x84c87814, 0x8cc70208, 0x90befffa, 0xa4506ceb, 0xbef9a3f7, 0xc67178f2]
  }

  function Constant(t: nat): bv32 {
    if t < |Constants()| then Constants()[t] else 0
  }

  function Initial(): Words {
    Words(0x6a09e667, 0xbb67ae85, 0x3c6ef372, 0xa54ff53a, 0x510e527f, 0x9b05688c, 0x1f83d9ab, 0x5be0cd19)
  }

  /** Addition modulo 2^32. */
  function Plus(x: bv32, y: bv32): bv32 {
    x + y
  }

  function Rotr(x: bv32, n: bv6): bv32
    requires 0 < n < 32
  {
    (x >> n) | (x << (32 - n))
  }

  function Sigma0(x: bv32): bv32 {
    Rotr(x, 2) ^ Rotr(x, 13) ^ Rotr(x, 22)
  }

  function Sigma1(x: bv32): bv32 {
    Rotr(x, 6) ^ Rotr(x, 11) ^ Rotr(x, 25)
  }

  function SmallSigma0(x: bv32): bv32 {
    Rotr(x, 7) ^ Rotr(x, 18) ^ (x >> 3)
  }

  function SmallSigma1(x: bv32): bv32 {
    Rotr(x, 17) ^ Rotr(x, 19) ^ (x >> 10)
  }

  function Ch(x: bv32, y: bv32, z: bv32): bv32 {
    (x & y) ^ (!x & z)
  }

  function Maj(x: bv32, y: bv32, z: bv32): bv32 {
    (x & y) ^ (x & z) ^ (y & z)
  }

  function Word(block: Bytes, i: nat): bv32
    requires 4 * i + 4 <= |block|
  {
    (block[4 * i] as bv32 << 24) | (block[4 * i + 1] as bv32 << 16)
      | (block[4 * i + 2] as bv32 << 8) | block[4 * i + 3] as bv32
  }

  function ScheduleSum(w16: bv32, w15: bv32, w7: bv32, w2: bv32): bv32 {
    Plus(Plus(Plus(w16, SmallSigma0(w15)), w7), SmallSigma1(w2))
  }

  /** The message schedule. */
  function Schedule(block: Bytes, t: nat): bv32
    requires |block| == 64
  {
    if t < 16 then Word(block, t)
    else ScheduleSum(Schedule(block, t - 16), Schedule(block, t - 15), Schedule(block, t - 7), Schedule(block, t - 2))
  }

  function Round(s: Words, k: bv32, w: bv32): Words {
    var t1 := Plus(Plus(Plus(Plus(s.h, Sigma1(s.e)), Ch(s.e, s.f, s.g)), k), w);
    var t2 := Plus(Sigma0(s.a), Maj(s.a, s.b, s.c));
    Words(Plus(t1, t2), s.a, s.b, s.c, Plus(s.d, t1), s.e, s.f, s.g)
  }

  function Rounds(block: Bytes, s: Words, t: nat): Words
    requires |block| == 64
  {
    if t == 0 then s else Round(Rounds(block, s, t - 1), Constant(t - 1), Schedule(block, t - 1))
  }

  function Add(s: Words, t: Words): Words {
    Words(Plus(s.a, t.a), Plus(s.b, t.b), Plus(s.c, t.c), Plus(s.d, t.d),
          Plus(s.e, t.e), Plus(s.f, t.f), Plus(s.g, t.g), Plus(s.h, t.h))
  }

  function Compress(s: Words, block: Bytes): Words
    requires |block| == 64
  {
    Add(s, Rounds(block, s, 64))
  }

  /** The intermediate hash value behind all whole blocks. */
  function HashBlocks(m: Bytes): Words
    requires |m| % 64 == 0
  {
    if m == [] then Initial() else Compress(HashBlocks(AllButLast(m)), LastBlock(m))
  }

  function Zeros(n: nat): (r: Bytes)
    ensures |r| == n && forall i :: 0 <= i < n ==> r[i] == 0
  {
    seq(n, i => 0)
  }

  /** A number without its low `k` bytes. */
  function Shr(v: nat, k: nat): nat {
    if k == 0 then v else Shr(v / 256, k - 1)
  }

  function LowByte(v: nat): byte {
    v % 256
  }

  /** A number as `n` bytes, most significant first. */
  function BigEndian(v: nat, n: nat): (r: Bytes)
    ensures |r| == n && forall i :: 0 <= i < n ==> r[i] == LowByte(Shr(v, n - 1 - i))
  {
    seq(n, i requires 0 <= i < n => LowByte(Shr(v, n - 1 - i)))
  }

  /** The least number of zero bytes that leaves eight bytes of a block. */
  function PadZeros(length: nat): (k: nat)
    ensures k < 64 && (length + 1 + k) % 64 == 56
  {
    (119 - length % 64) % 64
  }

  /** The message, a one bit, zeros, and the length in bits in eight bytes. */
  function Pad(m: Bytes): (r: Bytes)
    ensures |r| % 64 == 0 && |r| >= 64
  {
    m + [0x80] + Zeros(PadZeros(|m|)) + BigEndian(8 * |m|, 8)
  }

  function AllButLast(m: Bytes): (r: Bytes)
    requires |m| % 64 == 0 && |m| >= 64
    ensures |r| % 64 == 0
  {
    m[..|m| - 64]
  }

  function LastBlock(m: Bytes): (r: Bytes)
    requires |m| % 64 == 0 && |m| >= 64
    ensures |r| == 64
  {
    m[|m| - 64..]
  }

  function ByteOf(w: bv32, j: nat): byte
    requires j < 4
  {
    ((w >> (24 - 8 * j)) & 0xFF) as bv8 as int
  }

  function WordAt(s: Words, k: nat): bv32
    requires k < 8
  {
    match k
    case 0 => s.a
    case 1 => s.b
    case 2 => s.c
    case 3 => s.d
    case 4 => s.e
    case 5 => s.f
    case 6 => s.g
    case _ => s.h
  }

  function Digest(m: Bytes): (r: Bytes)
    ensures |r| == 32
  {
    DigestBytes(HashBlocks(Pad(m)))
  }

  function DigestBytes(s: Words): (r: Bytes)
    ensures |r| == 32
  {
    seq(32, i requires 0 <= i < 32 => ByteOf(WordAt(s, i / 4), i % 4))
  }
}

/** The streaming implementation. */
module Sha256 {
  import opened Sha256Standard

  const TWO64: nat := 0x1_0000_0000_0000_0000

  class Sha256State {
    const data: array<byte>
    var datalen: nat
    var bitlen: nat
    const state: array<bv32>

    /** Everything that was passed to `Update`. */
    ghost var message: Bytes

    constructor ()
      ensures Valid() && message == [] && fresh(data) && fresh(state)
    {
      hide *;
      data := new byte[64];
      datalen, bitlen := 0, 0;
      state := new bv32[8];
      message := [];
      new;
      SetInitial();
      InitiallyValid(this);
    }

    method SetInitial()
      requires state.Length == 8
      modifies state
      ensures Hash() == Initial()
    {
      state[0] := 0x6a09e667;
      state[1] := 0xbb67ae85;
      state[2] := 0x3c6ef372;
      state[3] := 0xa54ff53a;
      state[4] := 0x510e527f;
      state[5] := 0x9b05688c;
      state[6] := 0x1f83d9ab;
      state[7] := 0x5be0cd19;
    }

    ghost function Hash(): Words
      requires state.Length == 8
      reads state
    {
      Words(state[0], state[1], state[2], state[3], state[4], state[5], state[6], state[7])
    }

    /** The bytes behind the last whole block wait in `data`; the blocks before
        have gone into `state` and been counted. */
    ghost predicate Valid()
      reads this, data, state
    {
      && data.Length == 64 && state.Length == 8
      && datalen == |message| % 64
      && data[..datalen] == message[|message| - datalen..]
      && Hash() == HashBlocks(message[..|message| - datalen])
      && bitlen == 8 * (|message| - datalen) % TWO64
    }

    /** Mixes the block in `data` into `state`. */
    method Transform()
      requires data.Length == 64 && state.Length == 8
      modifies state
      ensures Hash() == Compress(old(Hash()), data[..])
    {
      var m := ComputeSchedule();
      Mix(m, data[..]);
    }

    method ComputeSchedule() returns (m: array<bv32>)
      requires data.Length == 64
      ensures fresh(m) && m.Length == 64 && forall j :: 0 <= j < 64 ==> m[j] == Schedule(data[..], j)
    {
      hide SmallSigma0, SmallSigma1, Plus, Compress, Word;
      m := new bv32[64];
      for i := 0 to 16
        invariant forall j :: 0 <= j < i ==> m[j] == Schedule(data[..], j)
      {
        m[i] := LoadWord(i);
      }
      for i := 16 to 64
        invariant forall j :: 0 <= j < i ==> m[j] == Schedule(data[..], j)
      {
        m[i] := Plus(Plus(Plus(m[i - 16], SmallSigma0(m[i - 15])), m[i - 7]), SmallSigma1(m[i - 2]));
      }
    }

    method LoadWord(i: nat) returns (w: bv32)
      requires data.Length == 64 && i < 16
      ensures w == Word(data[..], i)
    {
      var j := 4 * i;
      w := (data[j] as bv32 << 24) | (data[j + 1] as bv32 << 16) | (data[j + 2] as bv32 << 8) | data[j + 3] as bv32;
    }

    /** Adds what the rounds make of the hash value to it. */
    method Mix(m: array<bv32>, ghost block: Bytes)
      requires state.Length == 8 && m.Length == 64 && |block| == 64
      requires forall j :: 0 <= j < 64 ==> m[j] == Schedule(block, j)
      modifies state
      ensures Hash() == Compress(old(Hash()), block)
    {
      hide Schedule, Rounds, Plus;
      var a, b, c, d, e, f, g, h := RunRounds(m, block);
      state[0], state[1] := Plus(state[0], a), Plus(state[1], b);
      state[2], state[3] := Plus(state[2], c), Plus(state[3], d);
      state[4], state[5] := Plus(state[4], e), Plus(state[5], f);
      state[6], state[7] := Plus(state[6], g), Plus(state[7], h);
    }

    /** The sixty-four rounds. */
    method RunRounds(m: array<bv32>, ghost block: Bytes)
      returns (a: bv32, b: bv32, c: bv32, d: bv32, e: bv32, f: bv32, g: bv32, h: bv32)
      requires state.Length == 8 && m.Length == 64 && |block| == 64
      requires forall j :: 0 <= j < 64 ==> m[j] == Schedule(block, j)
      ensures Words(a, b, c, d, e, f, g, h) == Rounds(block, Hash(), 64)
    {
      hide Schedule, Sigma0, Sigma1, Ch, Maj, Constant, Constants, Plus;
      a, b, c, d := state[0], state[1], state[2], state[3];
      e, f, g, h := state[4], state[5], state[6], state[7];
      for i := 0 to 64
        invariant Words(a, b, c, d, e, f, g, h) == Rounds(block, Hash(), i)
      {
        var t1 := Plus(Plus(Plus(Plus(h, Sigma1(e)), Ch(e, f, g)), Constant(i)), m[i]);
        var t2 := Plus(Sigma0(a), Maj(a, b, c));
        h, g, f := g, f, e;
        e := Plus(d, t1);
        d, c, b := c, b, a;
        a := Plus(t1, t2);
      }
    }

    /** Takes in more of the message. */
    method Update(bytes: Bytes)
      requires Valid()
      modifies this, data, state
      ensures Valid() && message == old(message) + bytes
    {
      hide HashBlocks, Compress;
      for i := 0 to |bytes|
        invariant Valid() && message == old(message) + bytes[..i]
      {
        Absorb(bytes[i]);
        assert bytes[..i + 1] == bytes[..i] + [bytes[i]];
      }
      assert bytes[..|bytes|] == bytes;
    }

    method Absorb(b: byte)
      requires Valid()
      modifies this, data, state
      ensures Valid() && message == old(message) + [b]
    {
      hide HashBlocks, Compress;
      Append(b);
      if datalen == 64 {
        CloseBlock();
      }
    }

    method Append(b: byte)
      requires Valid()
      modifies this`datalen, this`message, data
      ensures message == old(message) + [b]
      ensures if datalen == 64 then BlockIsFull() else Valid()
    {
      hide HashBlocks, Compress;
      ghost var n := |message| - datalen;
      NextPlace(|message|, datalen);
      data[datalen] := b;
      datalen := datalen + 1;
      message := message + [b];
      assert message[..n] == old(message)[..n] && message[n..] == old(message)[n..] + [b];
      assert data[..datalen] == old(data[..datalen]) + [b];
      assert Hash() == old(Hash()) && n == |message| - datalen;
    }

    /** A full block: it goes into the hash value and is counted. */
    /** A whole block waits in `data` and must be mixed in. */
    ghost predicate BlockIsFull()
      reads this, data, state
    {
      && data.Length == 64 && state.Length == 8 && datalen == 64 <= |message| && |message| % 64 == 0
      && data[..64] == message[|message| - 64..]
      && Hash() == HashBlocks(message[..|message| - 64])
      && bitlen == 8 * (|message| - 64) % TWO64
    }

    method CloseBlock()
      requires BlockIsFull()
      modifies this`datalen, this`bitlen, state
      ensures Valid()
    {
      hide Compress, HashBlocks;
      ghost var n := |message| - 64;
      assert data[..] == data[..64];
      Transform();
      BlockDone(message, n, data[..]);
      bitlen := (bitlen + 512) % TWO64;
      CountBlock(n);
      datalen := 0;
      assert message[..|message|] == message;
    }

    /** The digest of everything taken in. */
    method Final() returns (digest: Bytes)
      requires Valid() && 8 * |message| < TWO64
      modifies this, data, state
      ensures digest == Digest(old(message))
    {
      hide HashBlocks, Compress, Pad, BigEndian, Constant, Constants, AllButLast, LastBlock, DigestBytes;
      ghost var m := message;
      LengthCounted(|m|);
      PadBlock();
      bitlen := (bitlen + datalen * 8) % TWO64;
      StoreLength();
      assert data[..] == LastBlock(Pad(m)) by { assert data[..] == data[..56] + data[56..]; LastBytes(m); }
      LastStep(Pad(m));
      Transform();
      digest := Output();
    }

    /** Appends the one bit and the zeros, through a block of its own if the length
        does not fit behind them. */
    method PadBlock()
      requires Valid()
      modifies data, state
      ensures Hash() == HashBlocks(AllButLast(Pad(message))) && data[..56] == LastBlock(Pad(message))[..56]
    {
      hide HashBlocks, Pad, LastBlock, AllButLast;
      if datalen < 56 {
        Fill(56);
        PadShort(message, datalen);
      } else {
        PadThrough();
      }
    }

    method PadThrough()
      requires Valid() && datalen >= 56
      modifies data, state
      ensures Hash() == HashBlocks(AllButLast(Pad(message))) && data[..56] == LastBlock(Pad(message))[..56]
    {
      hide HashBlocks, Compress, Pad, BigEndian, Constant, Constants;
      hide AllButLast, LastBlock;
      ghost var whole := |message| - datalen;
      ghost var block := message[whole..] + [0x80] + Zeros(63 - datalen);
      Fill(64);
      assert data[..] == data[..64] == block;
      PadLong(message, whole, datalen, data[..]);
      Transform();
      ClearBlock();
    }

    method ClearBlock()
      requires data.Length == 64
      modifies data
      ensures data[..56] == Zeros(56)
    {
      for i := 0 to 56
        invariant forall j :: 0 <= j < i ==> data[j] == 0
      {
        data[i] := 0;
      }
    }

    method Fill(end: nat)
      requires data.Length == 64 && datalen < end <= 64
      modifies data
      ensures data[..end] == old(data[..datalen]) + [0x80] + Zeros(end - datalen - 1)
    {
      data[datalen] := 0x80;
      var i := datalen + 1;
      while i < end
        invariant datalen < i <= end
        invariant data[..datalen] == old(data[..datalen]) && data[datalen] == 0x80
        invariant forall j :: datalen < j < i ==> data[j] == 0
      {
        data[i] := 0;
        i := i + 1;
      }
    }

    /** The length in bits, most significant byte first. */
    method StoreLength()
      requires data.Length == 64
      modifies data
      ensures data[..56] == old(data[..56]) && data[56..] == BigEndian(bitlen, 8)
    {
      hide LowByte, Shr;
      data[63] := LowByte(Shr(bitlen, 0));
      data[62] := LowByte(Shr(bitlen, 1));
      data[61] := LowByte(Shr(bitlen, 2));
      data[60] := LowByte(Shr(bitlen, 3));
      data[59] := LowByte(Shr(bitlen, 4));
      data[58] := LowByte(Shr(bitlen, 5));
      data[57] := LowByte(Shr(bitlen, 6));
      data[56] := LowByte(Shr(bitlen, 7));
    }

    /** The words of the state, most significant byte first. */
    method Output() returns (digest: Bytes)
      requires state.Length == 8
      ensures digest == DigestBytes(Hash())
    {
      hide ByteOf;
      var out := new byte[32];
      for j := 0 to 4
        invariant forall p :: 0 <= p < 32 && p % 4 < j ==> out[p] == ByteOf(state[p / 4], p % 4)
      {
        for k := 0 to 8
          invariant forall p :: 0 <= p < 32 && (p % 4 < j || (p % 4 == j && p / 4 < k)) ==>
            out[p] == ByteOf(state[p / 4], p % 4)
        {
          out[j + 4 * k] := ByteOf(state[k], j);
        }
      }
      digest := out[..];
      forall p | 0 <= p < 32 ensures digest[p] == ByteOf(WordAt(Hash(), p / 4), p % 4) {}
    }
  }

  const HEX := "0123456789abcdef"

  function HexPair(b: byte): string {
    [HEX[b / 16], HEX[b % 16]]
  }

  function Hex(bytes: Bytes): string {
    if bytes == [] then "" else HexPair(bytes[0]) + Hex(bytes[1..])
  }

  method ToHex(bytes: Bytes) returns (s: string)
    ensures s == "sha256:" + Hex(bytes)
  {
    hide HexPair;
    s := "sha256:";
    assert bytes[0..] == bytes;
    for i := 0 to |bytes|
      invariant s + Hex(bytes[i..]) == "sha256:" + Hex(bytes)
    {
      assert bytes[i..][1..] == bytes[i + 1..] && bytes[i..][0] == bytes[i];
      CatText(s, HexPair(bytes[i]), Hex(bytes[i + 1..]));
      s := s + HexPair(bytes[i]);
    }
  }

  lemma CatText(a: string, b: string, c: string)
    ensures (a + b) + c == a + (b + c)
  {
  }

  lemma CatBytes(a: Bytes, b: Bytes, c: Bytes)
    ensures (a + b) + c == a + (b + c)
  {
  }

  method Sha256Hex(bytes: Bytes) returns (s: string)
    requires 8 * |bytes| < TWO64
    ensures s == "sha256:" + Hex(Digest(bytes))
  {
    var st := new Sha256State();
    st.Update(bytes);
    assert [] + bytes == bytes;
    var digest := st.Final();
    s := ToHex(digest);
  }

  /** A file of a source tree; its contents arrive in pieces of any size. */
  datatype File = File(path: Bytes, pieces: seq<Bytes>)

  function Flatten(pieces: seq<Bytes>): Bytes {
    if pieces == [] then [] else pieces[0] + Flatten(pieces[1..])
  }

  /** Path and contents of every file, each closed by a zero byte. */
  function TreeBytes(files: seq<File>): Bytes {
    if files == [] then [] else FileBytes(files[0]) + TreeBytes(files[1..])
  }

  function FileBytes(file: File): Bytes {
    file.path + [0] + Flatten(file.pieces) + [0]
  }

  /** The hash of a list of files is the digest of their bytes, however the
      reads were cut. */
  method HashFiles(files: seq<File>) returns (s: string)
    requires 8 * |TreeBytes(files)| < TWO64
    ensures s == "sha256:" + Hex(Digest(TreeBytes(files)))
  {
    hide Digest, HashBlocks, FileBytes, Hex;
    var st := new Sha256State();
    assert files[0..] == files && st.message + TreeBytes(files) == TreeBytes(files);
    for i := 0 to |files|
      invariant st.Valid() && fresh(st) && fresh(st.data) && fresh(st.state)
      invariant st.message + TreeBytes(files[i..]) == TreeBytes(files)
    {
      assert files[i..][1..] == files[i + 1..] && files[i..][0] == files[i];
      CatBytes(st.message, FileBytes(files[i]), TreeBytes(files[i + 1..]));
      HashFile(st, files[i]);
    }
    assert files[|files|..] == [] && st.message + [] == st.message;
    var digest := st.Final();
    s := ToHex(digest);
  }

  method HashFile(st: Sha256State, file: File)
    requires st.Valid()
    modifies st, st.data, st.state
    ensures st.Valid() && st.message == old(st.message) + FileBytes(file)
  {
    hide HashBlocks, FileBytes, Flatten;
    FileCat(st.message, file);
    st.Update(file.path);
    st.Update([0]);
    UpdateAll(st, file.pieces);
    st.Update([0]);
  }

  lemma FileCat(m: Bytes, file: File)
    ensures m + file.path + [0] + Flatten(file.pieces) + [0] == m + FileBytes(file)
  {
    hide Flatten;
  }

  method UpdateAll(st: Sha256State, pieces: seq<Bytes>)
    requires st.Valid()
    modifies st, st.data, st.state
    ensures st.Valid() && st.message == old(st.message) + Flatten(pieces)
  {
    hide HashBlocks;
    assert pieces[0..] == pieces;
    for i := 0 to |pieces|
      invariant st.Valid() && st.message + Flatten(pieces[i..]) == old(st.message) + Flatten(pieces)
    {
      assert pieces[i..][1..] == pieces[i + 1..] && pieces[i..][0] == pieces[i];
      CatBytes(st.message, pieces[i], Flatten(pieces[i + 1..]));
      st.Update(pieces[i]);
    }
    assert pieces[|pieces|..] == [] && st.message + [] == st.message;
  }

  lemma LengthCounted(n: nat)
    requires 8 * n < TWO64
    ensures (8 * (n - n % 64) % TWO64 + n % 64 * 8) % TWO64 == 8 * n
  {
  }

  /** How the padding falls into blocks. */
  lemma PadShape(m: Bytes, d: nat)
    requires d == |m| % 64
    ensures var whole, tail, length := |m| - d, m[|m| - d..], BigEndian(8 * |m|, 8);
      && (d < 56 ==> Pad(m) == m[..whole] + (tail + [0x80] + Zeros(55 - d) + length))
      && (d >= 56 ==> Pad(m) == (m[..whole] + (tail + [0x80] + Zeros(63 - d))) + (Zeros(56) + length))
  {
    assert m == m[..|m| - d] + m[|m| - d..];
    if d < 56 {
      assert PadZeros(|m|) == 55 - d;
    } else {
      assert PadZeros(|m|) == 119 - d;
      assert Zeros(119 - d) == Zeros(63 - d) + Zeros(56);
    }
  }

  lemma PadShort(m: Bytes, d: nat)
    requires d == |m| % 64 && d < 56
    ensures AllButLast(Pad(m)) == m[..|m| - d]
    ensures LastBlock(Pad(m))[..56] == m[|m| - d..] + [0x80] + Zeros(55 - d)
  {
    hide Pad;
    PadShape(m, d);
  }

  lemma PadLong(m: Bytes, whole: nat, d: nat, block: Bytes)
    requires whole % 64 == 0 && |m| == whole + d && 56 <= d < 64
    requires |block| == 64 && block == m[whole..] + [0x80] + Zeros(63 - d)
    ensures HashBlocks(AllButLast(Pad(m))) == Compress(HashBlocks(m[..whole]), block)
    ensures LastBlock(Pad(m))[..56] == Zeros(56)
  {
    hide Pad, HashBlocks, Compress;
    PadShape(m, d);
    var first := m[..whole] + block;
    assert AllButLast(Pad(m)) == first;
    assert first[..whole] == m[..whole] && first[whole..] == block;
    BlockDone(first, whole, block);
  }

  lemma LastBytes(m: Bytes)
    ensures LastBlock(Pad(m)) == LastBlock(Pad(m))[..56] + BigEndian(8 * |m|, 8)
  {
    hide BigEndian;
  }

  lemma LastStep(m: Bytes)
    requires |m| % 64 == 0 && |m| >= 64
    ensures HashBlocks(m) == Compress(HashBlocks(AllButLast(m)), LastBlock(m))
  {
    hide Compress, Initial, AllButLast, LastBlock;
  }

  lemma InitiallyValid(s: Sha256State)
    requires s.data.Length == 64 && s.state.Length == 8 && s.datalen == 0 && s.bitlen == 0 && s.message == []
    requires s.Hash() == Initial()
    ensures s.Valid()
  {
    hide Initial, Compress;
    assert s.message[..0] == [] && s.data[..0] == [];
  }

  lemma BlockDone(m: Bytes, n: nat, block: Bytes)
    requires n % 64 == 0 && |m| == n + 64 && |block| == 64 && block == m[n..]
    ensures |m| % 64 == 0 && HashBlocks(m) == Compress(HashBlocks(m[..n]), block)
  {
    LastStep(m);
    hide HashBlocks, Compress;
    assert AllButLast(m) == m[..n] && LastBlock(m) == block;
  }

  lemma NextPlace(len: nat, place: nat)
    requires place == len % 64
    ensures if place == 63 then len + 1 >= 64 && (len + 1) % 64 == 0 else place + 1 == (len + 1) % 64
  {
  }

  lemma CountBlock(n: nat)
    ensures (8 * n % TWO64 + 512) % TWO64 == 8 * (n + 64) % TWO64
  {
  }
}
