/** Bytes and the numbers they stand for. */
module Bytes {
  type Byte = bv8

  lemma ByteReadsBack(n: nat)
    requires n < 256
    ensures n as Byte as nat == n
  {
  }
}

/**
 The incremental SHA-256 and HMAC of the C++ SDK (packages/sdk-cpp/src/hmac_sha256.cpp)
 against the one-shot definitions of FIPS 180-4 and RFC 2104.
 */
module Sha256Hash {
  import opened Bytes
  import opened Common

  type Word = bv32

  const TWO_TO_THE_64: nat := 0x1_0000_0000_0000_0000

  /** Unsigned 64-bit arithmetic wraps. */
  function Wrap64(n: nat): nat {
    n % TWO_TO_THE_64
  }

  lemma SmallWrap(n: nat)
    requires n < TWO_TO_THE_64
    ensures Wrap64(n) == n
  {
  }

  lemma WrapsRound(n: nat)
    ensures Wrap64(n) < 0x1_0000_0000_0000_0000 && Wrap64(n + 0x1_0000_0000_0000_0000) == Wrap64(n)
  {
  }

  // ------------------------------------------------------------------
  // FIPS 180-4: functions, constants and the compression of one block
  // ------------------------------------------------------------------

  function Rotr(value: Word, count: Word): Word
    requires 0 < count < 32
  {
    (value >> count) | (value << (32 - count))
  }

  /** Addition modulo 2 to the 32. */
  function Plus(x: Word, y: Word): Word { x + y }

  /** Section 4.1.2, equations 4.2 to 4.7. */
  function Ch(x: Word, y: Word, z: Word): Word { (x & y) ^ ((!x) & z) }
  function Maj(x: Word, y: Word, z: Word): Word { (x & y) ^ (x & z) ^ (y & z) }
  function BigSigma0(x: Word): Word { Rotr(x, 2) ^ Rotr(x, 13) ^ Rotr(x, 22) }
  function BigSigma1(x: Word): Word { Rotr(x, 6) ^ Rotr(x, 11) ^ Rotr(x, 25) }
  function SmallSigma0(x: Word): Word { Rotr(x, 7) ^ Rotr(x, 18) ^ (x >> 3) }
  function SmallSigma1(x: Word): Word { Rotr(x, 17) ^ Rotr(x, 19) ^ (x >> 10) }

  /** Section 4.2.2. */
  const K: seq<Word> :=
    [0x428a2f98, 0x71374491, 0xb5c0fbcf, 0xe9b5dba5, 0x3956c25b, 0x59f111f1, 0x923f82a4, 0xab1c5ed5] +
    [0xd807aa98, 0x12835b01, 0x243185be, 0x550c7dc3, 0x72be5d74, 0x80deb1fe, 0x9bdc06a7, 0xc19bf174] +
    [0xe49b69c1, 0xefbe4786, 0x0fc19dc6, 0x240ca1cc, 0x2de92c6f, 0x4a7484aa, 0x5cb0a9dc, 0x76f988da] +
    [0x983e5152, 0xa831c66d, 0xb00327c8, 0xbf597fc7, 0xc6e00bf3, 0xd5a79147, 0x06ca6351, 0x14292967] +
    [0x27b70a85, 0x2e1b2138, 0x4d2c6dfc, 0x53380d13, 0x650a7354, 0x766a0abb, 0x81c2c92e, 0x92722c85] +
    [0xa2bfe8a1, 0xa81a664b, 0xc24b8b70, 0xc76c51a3, 0xd192e819, 0xd6990624, 0xf40e3585, 0x106aa070] +
    [0x19a4c116, 0x1e376c08, 0x2748774c, 0x34b0bcb5, 0x391c0cb3, 0x4ed8aa4a, 0x5b9cca4f, 0x682e6ff3] +
    [0x748f82ee, 0x78a5636f, 0x84c87814, 0x8cc70208, 0x90befffa, 0xa4506ceb, 0xbef9a3f7, 0xc67178f2]

  function RoundConstant(t: nat): Word
    requires t < 64
  {
    K[t]
  }

  datatype Hash = Hash(a: Word, b: Word, c: Word, d: Word, e: Word, f: Word, g: Word, h: Word)

  /** Section 5.3.3. */
  const INITIAL := Hash(0x6a09e667, 0xbb67ae85, 0x3c6ef372, 0xa54ff53a, 0x510e527f, 0x9b05688c, 0x1f83d9ab, 0x5be0cd19)

  /** Big-endian word `t` of a block. */
  function MessageWord(block: seq<Byte>, t: nat): Word
    requires |block| == 64 && t < 16
  {
    ((block[4 * t] as Word) << 24) | ((block[4 * t + 1] as Word) << 16) | ((block[4 * t + 2] as Word) << 8)
    | (block[4 * t + 3] as Word)
  }

  /** Section 6.2.2, step 1: the message schedule. */
  function Schedule(block: seq<Byte>, t: nat): Word
    requires |block| == 64 && t < 64
  {
    if t < 16 then MessageWord(block, t)
    else NextWord(Schedule(block, t - 2), Schedule(block, t - 7), Schedule(block, t - 15), Schedule(block, t - 16))
  }

  /** The four terms of step 1, added in the source's order; addition modulo 2 to the 32 commutes. */
  function NextWord(w2: Word, w7: Word, w15: Word, w16: Word): Word {
    w16 + SmallSigma0(w15) + w7 + SmallSigma1(w2)
  }

  /** Step 3: one round. */
  function Temp1(e: Word, f: Word, g: Word, h: Word, k: Word, w: Word): Word {
    h + BigSigma1(e) + Ch(e, f, g) + k + w
  }

  function Temp2(a: Word, b: Word, c: Word): Word {
    BigSigma0(a) + Maj(a, b, c)
  }

  function Round(v: Hash, k: Word, w: Word): Hash {
    var t1, t2 := Temp1(v.e, v.f, v.g, v.h, k, w), Temp2(v.a, v.b, v.c);
    Hash(Plus(t1, t2), v.a, v.b, v.c, Plus(v.d, t1), v.e, v.f, v.g)
  }

  function Rounds(start: Hash, block: seq<Byte>, t: nat): Hash
    requires |block| == 64 && t <= 64
  {
    if t == 0 then start else Round(Rounds(start, block, t - 1), RoundConstant(t - 1), Schedule(block, t - 1))
  }

  function AddHash(x: Hash, y: Hash): Hash {
    Hash(Plus(x.a, y.a), Plus(x.b, y.b), Plus(x.c, y.c), Plus(x.d, y.d),
         Plus(x.e, y.e), Plus(x.f, y.f), Plus(x.g, y.g), Plus(x.h, y.h))
  }

  /** Steps 2 to 4. */
  function Compress(hash: Hash, block: seq<Byte>): Hash
    requires |block| == 64
  {
    AddHash(hash, Rounds(hash, block, 64))
  }

  /** All blocks of `data` in turn. */
  function CompressAll(hash: Hash, data: seq<Byte>): Hash
    requires |data| % 64 == 0
  {
    if data == [] then hash
    else Compress(CompressAll(hash, data[..|data| - 64]), data[|data| - 64..])
  }

  function WordBytes(w: Word): (bytes: seq<Byte>)
    ensures |bytes| == 4
  {
    [((w >> 24) & 0xff) as Byte, ((w >> 16) & 0xff) as Byte, ((w >> 8) & 0xff) as Byte, (w & 0xff) as Byte]
  }

  function WordsBytes(words: seq<Word>): (bytes: seq<Byte>)
    ensures |bytes| == 4 * |words|
  {
    if words == [] then [] else WordsBytes(words[..|words| - 1]) + WordBytes(words[|words| - 1])
  }

  function HashWords(hash: Hash): (words: seq<Word>)
    ensures |words| == 8
  {
    [hash.a, hash.b, hash.c, hash.d, hash.e, hash.f, hash.g, hash.h]
  }

  function Digest(hash: Hash): (digest: seq<Byte>)
    ensures |digest| == 32
  {
    WordsBytes(HashWords(hash))
  }

  /** `n` as `size` bytes, most significant first, modulo 256 to the `size`. */
  function BigEndian(n: nat, size: nat): (bytes: seq<Byte>)
    ensures |bytes| == size
  {
    if size == 0 then [] else BigEndian(n / 256, size - 1) + [(n % 256) as Byte]
  }

  function Zeros(n: nat): (zeros: seq<Byte>)
    ensures |zeros| == n
  {
    seq(n, i => 0)
  }

  /** The least number of zero bytes that brings `length` + 1 bytes to 56 modulo 64 (section 5.1.1). */
  function ZeroBytes(length: nat): (k: nat)
    ensures (length + 1 + k) % 64 == 56 && k < 64
  {
    (55 - length) % 64
  }

  /** Section 5.1.1, with the length field given. */
  function PadWith(message: seq<Byte>, bitLength: nat): (padded: seq<Byte>)
    ensures |padded| % 64 == 0
  {
    message + [0x80] + Zeros(ZeroBytes(|message|)) + BigEndian(bitLength, 8)
  }

  function Sha256(message: seq<Byte>): (digest: seq<Byte>)
    ensures |digest| == 32
  {
    Digest(CompressAll(INITIAL, PadWith(message, 8 * |message|)))
  }

  /** Section 2 of RFC 2104, with B = 64 and L = 32. */
  function BlockKey(key: seq<Byte>): (k: seq<Byte>)
    ensures |k| == 64
  {
    var short := if 64 < |key| then Sha256(key) else key;
    short + Zeros(64 - |short|)
  }

  function XorEach(bytes: seq<Byte>, pad: Byte): (out: seq<Byte>)
    ensures |out| == |bytes|
    ensures forall i :: 0 <= i < |bytes| ==> out[i] == bytes[i] ^ pad
  {
    seq(|bytes|, i requires 0 <= i < |bytes| => bytes[i] ^ pad)
  }

  function Hmac(key: seq<Byte>, text: seq<Byte>): seq<Byte> {
    Sha256(XorEach(BlockKey(key), 0x5c) + Sha256(XorEach(BlockKey(key), 0x36) + text))
  }

  // ------------------------------------------------------------------
  // The incremental form
  // ------------------------------------------------------------------

  function HashOf(words: seq<Word>): Hash
    requires |words| == 8
  {
    Hash(words[0], words[1], words[2], words[3], words[4], words[5], words[6], words[7])
  }

  method BuildSchedule(block: seq<Byte>) returns (schedule: array<Word>)
    requires |block| == 64
    ensures fresh(schedule) && schedule.Length == 64
    ensures forall t :: 0 <= t < 64 ==> schedule[t] == Schedule(block, t)
  {
    schedule := new Word[64];
    for t := 0 to 16
      invariant forall u :: 0 <= u < t ==> schedule[u] == Schedule(block, u)
    {
      ScheduleFirst(block, t);
      hide *;
      schedule[t] := MessageWord(block, t);
    }
    for t := 16 to 64
      invariant forall u :: 0 <= u < t ==> schedule[u] == Schedule(block, u)
    {
      ScheduleNext(block, t);
      hide *;
      schedule[t] := NextWord(schedule[t - 2], schedule[t - 7], schedule[t - 15], schedule[t - 16]);
    }
  }

  lemma ScheduleFirst(block: seq<Byte>, t: nat)
    requires |block| == 64 && t < 16
    ensures Schedule(block, t) == MessageWord(block, t)
  {
    hide MessageWord;
  }

  lemma ScheduleNext(block: seq<Byte>, t: nat)
    requires |block| == 64 && 16 <= t < 64
    ensures Schedule(block, t)
         == NextWord(Schedule(block, t - 2), Schedule(block, t - 7), Schedule(block, t - 15), Schedule(block, t - 16))
  {
    hide NextWord;
  }

  function Whole(n: nat): (w: nat)
    ensures w <= n && w % 64 == 0 && n - w == n % 64
  {
    n - n % 64
  }

  /** The bytes of `fed` not yet in a full block. */
  function Pending(fed: seq<Byte>): seq<Byte> {
    fed[Whole(|fed|)..]
  }

  function Absorbed(fed: seq<Byte>): Hash {
    CompressAll(INITIAL, fed[..Whole(|fed|)])
  }

  lemma WholeBlocks(fed: seq<Byte>)
    requires |fed| % 64 == 0
    ensures Absorbed(fed) == CompressAll(INITIAL, fed)
  {
    assert fed[..Whole(|fed|)] == fed;
  }

  lemma FeedPart(fed: seq<Byte>, part: seq<Byte>)
    requires |fed| % 64 + |part| < 64
    ensures |fed + part| % 64 == |fed| % 64 + |part|
    ensures Pending(fed + part) == Pending(fed) + part
    ensures Absorbed(fed + part) == Absorbed(fed)
  {
    ModAfterAdding(|fed|, |part|);
    assert Whole(|fed + part|) == Whole(|fed|);
    hide Whole, CompressAll;
    assert (fed + part)[..Whole(|fed|)] == fed[..Whole(|fed|)];
    assert (fed + part)[Whole(|fed|)..] == fed[Whole(|fed|)..] + part;
  }

  lemma FeedBlock(fed: seq<Byte>, part: seq<Byte>)
    requires |fed| % 64 + |part| == 64
    ensures |fed + part| % 64 == 0 && Pending(fed + part) == []
    ensures Absorbed(fed + part) == Compress(Absorbed(fed), Pending(fed) + part)
  {
    ModAfterAdding(|fed|, |part|);
    var all := fed + part;
    assert all[..|all|] == all;
    assert all[..|all| - 64] == fed[..Whole(|fed|)];
    assert all[|all| - 64..] == Pending(fed) + part;
  }

  lemma ModAfterAdding(n: nat, k: nat)
    requires k <= 64 - n % 64
    ensures n % 64 + k < 64 ==> (n + k) % 64 == n % 64 + k
    ensures n % 64 + k == 64 ==> (n + k) % 64 == 0
  {
  }

  /** Zero bytes still owed when `buffered` bytes wait. */
  function Missing(buffered: nat): nat {
    (56 - buffered) % 64
  }

  lemma PadStart(length: nat)
    ensures Missing((length + 1) % 64) == ZeroBytes(length)
  {
  }

  lemma NoZeros()
    ensures Zeros(0) == []
  {
  }

  lemma OneMoreZero(n: nat)
    ensures Zeros(n) + [0] == Zeros(n + 1)
  {
  }

  /** Each zero byte brings the buffer one closer to 56, across the wrap at a full block. */
  lemma PadStep(length: nat, zeros: nat)
    requires (length + 1 + zeros) % 64 != 56
    ensures Missing((length + 1 + zeros + 1) % 64) == Missing((length + 1 + zeros) % 64) - 1
  {
  }

  /** `n` shifted right by `k` bytes. */
  function ShiftRight(n: nat, k: nat): nat {
    if k == 0 then n else ShiftRight(n / 256, k - 1)
  }

  lemma {:induction false} BigEndianAt(n: nat, size: nat, i: nat)
    requires i < size
    ensures BigEndian(n, size)[i] == (ShiftRight(n, size - 1 - i) % 256) as Byte
  {
    if i < size - 1 {
      BigEndianAt(n / 256, size - 1, i);
    }
  }

  function Pow256(k: nat): nat {
    if k == 0 then 1 else 256 * Pow256(k - 1)
  }

  function FromBigEndian(bytes: seq<Byte>): nat {
    if bytes == [] then 0 else 256 * FromBigEndian(bytes[..|bytes| - 1]) + bytes[|bytes| - 1] as nat
  }

  lemma FromBigEndianNext(bytes: seq<Byte>, last: Byte)
    ensures FromBigEndian(bytes + [last]) == 256 * FromBigEndian(bytes) + last as nat
  {
    assert (bytes + [last])[..|bytes|] == bytes;
  }

  /** The length field loses nothing that fits in it. */
  lemma {:induction false} BigEndianReadsBack(n: nat, size: nat)
    requires n < Pow256(size)
    ensures FromBigEndian(BigEndian(n, size)) == n
  {
    hide FromBigEndian;
    if size == 0 {
      NothingBigEndian();
    } else {
      BigEndianReadsBack(n / 256, size - 1);
      FromBigEndianNext(BigEndian(n / 256, size - 1), (n % 256) as Byte);
      ByteReadsBack(n % 256);
    }
  }

  lemma NothingBigEndian()
    ensures FromBigEndian([]) == 0
  {
  }

  method LengthBytes(bitLength: nat) returns (bytes: seq<Byte>)
    ensures bytes == BigEndian(bitLength, 8)
  {
    bytes := [];
    for i := 0 to 8
      invariant |bytes| == i
      invariant forall k :: 0 <= k < i ==> bytes[k] == BigEndian(bitLength, 8)[k]
    {
      BigEndianAt(bitLength, 8, i);
      hide BigEndian, ShiftRight;
      bytes := bytes + [(ShiftRight(bitLength, 7 - i) % 256) as Byte];
    }
  }

  /** The source's round loop, with its eight working variables shifted along each time. */
  method RunRounds(start: Hash, block: seq<Byte>) returns (end: Hash)
    requires |block| == 64
    ensures end == Rounds(start, block, 64)
  {
    var schedule := BuildSchedule(block);
    hide Schedule, RoundConstant, Temp1, Temp2, Plus;
    var a, b, c, d := start.a, start.b, start.c, start.d;
    var e, f, g, h := start.e, start.f, start.g, start.h;
    for t := 0 to 64
      invariant Hash(a, b, c, d, e, f, g, h) == Rounds(start, block, t)
    {
      var temp1 := Temp1(e, f, g, h, RoundConstant(t), schedule[t]);
      var temp2 := Temp2(a, b, c);
      h := g;
      g := f;
      f := e;
      e := Plus(d, temp1);
      d := c;
      c := b;
      b := a;
      a := Plus(temp1, temp2);
    }
    end := Hash(a, b, c, d, e, f, g, h);
  }

  class Sha256State {
    const state: array<Word>
    const buffer: array<Byte>
    var buffered: nat
    var totalBytes: nat
    ghost var fed: seq<Byte>

    ghost predicate Valid()
      reads this, state, buffer
    {
      && state.Length == 8 && buffer.Length == 64
      && buffered == |fed| % 64
      && buffer[..buffered] == Pending(fed)
      && HashOf(state[..]) == Absorbed(fed)
    }

    constructor ()
      ensures Valid() && fed == [] && totalBytes == 0 && fresh(state) && fresh(buffer)
    {
      state := new Word[8][INITIAL.a, INITIAL.b, INITIAL.c, INITIAL.d, INITIAL.e, INITIAL.f, INITIAL.g, INITIAL.h];
      buffer := new Byte[64](_ => 0);
      buffered, totalBytes := 0, 0;
      fed := [];
      new;
      assert Absorbed([]) == INITIAL;
    }

    /** The source's `compress`, applied as always to the full buffer. */
    method CompressBuffer()
      requires state.Length == 8 && buffer.Length == 64
      modifies state
      ensures HashOf(state[..]) == Compress(HashOf(old(state[..])), buffer[..])
    {
      var start := HashOf(state[..]);
      var r := RunRounds(start, buffer[..]);
      hide Rounds, Plus;
      state[0] := Plus(state[0], r.a);
      state[1] := Plus(state[1], r.b);
      state[2] := Plus(state[2], r.c);
      state[3] := Plus(state[3], r.d);
      state[4] := Plus(state[4], r.e);
      state[5] := Plus(state[5], r.f);
      state[6] := Plus(state[6], r.g);
      state[7] := Plus(state[7], r.h);
    }

    method Update(data: seq<Byte>)
      requires Valid()
      modifies this, state, buffer
      ensures Valid() && fed == old(fed) + data
      ensures totalBytes == Wrap64(old(totalBytes) + |data|)
    {
      hide Pending, Absorbed, HashOf;
      totalBytes := Wrap64(totalBytes + |data|);
      var rest := data;
      while rest != []
        invariant Valid() && fed + rest == old(fed) + data
        invariant totalBytes == Wrap64(old(totalBytes) + |data|)
        decreases |rest|
      {
        var space := 64 - buffered;
        var take := if |rest| < space then |rest| else space;
        Absorb(rest[..take]);
        assert rest == rest[..take] + rest[take..];
        rest := rest[take..];
      }
      assert fed + [] == fed;
    }

    /** One trip round the source's loop: copy into the buffer, compress it when full. */
    method Absorb(part: seq<Byte>)
      requires Valid() && 0 < |part| <= 64 - buffered
      modifies this`buffered, this`fed, state, buffer
      ensures Valid() && fed == old(fed) + part
    {
      hide Pending, Absorbed, Compress, HashOf;
      if |part| == 64 - buffered {
        FeedBlock(fed, part);
      } else {
        FeedPart(fed, part);
      }
      CopyIn(part);
      buffered := buffered + |part|;
      fed := fed + part;
      if buffered == 64 {
        assert buffer[..] == buffer[..buffered];
        CompressBuffer();
        buffered := 0;
      }
    }

    method CopyIn(part: seq<Byte>)
      requires buffer.Length == 64 && buffered + |part| <= 64
      modifies buffer
      ensures buffer[..buffered + |part|] == old(buffer[..buffered]) + part
    {
      for i := 0 to |part|
        invariant buffer[..buffered + i] == old(buffer[..buffered]) + part[..i]
      {
        buffer[buffered + i] := part[i];
        assert part[..i + 1] == part[..i] + [part[i]];
      }
      assert part[..|part|] == part;
    }

    /** The source's padding: one marker byte, then zeros until 56 bytes are buffered. */
    method Pad()
      requires Valid()
      modifies this, state, buffer
      ensures Valid() && buffered == 56
      ensures fed == old(fed) + [0x80] + Zeros(ZeroBytes(|old(fed)|))
    {
      hide Pending, Absorbed, HashOf, Zeros, ZeroBytes;
      Update([0x80]);
      ghost var zeros := 0;
      PadStart(|old(fed)|);
      NoZeros();
      while buffered != 56
        invariant Valid() && fed == old(fed) + [0x80] + Zeros(zeros)
        invariant zeros + Missing(buffered) == ZeroBytes(|old(fed)|)
        decreases Missing(buffered)
      {
        PadStep(|old(fed)|, zeros);
        hide Missing;
        Update([0x00]);
        OneMoreZero(zeros);
        assert old(fed) + [0x80] + Zeros(zeros) + [0x00] == old(fed) + [0x80] + Zeros(zeros + 1);
        zeros := zeros + 1;
      }
    }

    method Finish() returns (digest: seq<Byte>)
      requires Valid()
      modifies this, state, buffer
      ensures digest == Digest(CompressAll(INITIAL, PadWith(old(fed), Wrap64(8 * old(totalBytes)))))
    {
      hide CompressAll, Whole, Pending, Absorbed, HashOf, Zeros, ZeroBytes, BigEndian, Digest;
      var bitLength := Wrap64(8 * totalBytes);
      Pad();
      var lengthBytes := LengthBytes(bitLength);
      Absorb(lengthBytes);
      assert fed == PadWith(old(fed), bitLength);
      hide PadWith;
      WholeBlocks(fed);
      digest := EmitDigest();
    }

    method EmitDigest() returns (digest: seq<Byte>)
      requires state.Length == 8
      ensures digest == Digest(HashOf(state[..]))
    {
      hide WordBytes;
      digest := [];
      for i := 0 to 8
        invariant digest == WordsBytes(state[..i])
      {
        assert state[..i + 1][..i] == state[..i];
        digest := digest + WordBytes(state[i]);
      }
      assert state[..] == HashWords(HashOf(state[..])) && state[..8] == state[..];
    }
  }

  // ------------------------------------------------------------------
  // Any split of a message, and the MAC
  // ------------------------------------------------------------------

  const MESSAGE_LIMIT: nat := 0x2000_0000_0000_0000

  lemma LengthFieldFits(length: nat)
    requires length < MESSAGE_LIMIT
    ensures Wrap64(8 * Wrap64(length)) == 8 * length
    ensures FromBigEndian(BigEndian(8 * length, 8)) == 8 * length
  {
    SmallWrap(length);
    SmallWrap(8 * length);
    Pow256Eight();
    BigEndianReadsBack(8 * length, 8);
  }

  lemma Pow256Eight()
    ensures Pow256(8) == TWO_TO_THE_64
  {
    assert Pow256(2) == 256 * 256;
    assert Pow256(4) == 256 * 256 * Pow256(2);
    assert Pow256(6) == 256 * 256 * Pow256(4);
  }

  lemma {:induction false} FlattenIsWithin(pieces: seq<seq<Byte>>, i: nat)
    requires i <= |pieces|
    ensures |Flatten(pieces[..i])| <= |Flatten(pieces)|
    decreases |pieces| - i
  {
    if i < |pieces| {
      assert pieces[..i + 1][..i] == pieces[..i];
      FlattenIsWithin(pieces, i + 1);
    } else {
      assert pieces[..i] == pieces;
    }
  }

  /** A message fed in any pieces, and finished, hashes as if it had been given whole. */
  method HashPieces(pieces: seq<seq<Byte>>) returns (digest: seq<Byte>)
    requires |Flatten(pieces)| < MESSAGE_LIMIT
    ensures digest == Sha256(Flatten(pieces))
  {
    hide Wrap64, Sha256State.Valid, CompressAll, PadWith, FromBigEndian, Flatten, Digest;
    var hasher := new Sha256State();
    NoPieces(pieces);
    for i := 0 to |pieces|
      invariant fresh(hasher) && fresh(hasher.state) && fresh(hasher.buffer)
      invariant hasher.Valid() && hasher.fed == Flatten(pieces[..i])
      invariant hasher.totalBytes == Wrap64(|Flatten(pieces[..i])|)
    {
      NextPiece(pieces, i);
      hasher.Update(pieces[i]);
    }
    assert pieces[..|pieces|] == pieces;
    LengthFieldFits(|Flatten(pieces)|);
    digest := hasher.Finish();
  }

  lemma NoPieces(pieces: seq<seq<Byte>>)
    ensures Flatten(pieces[..0]) == [] && Wrap64(0) == 0
  {
    assert pieces[..0] == [];
    SmallWrap(0);
  }

  lemma NextPiece(pieces: seq<seq<Byte>>, i: nat)
    requires i < |pieces| && |Flatten(pieces)| < MESSAGE_LIMIT
    ensures Flatten(pieces[..i + 1]) == Flatten(pieces[..i]) + pieces[i]
    ensures Wrap64(Wrap64(|Flatten(pieces[..i])|) + |pieces[i]|) == Wrap64(|Flatten(pieces[..i + 1])|)
  {
    assert pieces[..i + 1][..i] == pieces[..i];
    FlattenIsWithin(pieces, i);
    FlattenIsWithin(pieces, i + 1);
    SmallWrap(|Flatten(pieces[..i])|);
    SmallWrap(|Flatten(pieces[..i + 1])|);
  }

  method Sha256Of(data: seq<Byte>) returns (digest: seq<Byte>)
    requires |data| < MESSAGE_LIMIT
    ensures digest == Sha256(data)
  {
    assert Flatten([data]) == data by {
      assert [data][..0] == [] && Flatten([data]) == [] + data;
    }
    digest := HashPieces([data]);
  }

  method PadKey(key: seq<Byte>) returns (paddedKey: seq<Byte>)
    requires |key| < MESSAGE_LIMIT
    ensures paddedKey == BlockKey(key)
  {
    hide Sha256;
    paddedKey := Zeros(64);
    if 64 < |key| {
      var hashed := Sha256Of(key);
      paddedKey := hashed + paddedKey[32..];
    } else if key != [] {
      paddedKey := key + paddedKey[|key|..];
    }
  }

  method HmacSha256(key: seq<Byte>, message: seq<Byte>) returns (mac: seq<Byte>)
    requires |key| < MESSAGE_LIMIT && |message| + 64 < MESSAGE_LIMIT
    ensures mac == Hmac(key, message)
  {
    var paddedKey := PadKey(key);
    hide BlockKey, Sha256;
    var innerPad := XorEach(paddedKey, 0x36);
    var outerPad := XorEach(paddedKey, 0x5c);
    FlattenTwo(innerPad, message);
    var innerDigest := HashPieces([innerPad, message]);
    FlattenTwo(outerPad, innerDigest);
    mac := HashPieces([outerPad, innerDigest]);
  }

  lemma FlattenTwo(a: seq<Byte>, b: seq<Byte>)
    ensures Flatten([a, b]) == a + b
  {
    assert [a, b][..1] == [a] && [a][..0] == [];
    assert Flatten([a]) == [] + a == a;
  }

  /**
   Padding is reversible below the limit: the last eight bytes give the length, so no two
   messages ever reach the compression function as the same blocks.
   */
  lemma PaddingIsInjective(m: seq<Byte>, m': seq<Byte>)
    requires |m| < MESSAGE_LIMIT && |m'| < MESSAGE_LIMIT
    requires PadWith(m, 8 * |m|) == PadWith(m', 8 * |m'|)
    ensures m == m'
  {
    var p, p' := PadWith(m, 8 * |m|), PadWith(m', 8 * |m'|);
    assert p[|p| - 8..] == BigEndian(8 * |m|, 8);
    assert p'[|p'| - 8..] == BigEndian(8 * |m'|, 8);
    LengthFieldFits(|m|);
    LengthFieldFits(|m'|);
    assert p[..|m|] == m && p'[..|m'|] == m';
  }
}
