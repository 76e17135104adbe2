/**
 What pins down the functions and constants of FIPS 180-4 in `Sha256Hash` (packages/sdk-cpp/src/hmac_sha256.cpp):
 the functions of section 4.1.2 bit by bit, the constants of sections 4.2.2 and 5.3.3 as roots of
 primes, and the digest of one message, computed round by round.
 */
module Sha256Vectors {
  import opened Bytes
  import opened Sha256Hash

  // ------------------------------------------------------------------
  // Functions, bit by bit
  // ------------------------------------------------------------------

  /** A rotation right: the low `count` bits come round to the top, and the others move down under them. */
  lemma RotrRotates(x: Word, count: Word)
    requires 0 < count < 32
    ensures Rotr(x, count) >> (32 - count) == x & ((1 << count) - 1)
    ensures Rotr(x, count) & ((1 << (32 - count)) - 1) == x >> count
  {
  }

  /** On any bits: where `x` has ones the choice is `y`, where it has zeros it is `z`. */
  lemma ChChooses(x: Word, y: Word, z: Word, bits: Word)
    ensures x & bits == bits ==> Ch(x, y, z) & bits == y & bits
    ensures x & bits == 0 ==> Ch(x, y, z) & bits == z & bits
  {
  }

  /** On any bits: where the first two agree the majority is what they agree on, and the three may change places. */
  lemma MajAgrees(x: Word, y: Word, z: Word, bits: Word)
    ensures x & bits == y & bits ==> Maj(x, y, z) & bits == x & bits
    ensures Maj(x, y, z) == Maj(y, z, x)
  {
  }

  // ------------------------------------------------------------------
  // Constants
  // ------------------------------------------------------------------

  /** `word` is the first 32 bits of the fraction of the cube root of `p`, whose whole part is `root`. */
  predicate CubeRootFraction(p: nat, root: nat, word: Word) {
    var x := root * 0x1_0000_0000 + word as nat;
    x * x * x <= p * 0x1_0000_0000_0000_0000_0000_0000 < (x + 1) * (x + 1) * (x + 1)
  }

  predicate SquareRootFraction(p: nat, root: nat, word: Word) {
    var x := root * 0x1_0000_0000 + word as nat;
    x * x <= p * 0x1_0000_0000_0000_0000 < (x + 1) * (x + 1)
  }

  /** The initial hash value comes from the square roots of the first eight primes. */
  lemma InitialHashIsSquareRoots()
    ensures SquareRootFraction(2, 1, INITIAL.a)
    ensures SquareRootFraction(3, 1, INITIAL.b)
    ensures SquareRootFraction(5, 2, INITIAL.c)
    ensures SquareRootFraction(7, 2, INITIAL.d)
    ensures SquareRootFraction(11, 3, INITIAL.e)
    ensures SquareRootFraction(13, 3, INITIAL.f)
    ensures SquareRootFraction(17, 4, INITIAL.g)
    ensures SquareRootFraction(19, 4, INITIAL.h)
  {
  }

  lemma Constants0()
    ensures RoundConstant(0) == 0x428a2f98 && RoundConstant(1) == 0x71374491
    ensures RoundConstant(2) == 0xb5c0fbcf && RoundConstant(3) == 0xe9b5dba5
    ensures RoundConstant(4) == 0x3956c25b && RoundConstant(5) == 0x59f111f1
    ensures RoundConstant(6) == 0x923f82a4 && RoundConstant(7) == 0xab1c5ed5
  {
  }

  lemma Constants8()
    ensures RoundConstant(8) == 0xd807aa98 && RoundConstant(9) == 0x12835b01
    ensures RoundConstant(10) == 0x243185be && RoundConstant(11) == 0x550c7dc3
    ensures RoundConstant(12) == 0x72be5d74 && RoundConstant(13) == 0x80deb1fe
    ensures RoundConstant(14) == 0x9bdc06a7 && RoundConstant(15) == 0xc19bf174
  {
  }

  lemma Constants16()
    ensures RoundConstant(16) == 0xe49b69c1 && RoundConstant(17) == 0xefbe4786
    ensures RoundConstant(18) == 0x0fc19dc6 && RoundConstant(19) == 0x240ca1cc
    ensures RoundConstant(20) == 0x2de92c6f && RoundConstant(21) == 0x4a7484aa
    ensures RoundConstant(22) == 0x5cb0a9dc && RoundConstant(23) == 0x76f988da
  {
  }

  lemma Constants24()
    ensures RoundConstant(24) == 0x983e5152 && RoundConstant(25) == 0xa831c66d
    ensures RoundConstant(26) == 0xb00327c8 && RoundConstant(27) == 0xbf597fc7
    ensures RoundConstant(28) == 0xc6e00bf3 && RoundConstant(29) == 0xd5a79147
    ensures RoundConstant(30) == 0x06ca6351 && RoundConstant(31) == 0x14292967
  {
  }

  lemma Constants32()
    ensures RoundConstant(32) == 0x27b70a85 && RoundConstant(33) == 0x2e1b2138
    ensures RoundConstant(34) == 0x4d2c6dfc && RoundConstant(35) == 0x53380d13
    ensures RoundConstant(36) == 0x650a7354 && RoundConstant(37) == 0x766a0abb
    ensures RoundConstant(38) == 0x81c2c92e && RoundConstant(39) == 0x92722c85
  {
  }

  lemma Constants40()
    ensures RoundConstant(40) == 0xa2bfe8a1 && RoundConstant(41) == 0xa81a664b
    ensures RoundConstant(42) == 0xc24b8b70 && RoundConstant(43) == 0xc76c51a3
    ensures RoundConstant(44) == 0xd192e819 && RoundConstant(45) == 0xd6990624
    ensures RoundConstant(46) == 0xf40e3585 && RoundConstant(47) == 0x106aa070
  {
  }

  lemma Constants48()
    ensures RoundConstant(48) == 0x19a4c116 && RoundConstant(49) == 0x1e376c08
    ensures RoundConstant(50) == 0x2748774c && RoundConstant(51) == 0x34b0bcb5
    ensures RoundConstant(52) == 0x391c0cb3 && RoundConstant(53) == 0x4ed8aa4a
    ensures RoundConstant(54) == 0x5b9cca4f && RoundConstant(55) == 0x682e6ff3
  {
  }

  lemma Constants56()
    ensures RoundConstant(56) == 0x748f82ee && RoundConstant(57) == 0x78a5636f
    ensures RoundConstant(58) == 0x84c87814 && RoundConstant(59) == 0x8cc70208
    ensures RoundConstant(60) == 0x90befffa && RoundConstant(61) == 0xa4506ceb
    ensures RoundConstant(62) == 0xbef9a3f7 && RoundConstant(63) == 0xc67178f2
  {
  }

  /** The first 64 primes. */
  const PRIMES: seq<nat> :=
    [2, 3, 5, 7, 11, 13, 17, 19] +
    [23, 29, 31, 37, 41, 43, 47, 53] +
    [59, 61, 67, 71, 73, 79, 83, 89] +
    [97, 101, 103, 107, 109, 113, 127, 131] +
    [137, 139, 149, 151, 157, 163, 167, 173] +
    [179, 181, 191, 193, 197, 199, 211, 223] +
    [227, 229, 233, 239, 241, 251, 257, 263] +
    [269, 271, 277, 281, 283, 293, 307, 311]

  /** The whole parts of their cube roots. */
  const ROOTS: seq<nat> :=
    [1, 1, 1, 1, 2, 2, 2, 2] +
    [2, 3, 3, 3, 3, 3, 3, 3] +
    [3, 3, 4, 4, 4, 4, 4, 4] +
    [4, 4, 4, 4, 4, 4, 5, 5] +
    [5, 5, 5, 5, 5, 5, 5, 5] +
    [5, 5, 5, 5, 5, 5, 5, 6] +
    [6, 6, 6, 6, 6, 6, 6, 6] +
    [6, 6, 6, 6, 6, 6, 6, 6]

  function Prime(t: nat): nat
    requires t < 64
  {
    PRIMES[t]
  }

  function Root(t: nat): nat
    requires t < 64
  {
    ROOTS[t]
  }

  lemma Primes0()
    ensures Prime(0) == 2 && Prime(1) == 3 && Prime(2) == 5 && Prime(3) == 7
    ensures Root(0) == 1 && Root(1) == 1 && Root(2) == 1 && Root(3) == 1
    ensures Prime(4) == 11 && Prime(5) == 13 && Prime(6) == 17 && Prime(7) == 19
    ensures Root(4) == 2 && Root(5) == 2 && Root(6) == 2 && Root(7) == 2
  {
  }

  lemma Primes8()
    ensures Prime(8) == 23 && Prime(9) == 29 && Prime(10) == 31 && Prime(11) == 37
    ensures Root(8) == 2 && Root(9) == 3 && Root(10) == 3 && Root(11) == 3
    ensures Prime(12) == 41 && Prime(13) == 43 && Prime(14) == 47 && Prime(15) == 53
    ensures Root(12) == 3 && Root(13) == 3 && Root(14) == 3 && Root(15) == 3
  {
  }

  lemma Primes16()
    ensures Prime(16) == 59 && Prime(17) == 61 && Prime(18) == 67 && Prime(19) == 71
    ensures Root(16) == 3 && Root(17) == 3 && Root(18) == 4 && Root(19) == 4
    ensures Prime(20) == 73 && Prime(21) == 79 && Prime(22) == 83 && Prime(23) == 89
    ensures Root(20) == 4 && Root(21) == 4 && Root(22) == 4 && Root(23) == 4
  {
  }

  lemma Primes24()
    ensures Prime(24) == 97 && Prime(25) == 101 && Prime(26) == 103 && Prime(27) == 107
    ensures Root(24) == 4 && Root(25) == 4 && Root(26) == 4 && Root(27) == 4
    ensures Prime(28) == 109 && Prime(29) == 113 && Prime(30) == 127 && Prime(31) == 131
    ensures Root(28) == 4 && Root(29) == 4 && Root(30) == 5 && Root(31) == 5
  {
  }

  lemma Primes32()
    ensures Prime(32) == 137 && Prime(33) == 139 && Prime(34) == 149 && Prime(35) == 151
    ensures Root(32) == 5 && Root(33) == 5 && Root(34) == 5 && Root(35) == 5
    ensures Prime(36) == 157 && Prime(37) == 163 && Prime(38) == 167 && Prime(39) == 173
    ensures Root(36) == 5 && Root(37) == 5 && Root(38) == 5 && Root(39) == 5
  {
  }

  lemma Primes40()
    ensures Prime(40) == 179 && Prime(41) == 181 && Prime(42) == 191 && Prime(43) == 193
    ensures Root(40) == 5 && Root(41) == 5 && Root(42) == 5 && Root(43) == 5
    ensures Prime(44) == 197 && Prime(45) == 199 && Prime(46) == 211 && Prime(47) == 223
    ensures Root(44) == 5 && Root(45) == 5 && Root(46) == 5 && Root(47) == 6
  {
  }

  lemma Primes48()
    ensures Prime(48) == 227 && Prime(49) == 229 && Prime(50) == 233 && Prime(51) == 239
    ensures Root(48) == 6 && Root(49) == 6 && Root(50) == 6 && Root(51) == 6
    ensures Prime(52) == 241 && Prime(53) == 251 && Prime(54) == 257 && Prime(55) == 263
    ensures Root(52) == 6 && Root(53) == 6 && Root(54) == 6 && Root(55) == 6
  {
  }

  lemma Primes56()
    ensures Prime(56) == 269 && Prime(57) == 271 && Prime(58) == 277 && Prime(59) == 281
    ensures Root(56) == 6 && Root(57) == 6 && Root(58) == 6 && Root(59) == 6
    ensures Prime(60) == 283 && Prime(61) == 293 && Prime(62) == 307 && Prime(63) == 311
    ensures Root(60) == 6 && Root(61) == 6 && Root(62) == 6 && Root(63) == 6
  {
  }

  lemma CubeRoots0()
    ensures CubeRootFraction(Prime(0), Root(0), RoundConstant(0))
    ensures CubeRootFraction(Prime(1), Root(1), RoundConstant(1))
    ensures CubeRootFraction(Prime(2), Root(2), RoundConstant(2))
    ensures CubeRootFraction(Prime(3), Root(3), RoundConstant(3))
  {
    hide RoundConstant, Prime, Root;
    Constants0();
    Primes0();
  }

  lemma CubeRoots4()
    ensures CubeRootFraction(Prime(4), Root(4), RoundConstant(4))
    ensures CubeRootFraction(Prime(5), Root(5), RoundConstant(5))
    ensures CubeRootFraction(Prime(6), Root(6), RoundConstant(6))
    ensures CubeRootFraction(Prime(7), Root(7), RoundConstant(7))
  {
    hide RoundConstant, Prime, Root;
    Constants0();
    Primes0();
  }

  lemma CubeRoots8()
    ensures CubeRootFraction(Prime(8), Root(8), RoundConstant(8))
    ensures CubeRootFraction(Prime(9), Root(9), RoundConstant(9))
    ensures CubeRootFraction(Prime(10), Root(10), RoundConstant(10))
    ensures CubeRootFraction(Prime(11), Root(11), RoundConstant(11))
  {
    hide RoundConstant, Prime, Root;
    Constants8();
    Primes8();
  }

  lemma CubeRoots12()
    ensures CubeRootFraction(Prime(12), Root(12), RoundConstant(12))
    ensures CubeRootFraction(Prime(13), Root(13), RoundConstant(13))
    ensures CubeRootFraction(Prime(14), Root(14), RoundConstant(14))
    ensures CubeRootFraction(Prime(15), Root(15), RoundConstant(15))
  {
    hide RoundConstant, Prime, Root;
    Constants8();
    Primes8();
  }

  lemma CubeRoots16()
    ensures CubeRootFraction(Prime(16), Root(16), RoundConstant(16))
    ensures CubeRootFraction(Prime(17), Root(17), RoundConstant(17))
    ensures CubeRootFraction(Prime(18), Root(18), RoundConstant(18))
    ensures CubeRootFraction(Prime(19), Root(19), RoundConstant(19))
  {
    hide RoundConstant, Prime, Root;
    Constants16();
    Primes16();
  }

  lemma CubeRoots20()
    ensures CubeRootFraction(Prime(20), Root(20), RoundConstant(20))
    ensures CubeRootFraction(Prime(21), Root(21), RoundConstant(21))
    ensures CubeRootFraction(Prime(22), Root(22), RoundConstant(22))
    ensures CubeRootFraction(Prime(23), Root(23), RoundConstant(23))
  {
    hide RoundConstant, Prime, Root;
    Constants16();
    Primes16();
  }

  lemma CubeRoots24()
    ensures CubeRootFraction(Prime(24), Root(24), RoundConstant(24))
    ensures CubeRootFraction(Prime(25), Root(25), RoundConstant(25))
    ensures CubeRootFraction(Prime(26), Root(26), RoundConstant(26))
    ensures CubeRootFraction(Prime(27), Root(27), RoundConstant(27))
  {
    hide RoundConstant, Prime, Root;
    Constants24();
    Primes24();
  }

  lemma CubeRoots28()
    ensures CubeRootFraction(Prime(28), Root(28), RoundConstant(28))
    ensures CubeRootFraction(Prime(29), Root(29), RoundConstant(29))
    ensures CubeRootFraction(Prime(30), Root(30), RoundConstant(30))
    ensures CubeRootFraction(Prime(31), Root(31), RoundConstant(31))
  {
    hide RoundConstant, Prime, Root;
    Constants24();
    Primes24();
  }

  lemma CubeRoots32()
    ensures CubeRootFraction(Prime(32), Root(32), RoundConstant(32))
    ensures CubeRootFraction(Prime(33), Root(33), RoundConstant(33))
    ensures CubeRootFraction(Prime(34), Root(34), RoundConstant(34))
    ensures CubeRootFraction(Prime(35), Root(35), RoundConstant(35))
  {
    hide RoundConstant, Prime, Root;
    Constants32();
    Primes32();
  }

  lemma CubeRoots36()
    ensures CubeRootFraction(Prime(36), Root(36), RoundConstant(36))
    ensures CubeRootFraction(Prime(37), Root(37), RoundConstant(37))
    ensures CubeRootFraction(Prime(38), Root(38), RoundConstant(38))
    ensures CubeRootFraction(Prime(39), Root(39), RoundConstant(39))
  {
    hide RoundConstant, Prime, Root;
    Constants32();
    Primes32();
  }

  lemma CubeRoots40()
    ensures CubeRootFraction(Prime(40), Root(40), RoundConstant(40))
    ensures CubeRootFraction(Prime(41), Root(41), RoundConstant(41))
    ensures CubeRootFraction(Prime(42), Root(42), RoundConstant(42))
    ensures CubeRootFraction(Prime(43), Root(43), RoundConstant(43))
  {
    hide RoundConstant, Prime, Root;
    Constants40();
    Primes40();
  }

  lemma CubeRoots44()
    ensures CubeRootFraction(Prime(44), Root(44), RoundConstant(44))
    ensures CubeRootFraction(Prime(45), Root(45), RoundConstant(45))
    ensures CubeRootFraction(Prime(46), Root(46), RoundConstant(46))
    ensures CubeRootFraction(Prime(47), Root(47), RoundConstant(47))
  {
    hide RoundConstant, Prime, Root;
    Constants40();
    Primes40();
  }

  lemma CubeRoots48()
    ensures CubeRootFraction(Prime(48), Root(48), RoundConstant(48))
    ensures CubeRootFraction(Prime(49), Root(49), RoundConstant(49))
    ensures CubeRootFraction(Prime(50), Root(50), RoundConstant(50))
    ensures CubeRootFraction(Prime(51), Root(51), RoundConstant(51))
  {
    hide RoundConstant, Prime, Root;
    Constants48();
    Primes48();
  }

  lemma CubeRoots52()
    ensures CubeRootFraction(Prime(52), Root(52), RoundConstant(52))
    ensures CubeRootFraction(Prime(53), Root(53), RoundConstant(53))
    ensures CubeRootFraction(Prime(54), Root(54), RoundConstant(54))
    ensures CubeRootFraction(Prime(55), Root(55), RoundConstant(55))
  {
    hide RoundConstant, Prime, Root;
    Constants48();
    Primes48();
  }

  lemma CubeRoots56()
    ensures CubeRootFraction(Prime(56), Root(56), RoundConstant(56))
    ensures CubeRootFraction(Prime(57), Root(57), RoundConstant(57))
    ensures CubeRootFraction(Prime(58), Root(58), RoundConstant(58))
    ensures CubeRootFraction(Prime(59), Root(59), RoundConstant(59))
  {
    hide RoundConstant, Prime, Root;
    Constants56();
    Primes56();
  }

  lemma CubeRoots60()
    ensures CubeRootFraction(Prime(60), Root(60), RoundConstant(60))
    ensures CubeRootFraction(Prime(61), Root(61), RoundConstant(61))
    ensures CubeRootFraction(Prime(62), Root(62), RoundConstant(62))
    ensures CubeRootFraction(Prime(63), Root(63), RoundConstant(63))
  {
    hide RoundConstant, Prime, Root;
    Constants56();
    Primes56();
  }

  /** Round constant `t` comes from the cube root of the prime at `t`. */
  lemma RoundConstantsAreCubeRoots(t: nat)
    requires t < 64
    ensures CubeRootFraction(Prime(t), Root(t), RoundConstant(t))
  {
    hide RoundConstant, Prime, Root, CubeRootFraction;
    if t < 4 {
      CubeRoots0();
    } else if t < 8 {
      CubeRoots4();
    } else if t < 12 {
      CubeRoots8();
    } else if t < 16 {
      CubeRoots12();
    } else if t < 20 {
      CubeRoots16();
    } else if t < 24 {
      CubeRoots20();
    } else if t < 28 {
      CubeRoots24();
    } else if t < 32 {
      CubeRoots28();
    } else if t < 36 {
      CubeRoots32();
    } else if t < 40 {
      CubeRoots36();
    } else if t < 44 {
      CubeRoots40();
    } else if t < 48 {
      CubeRoots44();
    } else if t < 52 {
      CubeRoots48();
    } else if t < 56 {
      CubeRoots52();
    } else if t < 60 {
      CubeRoots56();
    } else {
      CubeRoots60();
    }
  }

  // ------------------------------------------------------------------
  // A known answer
  // ------------------------------------------------------------------

  /** One round from a known state: two words are new, the others move along. */
  lemma Step(block: seq<Byte>, t: nat, v: Hash, k: Word, w: Word, a: Word, e: Word) returns (next: Hash)
    requires |block| == 64 && t < 64 && Rounds(INITIAL, block, t) == v && RoundConstant(t) == k && Schedule(block, t) == w
    requires Round(v, k, w) == Hash(a, v.a, v.b, v.c, e, v.e, v.f, v.g)
    ensures next == Hash(a, v.a, v.b, v.c, e, v.e, v.f, v.g) && Rounds(INITIAL, block, t + 1) == next
  {
    hide Round, Schedule, RoundConstant;
    next := Round(v, k, w);
  }

  lemma FirstState(block: seq<Byte>)
    requires |block| == 64
    ensures Rounds(INITIAL, block, 0) == Hash(0x6a09e667, 0xbb67ae85, 0x3c6ef372, 0xa54ff53a, 0x510e527f, 0x9b05688c, 0x1f83d9ab, 0x5be0cd19)
  {
    hide Schedule;
  }

  /** The one block of "abc". */
  ghost predicate IsAbc(block: seq<Byte>)
    requires |block| == 64
  {
    && block[0] == 0x61 && block[1] == 0x62 && block[2] == 0x63 && block[3] == 0x80
    && (forall i :: 4 <= i < 63 ==> block[i] == 0) && block[63] == 24
  }

  lemma Words0(block: seq<Byte>)
    requires |block| == 64 && IsAbc(block)
    ensures Schedule(block, 0) == 0x61626380 && Schedule(block, 1) == 0x00000000
    ensures Schedule(block, 2) == 0x00000000 && Schedule(block, 3) == 0x00000000
    ensures Schedule(block, 4) == 0x00000000 && Schedule(block, 5) == 0x00000000
    ensures Schedule(block, 6) == 0x00000000 && Schedule(block, 7) == 0x00000000
    ensures Schedule(block, 8) == 0x00000000 && Schedule(block, 9) == 0x00000000
    ensures Schedule(block, 10) == 0x00000000 && Schedule(block, 11) == 0x00000000
    ensures Schedule(block, 12) == 0x00000000 && Schedule(block, 13) == 0x00000000
    ensures Schedule(block, 14) == 0x00000000 && Schedule(block, 15) == 0x00000018
  {
  }

  lemma Words16(block: seq<Byte>)
    requires |block| == 64 && IsAbc(block)
    ensures Schedule(block, 16) == 0x61626380 && Schedule(block, 17) == 0x000f0000
    ensures Schedule(block, 18) == 0x7da86405 && Schedule(block, 19) == 0x600003c6
    ensures Schedule(block, 20) == 0x3e9d7b78 && Schedule(block, 21) == 0x0183fc00
    ensures Schedule(block, 22) == 0x12dcbfdb && Schedule(block, 23) == 0xe2e2c38e
    ensures Schedule(block, 24) == 0xc8215c1a && Schedule(block, 25) == 0xb73679a2
    ensures Schedule(block, 26) == 0xe5bc3909 && Schedule(block, 27) == 0x32663c5b
    ensures Schedule(block, 28) == 0x9d209d67 && Schedule(block, 29) == 0xec8726cb
    ensures Schedule(block, 30) == 0x702138a4 && Schedule(block, 31) == 0xd3b7973b
  {
    hide Schedule, IsAbc;
    Words0(block);
    ScheduleNext(block, 16);
    ScheduleNext(block, 17);
    ScheduleNext(block, 18);
    ScheduleNext(block, 19);
    ScheduleNext(block, 20);
    ScheduleNext(block, 21);
    ScheduleNext(block, 22);
    ScheduleNext(block, 23);
    ScheduleNext(block, 24);
    ScheduleNext(block, 25);
    ScheduleNext(block, 26);
    ScheduleNext(block, 27);
    ScheduleNext(block, 28);
    ScheduleNext(block, 29);
    ScheduleNext(block, 30);
    ScheduleNext(block, 31);
  }

  lemma Words32(block: seq<Byte>)
    requires |block| == 64 && IsAbc(block)
    ensures Schedule(block, 32) == 0x93f5997f && Schedule(block, 33) == 0x3b68ba73
    ensures Schedule(block, 34) == 0xaff4ffc1 && Schedule(block, 35) == 0xf10a5c62
    ensures Schedule(block, 36) == 0x0a8b3996 && Schedule(block, 37) == 0x72af830a
    ensures Schedule(block, 38) == 0x9409e33e && Schedule(block, 39) == 0x24641522
    ensures Schedule(block, 40) == 0x9f47bf94 && Schedule(block, 41) == 0xf0a64f5a
    ensures Schedule(block, 42) == 0x3e246a79 && Schedule(block, 43) == 0x27333ba3
    ensures Schedule(block, 44) == 0x0c4763f2 && Schedule(block, 45) == 0x840abf27
    ensures Schedule(block, 46) == 0x7a290d5d && Schedule(block, 47) == 0x065c43da
  {
    hide Schedule, IsAbc;
    Words16(block);
    ScheduleNext(block, 32);
    ScheduleNext(block, 33);
    ScheduleNext(block, 34);
    ScheduleNext(block, 35);
    ScheduleNext(block, 36);
    ScheduleNext(block, 37);
    ScheduleNext(block, 38);
    ScheduleNext(block, 39);
    ScheduleNext(block, 40);
    ScheduleNext(block, 41);
    ScheduleNext(block, 42);
    ScheduleNext(block, 43);
    ScheduleNext(block, 44);
    ScheduleNext(block, 45);
    ScheduleNext(block, 46);
    ScheduleNext(block, 47);
  }

  lemma Words48(block: seq<Byte>)
    requires |block| == 64 && IsAbc(block)
    ensures Schedule(block, 48) == 0xfb3e89cb && Schedule(block, 49) == 0xcc7617db
    ensures Schedule(block, 50) == 0xb9e66c34 && Schedule(block, 51) == 0xa9993667
    ensures Schedule(block, 52) == 0x84badedd && Schedule(block, 53) == 0xc21462bc
    ensures Schedule(block, 54) == 0x1487472c && Schedule(block, 55) == 0xb20f7a99
    ensures Schedule(block, 56) == 0xef57b9cd && Schedule(block, 57) == 0xebe6b238
    ensures Schedule(block, 58) == 0x9fe3095e && Schedule(block, 59) == 0x78bc8d4b
    ensures Schedule(block, 60) == 0xa43fcf15 && Schedule(block, 61) == 0x668b2ff8
    ensures Schedule(block, 62) == 0xeeaba2cc && Schedule(block, 63) == 0x12b1edeb
  {
    hide Schedule, IsAbc;
    Words32(block);
    ScheduleNext(block, 48);
    ScheduleNext(block, 49);
    ScheduleNext(block, 50);
    ScheduleNext(block, 51);
    ScheduleNext(block, 52);
    ScheduleNext(block, 53);
    ScheduleNext(block, 54);
    ScheduleNext(block, 55);
    ScheduleNext(block, 56);
    ScheduleNext(block, 57);
    ScheduleNext(block, 58);
    ScheduleNext(block, 59);
    ScheduleNext(block, 60);
    ScheduleNext(block, 61);
    ScheduleNext(block, 62);
    ScheduleNext(block, 63);
  }

  lemma Rounds0(block: seq<Byte>)
    requires |block| == 64 && IsAbc(block)
    ensures Rounds(INITIAL, block, 4) == Hash(0xd550f666, 0xc8c347a7, 0x5a6ad9ad, 0x5d6aebcd, 0x24e00850, 0xf92939eb, 0x78ce7989, 0xfa2a4622)
  {
    hide Rounds, Schedule, RoundConstant, IsAbc;
    FirstState(block);
    Constants0();
    Words0(block);
    var v := Hash(0x6a09e667, 0xbb67ae85, 0x3c6ef372, 0xa54ff53a, 0x510e527f, 0x9b05688c, 0x1f83d9ab, 0x5be0cd19);
    v := Step(block, 0, v, 0x428a2f98, 0x61626380, 0x5d6aebcd, 0xfa2a4622);
    v := Step(block, 1, v, 0x71374491, 0x00000000, 0x5a6ad9ad, 0x78ce7989);
    v := Step(block, 2, v, 0xb5c0fbcf, 0x00000000, 0xc8c347a7, 0xf92939eb);
    v := Step(block, 3, v, 0xe9b5dba5, 0x00000000, 0xd550f666, 0x24e00850);
  }

  lemma Rounds4(block: seq<Byte>)
    requires |block| == 64 && IsAbc(block)
    ensures Rounds(INITIAL, block, 8) == Hash(0x85a07b5f, 0xe5030380, 0x2b4209f5, 0x04409a6a, 0x0c657a79, 0x9b27a401, 0x714260ad, 0x43ada245)
  {
    hide Rounds, Schedule, RoundConstant, IsAbc;
    Rounds0(block);
    Constants0();
    Words0(block);
    var v := Hash(0xd550f666, 0xc8c347a7, 0x5a6ad9ad, 0x5d6aebcd, 0x24e00850, 0xf92939eb, 0x78ce7989, 0xfa2a4622);
    v := Step(block, 4, v, 0x3956c25b, 0x00000000, 0x04409a6a, 0x43ada245);
    v := Step(block, 5, v, 0x59f111f1, 0x00000000, 0x2b4209f5, 0x714260ad);
    v := Step(block, 6, v, 0x923f82a4, 0x00000000, 0xe5030380, 0x9b27a401);
    v := Step(block, 7, v, 0xab1c5ed5, 0x00000000, 0x85a07b5f, 0x0c657a79);
  }

  lemma Rounds8(block: seq<Byte>)
    requires |block| == 64 && IsAbc(block)
    ensures Rounds(INITIAL, block, 12) == Hash(0xf71fc5a9, 0x4798a3f4, 0x8c87346b, 0x8e04ecb9, 0x816fd6e9, 0x436b23e8, 0x1cc92596, 0x32ca2d8c)
  {
    hide Rounds, Schedule, RoundConstant, IsAbc;
    Rounds4(block);
    Constants8();
    Words0(block);
    var v := Hash(0x85a07b5f, 0xe5030380, 0x2b4209f5, 0x04409a6a, 0x0c657a79, 0x9b27a401, 0x714260ad, 0x43ada245);
    v := Step(block, 8, v, 0xd807aa98, 0x00000000, 0x8e04ecb9, 0x32ca2d8c);
    v := Step(block, 9, v, 0x12835b01, 0x00000000, 0x8c87346b, 0x1cc92596);
    v := Step(block, 10, v, 0x243185be, 0x00000000, 0x4798a3f4, 0x436b23e8);
    v := Step(block, 11, v, 0x550c7dc3, 0x00000000, 0xf71fc5a9, 0x816fd6e9);
  }

  lemma Rounds12(block: seq<Byte>)
    requires |block| == 64 && IsAbc(block)
    ensures Rounds(INITIAL, block, 16) == Hash(0xb0fa238e, 0xc0645fde, 0xd932eb16, 0x87912990, 0x07590dcd, 0x0b92f20c, 0x745a48de, 0x1e578218)
  {
    hide Rounds, Schedule, RoundConstant, IsAbc;
    Rounds8(block);
    Constants8();
    Words0(block);
    var v := Hash(0xf71fc5a9, 0x4798a3f4, 0x8c87346b, 0x8e04ecb9, 0x816fd6e9, 0x436b23e8, 0x1cc92596, 0x32ca2d8c);
    v := Step(block, 12, v, 0x72be5d74, 0x00000000, 0x87912990, 0x1e578218);
    v := Step(block, 13, v, 0x80deb1fe, 0x00000000, 0xd932eb16, 0x745a48de);
    v := Step(block, 14, v, 0x9bdc06a7, 0x00000000, 0xc0645fde, 0x0b92f20c);
    v := Step(block, 15, v, 0xc19bf174, 0x00000018, 0xb0fa238e, 0x07590dcd);
  }

  lemma Rounds16(block: seq<Byte>)
    requires |block| == 64 && IsAbc(block)
    ensures Rounds(INITIAL, block, 20) == Hash(0xe1f20c33, 0xfe777bbf, 0xc2fbd9d1, 0x21da9a9b, 0xb0638179, 0xcc899961, 0x846ee454, 0x8034229c)
  {
    hide Rounds, Schedule, RoundConstant, IsAbc;
    Rounds12(block);
    Constants16();
    Words16(block);
    var v := Hash(0xb0fa238e, 0xc0645fde, 0xd932eb16, 0x87912990, 0x07590dcd, 0x0b92f20c, 0x745a48de, 0x1e578218);
    v := Step(block, 16, v, 0xe49b69c1, 0x61626380, 0x21da9a9b, 0x8034229c);
    v := Step(block, 17, v, 0xefbe4786, 0x000f0000, 0xc2fbd9d1, 0x846ee454);
    v := Step(block, 18, v, 0x0fc19dc6, 0x7da86405, 0xfe777bbf, 0xcc899961);
    v := Step(block, 19, v, 0x240ca1cc, 0x600003c6, 0xe1f20c33, 0xb0638179);
  }

  lemma Rounds20(block: seq<Byte>)
    requires |block| == 64 && IsAbc(block)
    ensures Rounds(INITIAL, block, 24) == Hash(0xc5d53d8d, 0xa7a3623f, 0xc2606d6d, 0x9dc68b63, 0xaa47c347, 0x49f5114a, 0xe1257970, 0x8ada8930)
  {
    hide Rounds, Schedule, RoundConstant, IsAbc;
    Rounds16(block);
    Constants16();
    Words16(block);
    var v := Hash(0xe1f20c33, 0xfe777bbf, 0xc2fbd9d1, 0x21da9a9b, 0xb0638179, 0xcc899961, 0x846ee454, 0x8034229c);
    v := Step(block, 20, v, 0x2de92c6f, 0x3e9d7b78, 0x9dc68b63, 0x8ada8930);
    v := Step(block, 21, v, 0x4a7484aa, 0x0183fc00, 0xc2606d6d, 0xe1257970);
    v := Step(block, 22, v, 0x5cb0a9dc, 0x12dcbfdb, 0xa7a3623f, 0x49f5114a);
    v := Step(block, 23, v, 0x76f988da, 0xe2e2c38e, 0xc5d53d8d, 0xaa47c347);
  }

  lemma Rounds24(block: seq<Byte>)
    requires |block| == 64 && IsAbc(block)
    ensures Rounds(INITIAL, block, 28) == Hash(0x77d37528, 0xb62ec4bc, 0xcde8037d, 0x1c2c2838, 0xedffbff8, 0xc74c6516, 0x14383d8e, 0x2823ef91)
  {
    hide Rounds, Schedule, RoundConstant, IsAbc;
    Rounds20(block);
    Constants24();
    Words16(block);
    var v := Hash(0xc5d53d8d, 0xa7a3623f, 0xc2606d6d, 0x9dc68b63, 0xaa47c347, 0x49f5114a, 0xe1257970, 0x8ada8930);
    v := Step(block, 24, v, 0x983e5152, 0xc8215c1a, 0x1c2c2838, 0x2823ef91);
    v := Step(block, 25, v, 0xa831c66d, 0xb73679a2, 0xcde8037d, 0x14383d8e);
    v := Step(block, 26, v, 0xb00327c8, 0xe5bc3909, 0xb62ec4bc, 0xc74c6516);
    v := Step(block, 27, v, 0xbf597fc7, 0x32663c5b, 0x77d37528, 0xedffbff8);
  }

  lemma Rounds28(block: seq<Byte>)
    requires |block| == 64 && IsAbc(block)
    ensures Rounds(INITIAL, block, 32) == Hash(0x73b33bf5, 0xea992a22, 0xa0060b30, 0x363482c9, 0xba591112, 0x0109ab3a, 0xade79437, 0x6112a3b7)
  {
    hide Rounds, Schedule, RoundConstant, IsAbc;
    Rounds24(block);
    Constants24();
    Words16(block);
    var v := Hash(0x77d37528, 0xb62ec4bc, 0xcde8037d, 0x1c2c2838, 0xedffbff8, 0xc74c6516, 0x14383d8e, 0x2823ef91);
    v := Step(block, 28, v, 0xc6e00bf3, 0x9d209d67, 0x363482c9, 0x6112a3b7);
    v := Step(block, 29, v, 0xd5a79147, 0xec8726cb, 0xa0060b30, 0xade79437);
    v := Step(block, 30, v, 0x06ca6351, 0x702138a4, 0xea992a22, 0x0109ab3a);
    v := Step(block, 31, v, 0x14292967, 0xd3b7973b, 0x73b33bf5, 0xba591112);
  }

  lemma Rounds32(block: seq<Byte>)
    requires |block| == 64 && IsAbc(block)
    ensures Rounds(INITIAL, block, 36) == Hash(0x65a0cfe4, 0xa9a7738c, 0xfe604df5, 0x98e12507, 0xf4b002d6, 0x085f3833, 0x59249dd3, 0x9cd9f5f6)
  {
    hide Rounds, Schedule, RoundConstant, IsAbc;
    Rounds28(block);
    Constants32();
    Words32(block);
    var v := Hash(0x73b33bf5, 0xea992a22, 0xa0060b30, 0x363482c9, 0xba591112, 0x0109ab3a, 0xade79437, 0x6112a3b7);
    v := Step(block, 32, v, 0x27b70a85, 0x93f5997f, 0x98e12507, 0x9cd9f5f6);
    v := Step(block, 33, v, 0x2e1b2138, 0x3b68ba73, 0xfe604df5, 0x59249dd3);
    v := Step(block, 34, v, 0x4d2c6dfc, 0xaff4ffc1, 0xa9a7738c, 0x085f3833);
    v := Step(block, 35, v, 0x53380d13, 0xf10a5c62, 0x65a0cfe4, 0xf4b002d6);
  }

  lemma Rounds36(block: seq<Byte>)
    requires |block| == 64 && IsAbc(block)
    ensures Rounds(INITIAL, block, 40) == Hash(0x79ea687a, 0x6dc57a8a, 0x34df1604, 0x41a65cb1, 0x1efbc0a0, 0xf0781bc8, 0xa507a53d, 0x0772a26b)
  {
    hide Rounds, Schedule, RoundConstant, IsAbc;
    Rounds32(block);
    Constants32();
    Words32(block);
    var v := Hash(0x65a0cfe4, 0xa9a7738c, 0xfe604df5, 0x98e12507, 0xf4b002d6, 0x085f3833, 0x59249dd3, 0x9cd9f5f6);
    v := Step(block, 36, v, 0x650a7354, 0x0a8b3996, 0x41a65cb1, 0x0772a26b);
    v := Step(block, 37, v, 0x766a0abb, 0x72af830a, 0x34df1604, 0xa507a53d);
    v := Step(block, 38, v, 0x81c2c92e, 0x9409e33e, 0x6dc57a8a, 0xf0781bc8);
    v := Step(block, 39, v, 0x92722c85, 0x24641522, 0x79ea687a, 0x1efbc0a0);
  }

  lemma Rounds40(block: seq<Byte>)
    requires |block| == 64 && IsAbc(block)
    ensures Rounds(INITIAL, block, 44) == Hash(0x9d4baf93, 0x17aa0dfe, 0xdf46652f, 0xd6670766, 0xfda24c2e, 0xdecd4715, 0x838b2711, 0x26352d63)
  {
    hide Rounds, Schedule, RoundConstant, IsAbc;
    Rounds36(block);
    Constants40();
    Words32(block);
    var v := Hash(0x79ea687a, 0x6dc57a8a, 0x34df1604, 0x41a65cb1, 0x1efbc0a0, 0xf0781bc8, 0xa507a53d, 0x0772a26b);
    v := Step(block, 40, v, 0xa2bfe8a1, 0x9f47bf94, 0xd6670766, 0x26352d63);
    v := Step(block, 41, v, 0xa81a664b, 0xf0a64f5a, 0xdf46652f, 0x838b2711);
    v := Step(block, 42, v, 0xc24b8b70, 0x3e246a79, 0x17aa0dfe, 0xdecd4715);
    v := Step(block, 43, v, 0xc76c51a3, 0x27333ba3, 0x9d4baf93, 0xfda24c2e);
  }

  lemma Rounds44(block: seq<Byte>)
    requires |block| == 64 && IsAbc(block)
    ensures Rounds(INITIAL, block, 48) == Hash(0x4172328d, 0xa14c14b0, 0x72ab4b91, 0x26628815, 0xfecf0bc6, 0xd57b94a9, 0xb7755da1, 0xa80f11f0)
  {
    hide Rounds, Schedule, RoundConstant, IsAbc;
    Rounds40(block);
    Constants40();
    Words32(block);
    var v := Hash(0x9d4baf93, 0x17aa0dfe, 0xdf46652f, 0xd6670766, 0xfda24c2e, 0xdecd4715, 0x838b2711, 0x26352d63);
    v := Step(block, 44, v, 0xd192e819, 0x0c4763f2, 0x26628815, 0xa80f11f0);
    v := Step(block, 45, v, 0xd6990624, 0x840abf27, 0x72ab4b91, 0xb7755da1);
    v := Step(block, 46, v, 0xf40e3585, 0x7a290d5d, 0xa14c14b0, 0xd57b94a9);
    v := Step(block, 47, v, 0x106aa070, 0x065c43da, 0x4172328d, 0xfecf0bc6);
  }

  lemma Rounds48(block: seq<Byte>)
    requires |block| == 64 && IsAbc(block)
    ensures Rounds(INITIAL, block, 52) == Hash(0x886e7a22, 0x7a0508a1, 0xf11bfaa8, 0x05757ceb, 0x49231c1e, 0x52f1ccf7, 0x6e5c390c, 0xbd714038)
  {
    hide Rounds, Schedule, RoundConstant, IsAbc;
    Rounds44(block);
    Constants48();
    Words48(block);
    var v := Hash(0x4172328d, 0xa14c14b0, 0x72ab4b91, 0x26628815, 0xfecf0bc6, 0xd57b94a9, 0xb7755da1, 0xa80f11f0);
    v := Step(block, 48, v, 0x19a4c116, 0xfb3e89cb, 0x05757ceb, 0xbd714038);
    v := Step(block, 49, v, 0x1e376c08, 0xcc7617db, 0xf11bfaa8, 0x6e5c390c);
    v := Step(block, 50, v, 0x2748774c, 0xb9e66c34, 0x7a0508a1, 0x52f1ccf7);
    v := Step(block, 51, v, 0x34b0bcb5, 0xa9993667, 0x886e7a22, 0x49231c1e);
  }

  lemma Rounds52(block: seq<Byte>)
    requires |block| == 64 && IsAbc(block)
    ensures Rounds(INITIAL, block, 56) == Hash(0x38cc9913, 0x3ec45cdb, 0xf5702fdb, 0x101fd28f, 0x54cb266b, 0xe50e1b4f, 0x9f4787c3, 0x529e7d00)
  {
    hide Rounds, Schedule, RoundConstant, IsAbc;
    Rounds48(block);
    Constants48();
    Words48(block);
    var v := Hash(0x886e7a22, 0x7a0508a1, 0xf11bfaa8, 0x05757ceb, 0x49231c1e, 0x52f1ccf7, 0x6e5c390c, 0xbd714038);
    v := Step(block, 52, v, 0x391c0cb3, 0x84badedd, 0x101fd28f, 0x529e7d00);
    v := Step(block, 53, v, 0x4ed8aa4a, 0xc21462bc, 0xf5702fdb, 0x9f4787c3);
    v := Step(block, 54, v, 0x5b9cca4f, 0x1487472c, 0x3ec45cdb, 0xe50e1b4f);
    v := Step(block, 55, v, 0x682e6ff3, 0xb20f7a99, 0x38cc9913, 0x54cb266b);
  }

  lemma Rounds56(block: seq<Byte>)
    requires |block| == 64 && IsAbc(block)
    ensures Rounds(INITIAL, block, 60) == Hash(0xb6ae8fff, 0xffb70472, 0xc062d46f, 0xfcd1887b, 0xb21bad3d, 0x6d83bfc6, 0x7e44008e, 0x9b5e906c)
  {
    hide Rounds, Schedule, RoundConstant, IsAbc;
    Rounds52(block);
    Constants56();
    Words48(block);
    var v := Hash(0x38cc9913, 0x3ec45cdb, 0xf5702fdb, 0x101fd28f, 0x54cb266b, 0xe50e1b4f, 0x9f4787c3, 0x529e7d00);
    v := Step(block, 56, v, 0x748f82ee, 0xef57b9cd, 0xfcd1887b, 0x9b5e906c);
    v := Step(block, 57, v, 0x78a5636f, 0xebe6b238, 0xc062d46f, 0x7e44008e);
    v := Step(block, 58, v, 0x84c87814, 0x9fe3095e, 0xffb70472, 0x6d83bfc6);
    v := Step(block, 59, v, 0x8cc70208, 0x78bc8d4b, 0xb6ae8fff, 0xb21bad3d);
  }

  lemma Rounds60(block: seq<Byte>)
    requires |block| == 64 && IsAbc(block)
    ensures Rounds(INITIAL, block, 64) == Hash(0x506e3058, 0xd39a2165, 0x04d24d6c, 0xb85e2ce9, 0x5ef50f24, 0xfb121210, 0x948d25b6, 0x961f4894)
  {
    hide Rounds, Schedule, RoundConstant, IsAbc;
    Rounds56(block);
    Constants56();
    Words48(block);
    var v := Hash(0xb6ae8fff, 0xffb70472, 0xc062d46f, 0xfcd1887b, 0xb21bad3d, 0x6d83bfc6, 0x7e44008e, 0x9b5e906c);
    v := Step(block, 60, v, 0x90befffa, 0xa43fcf15, 0xb85e2ce9, 0x961f4894);
    v := Step(block, 61, v, 0xa4506ceb, 0x668b2ff8, 0x04d24d6c, 0x948d25b6);
    v := Step(block, 62, v, 0xbef9a3f7, 0xeeaba2cc, 0xd39a2165, 0xfb121210);
    v := Step(block, 63, v, 0xc67178f2, 0x12b1edeb, 0x506e3058, 0x5ef50f24);
  }

  lemma AbcCompresses(block: seq<Byte>)
    requires |block| == 64 && IsAbc(block)
    ensures Compress(INITIAL, block) == Hash(0xba7816bf, 0x8f01cfea, 0x414140de, 0x5dae2223, 0xb00361a3, 0x96177a9c, 0xb410ff61, 0xf20015ad)
  {
    hide Rounds, IsAbc;
    Rounds60(block);
  }

  lemma AbcIsOneBlock()
    ensures |PadWith([0x61, 0x62, 0x63], 24)| == 64 && IsAbc(PadWith([0x61, 0x62, 0x63], 24))
  {
    hide BigEndian;
    assert ZeroBytes(3) == 52;
    AbcLength();
  }

  lemma AbcLength()
    ensures BigEndian(24, 8) == Zeros(7) + [24]
  {
    ZeroLength(7);
    assert BigEndian(24, 8) == BigEndian(0, 7) + [24];
  }

  lemma {:induction false} ZeroLength(size: nat)
    ensures BigEndian(0, size) == Zeros(size)
  {
    if size != 0 {
      ZeroLength(size - 1);
    }
  }

  lemma AbcIsAllData(data: seq<Byte>)
    requires |data| == 64 && IsAbc(data)
    ensures CompressAll(INITIAL, data) == Hash(0xba7816bf, 0x8f01cfea, 0x414140de, 0x5dae2223, 0xb00361a3, 0x96177a9c, 0xb410ff61, 0xf20015ad)
  {
    hide Compress, IsAbc;
    AbcCompresses(data);
    assert data[..0] == [] && data[0..] == data;
    assert CompressAll(INITIAL, []) == INITIAL;
  }

  const ABC_DIGEST: seq<Byte> :=
    [0xba, 0x78, 0x16, 0xbf] + [0x8f, 0x01, 0xcf, 0xea] +
    [0x41, 0x41, 0x40, 0xde] + [0x5d, 0xae, 0x22, 0x23] +
    [0xb0, 0x03, 0x61, 0xa3] + [0x96, 0x17, 0x7a, 0x9c] +
    [0xb4, 0x10, 0xff, 0x61] + [0xf2, 0x00, 0x15, 0xad]

  lemma AppendWord(words: seq<Word>, bytes: seq<Byte>, w: Word, more: seq<Byte>) returns (words': seq<Word>, bytes': seq<Byte>)
    requires WordsBytes(words) == bytes && WordBytes(w) == more
    ensures words' == words + [w] && bytes' == bytes + more && WordsBytes(words') == bytes'
  {
    hide WordBytes;
    words', bytes' := words + [w], bytes + more;
    assert words'[..|words|] == words;
  }

  lemma AbcDigest()
    ensures Digest(Hash(0xba7816bf, 0x8f01cfea, 0x414140de, 0x5dae2223, 0xb00361a3, 0x96177a9c, 0xb410ff61, 0xf20015ad)) == ABC_DIGEST
  {
    var words: seq<Word>, bytes: seq<Byte> := [], [];
    words, bytes := AppendWord(words, bytes, 0xba7816bf, [0xba, 0x78, 0x16, 0xbf]);
    words, bytes := AppendWord(words, bytes, 0x8f01cfea, [0x8f, 0x01, 0xcf, 0xea]);
    words, bytes := AppendWord(words, bytes, 0x414140de, [0x41, 0x41, 0x40, 0xde]);
    words, bytes := AppendWord(words, bytes, 0x5dae2223, [0x5d, 0xae, 0x22, 0x23]);
    words, bytes := AppendWord(words, bytes, 0xb00361a3, [0xb0, 0x03, 0x61, 0xa3]);
    words, bytes := AppendWord(words, bytes, 0x96177a9c, [0x96, 0x17, 0x7a, 0x9c]);
    words, bytes := AppendWord(words, bytes, 0xb410ff61, [0xb4, 0x10, 0xff, 0x61]);
    words, bytes := AppendWord(words, bytes, 0xf20015ad, [0xf2, 0x00, 0x15, 0xad]);
    assert words == HashWords(Hash(0xba7816bf, 0x8f01cfea, 0x414140de, 0x5dae2223, 0xb00361a3, 0x96177a9c, 0xb410ff61, 0xf20015ad));
    assert bytes == ABC_DIGEST;
  }

  /** The digest of "abc". */
  lemma DigestOfAbc()
    ensures Sha256([0x61, 0x62, 0x63]) == ABC_DIGEST
  {
    hide CompressAll, IsAbc, PadWith, Digest;
    var block := PadWith([0x61, 0x62, 0x63], 24);
    AbcIsOneBlock();
    AbcIsAllData(block);
    AbcDigest();
  }

  /**
   HMAC by its padded keys: a key over one block is hashed first, a shorter one is filled up with
   zeros, and the inner and outer keys are its bytes xor 0x36 and xor 0x5c.
   */
  lemma HmacByItsPads(key: seq<Byte>, text: seq<Byte>, inner: seq<Byte>, outer: seq<Byte>)
    requires |inner| == 64 && |outer| == 64
    requires
      var short := if 64 < |key| then Sha256(key) else key;
      forall i :: 0 <= i < 64 ==> inner[i] ^ 0x36 == outer[i] ^ 0x5c == if i < |short| then short[i] else 0
    ensures Hmac(key, text) == Sha256(outer + Sha256(inner + text))
  {
    hide Sha256;
    assert XorEach(BlockKey(key), 0x36) == inner;
    assert XorEach(BlockKey(key), 0x5c) == outer;
  }
}
