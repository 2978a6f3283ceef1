/**
 The functions and constants of SHA-256 by what they are for, bit by bit and root by root, apart
 from the formulas that compute them.
 */
module Sha256Laws {
  import opened Sha256

  /* ---------- bits ---------- */

  /** The bit of weight two to the n. */
  predicate Bit(x: Word, n: bv6)
    requires n < 32
  {
    (x >> n) & 1 == 1
  }

  lemma DifferBit(x: Word, y: Word, n: bv6)
    requires n < 32
    ensures Bit(x ^ y, n) == (Bit(x, n) != Bit(y, n))
  {
  }

  lemma XorBit(x: Word, y: Word, n: bv6)
    requires n < 32
    ensures Bit(Xor(x, y), n) == (Bit(x, n) != Bit(y, n))
  {
    hide Bit;
    DifferBit(x, y, n);
  }

  lemma AndBit(x: Word, y: Word, n: bv6)
    requires n < 32
    ensures Bit(And(x, y), n) == (Bit(x, n) && Bit(y, n))
  {
  }

  lemma NotBit(x: Word, n: bv6)
    requires n < 32
    ensures Bit(Not(x), n) == !Bit(x, n)
  {
  }

  lemma ShiftBit(x: Word, n: bv6)
    requires n < 32
    ensures Bit(Shr(x, 3), n) == (n < 29 && Bit(x, (n + 3) % 32))
    ensures Bit(Shr(x, 10), n) == (n < 22 && Bit(x, (n + 10) % 32))
  {
  }

  /** The first argument chooses, bit by bit, between the other two. */
  lemma ChChooses(x: Word, y: Word, z: Word, n: bv6)
    requires n < 32
    ensures Bit(Ch(x, y, z), n) == if Bit(x, n) then Bit(y, n) else Bit(z, n)
  {
    hide Bit, Xor, And, Not;
    XorBit(And(x, y), And(Not(x), z), n);
    AndBit(x, y, n);
    AndBit(Not(x), z, n);
    NotBit(x, n);
  }

  /** Each bit is as most of the three arguments have it. */
  lemma MajIsMajority(x: Word, y: Word, z: Word, n: bv6)
    requires n < 32
    ensures Bit(x, n) == Bit(y, n) ==> Bit(Maj(x, y, z), n) == Bit(x, n)
    ensures Bit(x, n) == Bit(z, n) ==> Bit(Maj(x, y, z), n) == Bit(x, n)
    ensures Bit(y, n) == Bit(z, n) ==> Bit(Maj(x, y, z), n) == Bit(y, n)
  {
    hide Bit, Xor, And;
    XorBit(Xor(And(x, y), And(x, z)), And(y, z), n);
    XorBit(And(x, y), And(x, z), n);
    AndBit(x, y, n);
    AndBit(x, z, n);
    AndBit(y, z, n);
  }

  lemma RotrDown(x: Word, k: bv6, n: bv6)
    requires 0 < k < 32 && n < 32 && n + k < 32
    ensures Bit(Rotr(x, k), n) == Bit(x, n + k)
  {
  }

  lemma RotrRound(x: Word, k: bv6, n: bv6)
    requires 0 < k < 32 && n < 32 && n + k >= 32
    ensures Bit(Rotr(x, k), n) == Bit(x, n + k - 32)
  {
  }

  lemma Wrapped(k: bv6, n: bv6)
    requires 0 < k < 32 && n < 32
    ensures (n + k) % 32 == if n + k < 32 then n + k else n + k - 32
  {
  }

  /** A rotation takes each bit so many places down, and round at the end. */
  lemma RotrMoves(x: Word, k: bv6, n: bv6)
    requires 0 < k < 32 && n < 32
    ensures Bit(Rotr(x, k), n) == Bit(x, (n + k) % 32)
  {
    hide Bit, Rotr;
    Wrapped(k, n);
    if n + k < 32 { RotrDown(x, k, n); } else { RotrRound(x, k, n); }
  }

  lemma SameByte0(x: Word, y: Word)
    requires forall n: bv6 :: n < 32 ==> Bit(x, n) == Bit(y, n)
    ensures x & 0x000000ff == y & 0x000000ff
  {
    assert Bit(x, 0) == Bit(y, 0) && Bit(x, 1) == Bit(y, 1) && Bit(x, 2) == Bit(y, 2) && Bit(x, 3) == Bit(y, 3);
    assert Bit(x, 4) == Bit(y, 4) && Bit(x, 5) == Bit(y, 5) && Bit(x, 6) == Bit(y, 6) && Bit(x, 7) == Bit(y, 7);
  }

  lemma SameByte1(x: Word, y: Word)
    requires forall n: bv6 :: n < 32 ==> Bit(x, n) == Bit(y, n)
    ensures x & 0x0000ff00 == y & 0x0000ff00
  {
    assert Bit(x, 8) == Bit(y, 8) && Bit(x, 9) == Bit(y, 9) && Bit(x, 10) == Bit(y, 10) && Bit(x, 11) == Bit(y, 11);
    assert Bit(x, 12) == Bit(y, 12) && Bit(x, 13) == Bit(y, 13) && Bit(x, 14) == Bit(y, 14) && Bit(x, 15) == Bit(y, 15);
  }

  lemma SameByte2(x: Word, y: Word)
    requires forall n: bv6 :: n < 32 ==> Bit(x, n) == Bit(y, n)
    ensures x & 0x00ff0000 == y & 0x00ff0000
  {
    assert Bit(x, 16) == Bit(y, 16) && Bit(x, 17) == Bit(y, 17) && Bit(x, 18) == Bit(y, 18) && Bit(x, 19) == Bit(y, 19);
    assert Bit(x, 20) == Bit(y, 20) && Bit(x, 21) == Bit(y, 21) && Bit(x, 22) == Bit(y, 22) && Bit(x, 23) == Bit(y, 23);
  }

  lemma SameByte3(x: Word, y: Word)
    requires forall n: bv6 :: n < 32 ==> Bit(x, n) == Bit(y, n)
    ensures x & 0xff000000 == y & 0xff000000
  {
    assert Bit(x, 24) == Bit(y, 24) && Bit(x, 25) == Bit(y, 25) && Bit(x, 26) == Bit(y, 26) && Bit(x, 27) == Bit(y, 27);
    assert Bit(x, 28) == Bit(y, 28) && Bit(x, 29) == Bit(y, 29) && Bit(x, 30) == Bit(y, 30) && Bit(x, 31) == Bit(y, 31);
  }

  /** A word is its bits. */
  lemma SameBits(x: Word, y: Word)
    requires forall n: bv6 :: n < 32 ==> Bit(x, n) == Bit(y, n)
    ensures x == y
  {
    hide Bit;
    SameByte0(x, y);
    SameByte1(x, y);
    SameByte2(x, y);
    SameByte3(x, y);
  }

  /** Rotating on to a full turn gives the word back. */
  lemma RotrTurns(x: Word, k: bv6)
    requires 0 < k < 32
    ensures Rotr(Rotr(x, k), 32 - k) == x
  {
    hide Rotr, Bit;
    var y := Rotr(Rotr(x, k), 32 - k);
    forall n: bv6 | n < 32 ensures Bit(y, n) == Bit(x, n) {
      FullTurn(k, n);
      RotrMoves(Rotr(x, k), 32 - k, n);
      RotrMoves(x, k, (n + (32 - k)) % 32);
    }
    SameBits(y, x);
  }

  lemma FullTurn(k: bv6, n: bv6)
    requires 0 < k < 32 && n < 32
    ensures ((n + (32 - k)) % 32 + k) % 32 == n && (n + (32 - k)) % 32 < 32
  {
  }

  /** Which three bits each of the four mixing functions adds up. */
  lemma BigSigmaMoves(x: Word, n: bv6)
    requires n < 32
    ensures Bit(BigSigma0(x), n) == (Bit(x, (n + 2) % 32) != (Bit(x, (n + 13) % 32) != Bit(x, (n + 22) % 32)))
    ensures Bit(BigSigma1(x), n) == (Bit(x, (n + 6) % 32) != (Bit(x, (n + 11) % 32) != Bit(x, (n + 25) % 32)))
  {
    hide Bit, Rotr, Xor;
    XorBit(Xor(Rotr(x, 2), Rotr(x, 13)), Rotr(x, 22), n);
    XorBit(Rotr(x, 2), Rotr(x, 13), n);
    RotrMoves(x, 2, n);
    RotrMoves(x, 13, n);
    RotrMoves(x, 22, n);
    XorBit(Xor(Rotr(x, 6), Rotr(x, 11)), Rotr(x, 25), n);
    XorBit(Rotr(x, 6), Rotr(x, 11), n);
    RotrMoves(x, 6, n);
    RotrMoves(x, 11, n);
    RotrMoves(x, 25, n);
  }

  lemma SmallSigmaMoves(x: Word, n: bv6)
    requires n < 32
    ensures Bit(SmallSigma0(x), n) == (Bit(x, (n + 7) % 32) != (Bit(x, (n + 18) % 32) != (n < 29 && Bit(x, (n + 3) % 32))))
    ensures Bit(SmallSigma1(x), n) == (Bit(x, (n + 17) % 32) != (Bit(x, (n + 19) % 32) != (n < 22 && Bit(x, (n + 10) % 32))))
  {
    hide Bit, Rotr, Xor, Shr;
    ShiftBit(x, n);
    XorBit(Xor(Rotr(x, 7), Rotr(x, 18)), Shr(x, 3), n);
    XorBit(Rotr(x, 7), Rotr(x, 18), n);
    RotrMoves(x, 7, n);
    RotrMoves(x, 18, n);
    XorBit(Xor(Rotr(x, 17), Rotr(x, 19)), Shr(x, 10), n);
    XorBit(Rotr(x, 17), Rotr(x, 19), n);
    RotrMoves(x, 17, n);
    RotrMoves(x, 19, n);
  }

  /* ---------- roots ---------- */

  const TWO_32: nat := 0x1_0000_0000

  /** The first thirty-two bits of the fraction of a square root or a cube root, of which w is the
      whole part. */
  predicate SquareRoot(p: nat, w: nat, c: nat) {
    var r := w * TWO_32 + c;
    c < TWO_32 && r * r <= p * TWO_32 * TWO_32 < (r + 1) * (r + 1)
  }

  predicate CubeRoot(p: nat, w: nat, c: nat) {
    var r := w * TWO_32 + c;
    c < TWO_32 && r * r * r <= p * TWO_32 * TWO_32 * TWO_32 < (r + 1) * (r + 1) * (r + 1)
  }

  /** The initial hash is made of the square roots of the first eight primes. */
  lemma InitialIsSquareRoots()
    ensures SquareRoot(2, 1, ToNumber(INITIAL.a))
    ensures SquareRoot(3, 1, ToNumber(INITIAL.b))
    ensures SquareRoot(5, 2, ToNumber(INITIAL.c))
    ensures SquareRoot(7, 2, ToNumber(INITIAL.d))
    ensures SquareRoot(11, 3, ToNumber(INITIAL.e))
    ensures SquareRoot(13, 3, ToNumber(INITIAL.f))
    ensures SquareRoot(17, 4, ToNumber(INITIAL.g))
    ensures SquareRoot(19, 4, ToNumber(INITIAL.h))
  {
  }

  /** The constants of the rounds, in numbers. */
  lemma Constants0()
    ensures K(0) == 0x428a2f98 && K(1) == 0x71374491 && K(2) == 0xb5c0fbcf && K(3) == 0xe9b5dba5
    ensures K(4) == 0x3956c25b && K(5) == 0x59f111f1 && K(6) == 0x923f82a4 && K(7) == 0xab1c5ed5
    ensures K(8) == 0xd807aa98 && K(9) == 0x12835b01 && K(10) == 0x243185be && K(11) == 0x550c7dc3
    ensures K(12) == 0x72be5d74 && K(13) == 0x80deb1fe && K(14) == 0x9bdc06a7 && K(15) == 0xc19bf174
  {
  }

  lemma Constants1()
    ensures K(16) == 0xe49b69c1 && K(17) == 0xefbe4786 && K(18) == 0x0fc19dc6 && K(19) == 0x240ca1cc
    ensures K(20) == 0x2de92c6f && K(21) == 0x4a7484aa && K(22) == 0x5cb0a9dc && K(23) == 0x76f988da
    ensures K(24) == 0x983e5152 && K(25) == 0xa831c66d && K(26) == 0xb00327c8 && K(27) == 0xbf597fc7
    ensures K(28) == 0xc6e00bf3 && K(29) == 0xd5a79147 && K(30) == 0x06ca6351 && K(31) == 0x14292967
  {
  }

  lemma Constants2()
    ensures K(32) == 0x27b70a85 && K(33) == 0x2e1b2138 && K(34) == 0x4d2c6dfc && K(35) == 0x53380d13
    ensures K(36) == 0x650a7354 && K(37) == 0x766a0abb && K(38) == 0x81c2c92e && K(39) == 0x92722c85
    ensures K(40) == 0xa2bfe8a1 && K(41) == 0xa81a664b && K(42) == 0xc24b8b70 && K(43) == 0xc76c51a3
    ensures K(44) == 0xd192e819 && K(45) == 0xd6990624 && K(46) == 0xf40e3585 && K(47) == 0x106aa070
  {
  }

  lemma Constants3()
    ensures K(48) == 0x19a4c116 && K(49) == 0x1e376c08 && K(50) == 0x2748774c && K(51) == 0x34b0bcb5
    ensures K(52) == 0x391c0cb3 && K(53) == 0x4ed8aa4a && K(54) == 0x5b9cca4f && K(55) == 0x682e6ff3
    ensures K(56) == 0x748f82ee && K(57) == 0x78a5636f && K(58) == 0x84c87814 && K(59) == 0x8cc70208
    ensures K(60) == 0x90befffa && K(61) == 0xa4506ceb && K(62) == 0xbef9a3f7 && K(63) == 0xc67178f2
  {
  }

  /** These numbers are made of the cube roots of the first sixty-four primes, 2 to 311. */
  lemma CubeRoots0()
    ensures CubeRoot(2, 1, 0x428a2f98)
    ensures CubeRoot(3, 1, 0x71374491)
    ensures CubeRoot(5, 1, 0xb5c0fbcf)
    ensures CubeRoot(7, 1, 0xe9b5dba5)
    ensures CubeRoot(11, 2, 0x3956c25b)
    ensures CubeRoot(13, 2, 0x59f111f1)
    ensures CubeRoot(17, 2, 0x923f82a4)
    ensures CubeRoot(19, 2, 0xab1c5ed5)
    ensures CubeRoot(23, 2, 0xd807aa98)
    ensures CubeRoot(29, 3, 0x12835b01)
    ensures CubeRoot(31, 3, 0x243185be)
    ensures CubeRoot(37, 3, 0x550c7dc3)
    ensures CubeRoot(41, 3, 0x72be5d74)
    ensures CubeRoot(43, 3, 0x80deb1fe)
    ensures CubeRoot(47, 3, 0x9bdc06a7)
    ensures CubeRoot(53, 3, 0xc19bf174)
  {
  }

  lemma CubeRoots1()
    ensures CubeRoot(59, 3, 0xe49b69c1)
    ensures CubeRoot(61, 3, 0xefbe4786)
    ensures CubeRoot(67, 4, 0x0fc19dc6)
    ensures CubeRoot(71, 4, 0x240ca1cc)
    ensures CubeRoot(73, 4, 0x2de92c6f)
    ensures CubeRoot(79, 4, 0x4a7484aa)
    ensures CubeRoot(83, 4, 0x5cb0a9dc)
    ensures CubeRoot(89, 4, 0x76f988da)
    ensures CubeRoot(97, 4, 0x983e5152)
    ensures CubeRoot(101, 4, 0xa831c66d)
    ensures CubeRoot(103, 4, 0xb00327c8)
    ensures CubeRoot(107, 4, 0xbf597fc7)
    ensures CubeRoot(109, 4, 0xc6e00bf3)
    ensures CubeRoot(113, 4, 0xd5a79147)
    ensures CubeRoot(127, 5, 0x06ca6351)
    ensures CubeRoot(131, 5, 0x14292967)
  {
  }

  lemma CubeRoots2()
    ensures CubeRoot(137, 5, 0x27b70a85)
    ensures CubeRoot(139, 5, 0x2e1b2138)
    ensures CubeRoot(149, 5, 0x4d2c6dfc)
    ensures CubeRoot(151, 5, 0x53380d13)
    ensures CubeRoot(157, 5, 0x650a7354)
    ensures CubeRoot(163, 5, 0x766a0abb)
    ensures CubeRoot(167, 5, 0x81c2c92e)
    ensures CubeRoot(173, 5, 0x92722c85)
    ensures CubeRoot(179, 5, 0xa2bfe8a1)
    ensures CubeRoot(181, 5, 0xa81a664b)
    ensures CubeRoot(191, 5, 0xc24b8b70)
    ensures CubeRoot(193, 5, 0xc76c51a3)
    ensures CubeRoot(197, 5, 0xd192e819)
    ensures CubeRoot(199, 5, 0xd6990624)
    ensures CubeRoot(211, 5, 0xf40e3585)
    ensures CubeRoot(223, 6, 0x106aa070)
  {
  }

  lemma CubeRoots3()
    ensures CubeRoot(227, 6, 0x19a4c116)
    ensures CubeRoot(229, 6, 0x1e376c08)
    ensures CubeRoot(233, 6, 0x2748774c)
    ensures CubeRoot(239, 6, 0x34b0bcb5)
    ensures CubeRoot(241, 6, 0x391c0cb3)
    ensures CubeRoot(251, 6, 0x4ed8aa4a)
    ensures CubeRoot(257, 6, 0x5b9cca4f)
    ensures CubeRoot(263, 6, 0x682e6ff3)
    ensures CubeRoot(269, 6, 0x748f82ee)
    ensures CubeRoot(271, 6, 0x78a5636f)
    ensures CubeRoot(277, 6, 0x84c87814)
    ensures CubeRoot(281, 6, 0x8cc70208)
    ensures CubeRoot(283, 6, 0x90befffa)
    ensures CubeRoot(293, 6, 0xa4506ceb)
    ensures CubeRoot(307, 6, 0xbef9a3f7)
    ensures CubeRoot(311, 6, 0xc67178f2)
  {
  }
}
