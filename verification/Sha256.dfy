/**
 SHA-256 in one piece, as FIPS 180-4 defines it, and as the streaming code computes it: a
 context that takes data in pieces of any size, and a final step that pads.
 */
module Sha256 {
  import opened Arithmetic
  import opened Utf8

  /** Words are rows of bits; their addition is modulo two to the thirty-second. */
  type Word = bv32

  /* ---------- functions and constants of sections 4.1.2, 4.2.2 and 5.3.3 ---------- */

  function Xor(x: Word, y: Word): Word { x ^ y }

  function And(x: Word, y: Word): Word { x & y }

  function Not(x: Word): Word { !x }

  function Shr(x: Word, n: bv6): Word
    requires n < 32
  {
    x >> n
  }

  function Sum2(a: Word, b: Word): Word { a + b }

  function Sum4(a: Word, b: Word, c: Word, d: Word): Word { a + b + c + d }

  function Sum5(a: Word, b: Word, c: Word, d: Word, e: Word): Word { a + b + c + d + e }

  function Rotr(x: Word, n: bv6): Word
    requires 0 < n < 32
  {
    (x >> n) | (x << (32 - n))
  }

  function Ch(x: Word, y: Word, z: Word): Word { Xor(And(x, y), And(Not(x), z)) }

  function Maj(x: Word, y: Word, z: Word): Word { Xor(Xor(And(x, y), And(x, z)), And(y, z)) }

  function BigSigma0(x: Word): Word { Xor(Xor(Rotr(x, 2), Rotr(x, 13)), Rotr(x, 22)) }

  function BigSigma1(x: Word): Word { Xor(Xor(Rotr(x, 6), Rotr(x, 11)), Rotr(x, 25)) }

  function SmallSigma0(x: Word): Word { Xor(Xor(Rotr(x, 7), Rotr(x, 18)), Shr(x, 3)) }

  function SmallSigma1(x: Word): Word { Xor(Xor(Rotr(x, 17), Rotr(x, 19)), Shr(x, 10)) }

  const FIRST: seq<Word> :=
    [0x428a2f98, 0x71374491, 0xb5c0fbcf, 0xe9b5dba5, 0x3956c25b, 0x59f111f1, 0x923f82a4, 0xab1c5ed5,
     0xd807aa98, 0x12835b01, 0x243185be, 0x550c7dc3, 0x72be5d74, 0x80deb1fe, 0x9bdc06a7, 0xc19bf174]

  const SECOND: seq<Word> :=
    [0xe49b69c1, 0xefbe4786, 0x0fc19dc6, 0x240ca1cc, 0x2de92c6f, 0x4a7484aa, 0x5cb0a9dc, 0x76f988da,
     0x983e5152, 0xa831c66d, 0xb00327c8, 0xbf597fc7, 0xc6e00bf3, 0xd5a79147, 0x06ca6351, 0x14292967]

  const THIRD: seq<Word> :=
    [0x27b70a85, 0x2e1b2138, 0x4d2c6dfc, 0x53380d13, 0x650a7354, 0x766a0abb, 0x81c2c92e, 0x92722c85,
     0xa2bfe8a1, 0xa81a664b, 0xc24b8b70, 0xc76c51a3, 0xd192e819, 0xd6990624, 0xf40e3585, 0x106aa070]

  const FOURTH: seq<Word> :=
    [0x19a4c116, 0x1e376c08, 0x2748774c, 0x34b0bcb5, 0x391c0cb3, 0x4ed8aa4a, 0x5b9cca4f, 0x682e6ff3,
     0x748f82ee, 0x78a5636f, 0x84c87814, 0x8cc70208, 0x90befffa, 0xa4506ceb, 0xbef9a3f7, 0xc67178f2]

  /** The constants, sixteen to a quarter. */
  function K(t: nat): Word
    requires t < 64
  {
    if t < 16 then FIRST[t] else if t < 32 then SECOND[t - 16] else if t < 48 then THIRD[t - 32] else FOURTH[t - 48]
  }

  datatype Hash = Hash(a: Word, b: Word, c: Word, d: Word, e: Word, f: Word, g: Word, h: Word)

  const INITIAL: Hash := Hash(0x6a09e667, 0xbb67ae85, 0x3c6ef372, 0xa54ff53a, 0x510e527f, 0x9b05688c, 0x1f83d9ab, 0x5be0cd19)

  /* ---------- one block: section 6.2.2 ---------- */

  function FromNumber(n: nat): Word
    requires n < 0x1_0000_0000
  {
    n as bv32
  }

  function ToNumber(x: Word): nat {
    x as nat
  }

  function Quad(a: int, b: int, c: int, d: int): int {
    a * 0x100_0000 + b * 0x1_0000 + c * 0x100 + d
  }

  function Load(p: seq<Byte>, i: nat): Word
    requires i + 4 <= |p|
  {
    FromNumber(Quad(p[i], p[i + 1], p[i + 2], p[i + 3]))
  }

  /** The message schedule. */
  function W(block: seq<Byte>, t: nat): Word
    requires |block| == 64 && t < 64
  {
    if t < 16 then Load(block, 4 * t)
    else Sum4(SmallSigma1(W(block, t - 2)), W(block, t - 7), SmallSigma0(W(block, t - 15)), W(block, t - 16))
  }

  function Round(v: Hash, k: Word, w: Word): Hash {
    var t1 := Sum5(v.h, BigSigma1(v.e), Ch(v.e, v.f, v.g), k, w);
    var t2 := Sum2(BigSigma0(v.a), Maj(v.a, v.b, v.c));
    Hash(Sum2(t1, t2), v.a, v.b, v.c, Sum2(v.d, t1), v.e, v.f, v.g)
  }

  /** The working variables after t rounds. */
  function Rounds(block: seq<Byte>, v: Hash, t: nat): Hash
    requires |block| == 64 && t <= 64
  {
    if t == 0 then v else Round(Rounds(block, v, t - 1), K(t - 1), W(block, t - 1))
  }

  function Plus(x: Hash, y: Hash): Hash {
    Hash(Sum2(x.a, y.a), Sum2(x.b, y.b), Sum2(x.c, y.c), Sum2(x.d, y.d),
         Sum2(x.e, y.e), Sum2(x.f, y.f), Sum2(x.g, y.g), Sum2(x.h, y.h))
  }

  function Compress(v: Hash, block: seq<Byte>): Hash
    requires |block| == 64
  {
    Plus(v, Rounds(block, v, 64))
  }

  /** The sum of the schedule in the order the code adds. */
  function Extended(w16: Word, w15: Word, w7: Word, w2: Word): Word {
    Sum4(w16, SmallSigma0(w15), w7, SmallSigma1(w2))
  }

  lemma ExtendedIsW(block: seq<Byte>, t: nat)
    requires |block| == 64 && 16 <= t < 64
    ensures W(block, t) == Extended(W(block, t - 16), W(block, t - 15), W(block, t - 7), W(block, t - 2))
  {
    hide SmallSigma0, SmallSigma1, Load, Sum4;
    AnyOrder(W(block, t - 16), SmallSigma0(W(block, t - 15)), W(block, t - 7), SmallSigma1(W(block, t - 2)));
  }

  lemma AnyOrder(a: Word, b: Word, c: Word, d: Word)
    ensures Sum4(a, b, c, d) == Sum4(d, c, b, a)
  {
  }

  /** The schedule, word by word. */
  method Schedule(block: seq<Byte>) returns (w: array<Word>)
    requires |block| == 64
    ensures w.Length == 64 && forall t :: 0 <= t < 64 ==> w[t] == W(block, t)
  {
    hide Load, Extended, SmallSigma0, SmallSigma1;
    w := new Word[64](_ => 0);
    for i := 0 to 16
      invariant forall t :: 0 <= t < i ==> w[t] == W(block, t)
    {
      w[i] := Load(block, i * 4);
    }
    for i := 16 to 64
      invariant forall t :: 0 <= t < i ==> w[t] == W(block, t)
    {
      ExtendedIsW(block, i);
      w[i] := Extended(w[i - 16], w[i - 15], w[i - 7], w[i - 2]);
    }
  }

  /** One round on eight variables, each taking over its neighbour. */
  method OneRound(v: Hash, k: Word, w: Word) returns (r: Hash)
    ensures r == Round(v, k, w)
  {
    hide BigSigma0, BigSigma1, Ch, Maj, Sum2, Sum5;
    var a, b, c, d, e, f, g, h := v.a, v.b, v.c, v.d, v.e, v.f, v.g, v.h;
    var temp1 := Sum5(h, BigSigma1(e), Ch(e, f, g), k, w);
    var temp2 := Sum2(BigSigma0(a), Maj(a, b, c));
    h := g; g := f; f := e; e := Sum2(d, temp1);
    d := c; c := b; b := a; a := Sum2(temp1, temp2);
    r := Hash(a, b, c, d, e, f, g, h);
  }

  method Transform(state: Hash, block: seq<Byte>) returns (r: Hash)
    requires |block| == 64
    ensures r == Compress(state, block)
  {
    hide Round, K, W, Plus;
    var w := Schedule(block);
    var v := state;
    for i := 0 to 64
      invariant v == Rounds(block, state, i) && forall t :: 0 <= t < 64 ==> w[t] == W(block, t)
    {
      v := OneRound(v, K(i), w[i]);
    }
    r := Plus(state, v);
  }

  /* ---------- whole messages: sections 5.1.1, 5.2.1 and 6.2.2 ---------- */

  const TWO_64: nat := 0x1_0000_0000_0000_0000

  function BigEndian(n: nat, k: nat): (r: seq<Byte>)
    ensures |r| == k
  {
    if k == 0 then [] else BigEndian(n / 256, k - 1) + [n % 256]
  }

  /** The number that bytes stand for, the first being the highest. */
  function Number(s: seq<Byte>): nat {
    if s == [] then 0 else Append(Number(s[..|s| - 1]), s[|s| - 1])
  }

  function Append(high: nat, low: nat): nat { 256 * high + low }

  /** Bytes that are written from a number that fits are read back as the number. */
  lemma {:induction false} NumberReadsBack(n: nat, k: nat)
    requires n < Power(256, k)
    ensures Number(BigEndian(n, k)) == n
  {
    if k > 0 {
      var s := BigEndian(n, k);
      NumberReadsBack(n / 256, k - 1);
      assert s[..k - 1] == BigEndian(n / 256, k - 1);
    }
  }

  function Zeros(k: nat): (r: seq<Byte>)
    ensures |r| == k
  {
    seq(k, _ => 0)
  }

  /** The number of zero bytes between the one bit and the length. */
  function Gap(length: nat): nat {
    if length % 64 < 56 then 55 - length % 64 else 119 - length % 64
  }

  /** The length in bits, as far as eight bytes can hold it. */
  function BitLength(bytes: nat): nat {
    8 * bytes % TWO_64
  }

  function Pad(m: seq<Byte>): seq<Byte> {
    m + [0x80] + Zeros(Gap(|m|)) + BigEndian(BitLength(|m|), 8)
  }

  /** The gap is the least that leaves room for exactly the length in the last block. */
  lemma GapIsLeast(length: nat, k: nat)
    ensures (length + 1 + Gap(length)) % 64 == 56
    ensures (length + 1 + k) % 64 == 56 ==> Gap(length) <= k
  {
    var q, r := length / 64, length % 64;
    assert length == 64 * q + r;
    if r < 56 {
      assert length + 1 + Gap(length) == 64 * q + 56;
    } else {
      assert length + 1 + Gap(length) == 64 * (q + 1) + 56;
    }
  }

  function Fold(v: Hash, bytes: seq<Byte>): Hash
    requires |bytes| % 64 == 0
  {
    if bytes == [] then v else Compress(Fold(v, bytes[..|bytes| - 64]), bytes[|bytes| - 64..])
  }

  lemma FoldStep(v: Hash, x: seq<Byte>, block: seq<Byte>)
    requires |x| % 64 == 0 && |block| == 64
    ensures Fold(v, x + block) == Compress(Fold(v, x), block)
  {
    hide Compress;
    assert (x + block)[..|x|] == x && (x + block)[|x|..] == block;
  }

  function Store(v: Hash): seq<Byte> {
    BigEndian(ToNumber(v.a), 4) + BigEndian(ToNumber(v.b), 4) + BigEndian(ToNumber(v.c), 4) + BigEndian(ToNumber(v.d), 4) +
    BigEndian(ToNumber(v.e), 4) + BigEndian(ToNumber(v.f), 4) + BigEndian(ToNumber(v.g), 4) + BigEndian(ToNumber(v.h), 4)
  }

  lemma PadLength(m: seq<Byte>)
    ensures |Pad(m)| % 64 == 0
  {
    hide Zeros, BigEndian, BitLength;
    assert |Pad(m)| == |m| + 1 + Gap(|m|) + 8;
    GapIsLeast(|m|, 0);
  }

  /** The digest of a message. */
  function Digest(m: seq<Byte>): seq<Byte> {
    PadLength(m);
    Store(Fold(INITIAL, Pad(m)))
  }

  /* ---------- streaming ---------- */

  /** Sets bytes from i up to j to zero. */
  method ZeroFill(a: array<Byte>, i: nat, j: nat)
    requires i <= j <= a.Length
    modifies a
    ensures a[..] == old(a[..i]) + Zeros(j - i) + old(a[j..])
  {
    for k := i to j
      invariant forall x :: 0 <= x < i || j <= x < a.Length ==> a[x] == old(a[x])
      invariant forall x :: i <= x < k ==> a[x] == 0
    {
      a[k] := 0;
    }
  }

  /** Stores a number in eight bytes, the last first. */
  method StoreBe64(a: array<Byte>, at: nat, v: nat)
    requires at + 8 <= a.Length
    modifies a
    ensures a[..] == old(a[..at]) + BigEndian(v, 8) + old(a[at + 8..])
  {
    var rest, i := v, 8;
    ghost var s := a[..];
    assert a[at + 8..at + 8] == [] && BigEndian(v, 0) == [];
    while i > 0
      invariant 0 <= i <= 8
      invariant forall x :: 0 <= x < at + i || at + 8 <= x < a.Length ==> a[x] == s[x]
      invariant BigEndian(rest, i) + a[at + i..at + 8] == BigEndian(v, 8)
    {
      i := i - 1;
      ghost var low := a[at + i + 1..at + 8];
      a[at + i] := rest % 256;
      assert a[at + i..at + 8] == [rest % 256] + low;
      assert BigEndian(rest, i + 1) + low == BigEndian(rest / 256, i) + ([rest % 256] + low);
      rest := rest / 256;
    }
    assert a[..] == s[..at] + a[at..at + 8] + s[at + 8..];
  }

  lemma EmptyMessage()
    ensures Fold(INITIAL, []) == INITIAL && BitLength(0) == 0
  {
  }

  class Context {
    var state: Hash
    var bitLen: nat
    var bufferLen: nat
    const buffer: array<Byte>

    constructor ()
      ensures fresh(buffer) && Absorbed([])
    {
      hide Fold, BitLength;
      state, bitLen, bufferLen := INITIAL, 0, 0;
      buffer := new Byte[64](_ => 0);
      EmptyMessage();
      new;
      assert buffer[..0] == [];
    }

    /** The context stands for a message: its whole blocks are folded in, the rest is buffered. */
    ghost predicate Buffered(m: seq<Byte>)
      reads this`state, this`bufferLen, buffer
    {
      && buffer.Length == 64 && bufferLen < 64 && bufferLen <= |m| && (|m| - bufferLen) % 64 == 0
      && buffer[..bufferLen] == m[|m| - bufferLen..]
      && state == Fold(INITIAL, m[..|m| - bufferLen])
    }

    ghost predicate Absorbed(m: seq<Byte>)
      reads this`state, this`bitLen, this`bufferLen, buffer
    {
      Buffered(m) && bitLen == BitLength(|m|)
    }

    /** Copies a piece that fits into the buffer, and folds the buffer in when it is full. */
    method Take(piece: seq<Byte>, ghost m: seq<Byte>)
      requires Buffered(m) && bufferLen + |piece| <= 64
      modifies this`state, this`bufferLen, buffer
      ensures Buffered(m + piece)
    {
      hide Fold, Compress;
      ghost var head, kept := m[..|m| - bufferLen], buffer[..bufferLen];
      var n := bufferLen;
      forall k | 0 <= k < |piece| { buffer[n + k] := piece[k]; }
      assert buffer[..n + |piece|] == kept + piece;
      ghost var all := m + piece;
      InTwo(m, piece, n);
      bufferLen := n + |piece|;
      if bufferLen == 64 {
        assert buffer[..] == kept + piece;
        state := Transform(state, buffer[..]);
        FoldStep(INITIAL, head, kept + piece);
        bufferLen := 0;
        assert all[..|all|] == all && all[|all|..] == [] && buffer[..0] == [];
      }
    }

    method Update(data: seq<Byte>, ghost m: seq<Byte>)
      requires Absorbed(m)
      modifies this`state, this`bitLen, this`bufferLen, buffer
      ensures Absorbed(m + data)
    {
      hide Buffered, BitLength;
      LengthAdds(|m|, |data|);
      bitLen := (bitLen + |data| * 8 % TWO_64) % TWO_64;
      var pos := 0;
      assert m + data[..0] == m;
      assert |m + data| == |m| + |data|;
      while pos < |data|
        invariant pos <= |data| && Buffered(m + data[..pos])
        invariant bitLen == BitLength(|m + data|)
      {
        BufferRoom(m + data[..pos]);
        var copy := 64 - bufferLen;
        if copy > |data| - pos { copy := |data| - pos; }
        Take(data[pos..pos + copy], m + data[..pos]);
        assert m + data[..pos] + data[pos..pos + copy] == m + data[..pos + copy];
        pos := pos + copy;
      }
      assert data[..|data|] == data;
    }

    lemma BufferRoom(m: seq<Byte>)
      requires Buffered(m)
      ensures bufferLen < 64
    {
    }

    method Final(ghost m: seq<Byte>) returns (out: seq<Byte>)
      requires Absorbed(m)
      modifies this`state, buffer
      ensures out == Digest(m)
    {
      hide Fold, Compress, Store, BigEndian, BitLength, Pad, Zeros;
      ghost var q := |m| - bufferLen;
      var i := bufferLen;
      buffer[i] := 0x80;
      i := i + 1;
      assert buffer[..i] == m[q..] + [0x80];
      ghost var folded;
      i, folded := MakeRoom(i, m[..q], m[q..]);
      ghost var start := buffer[..i];
      ZeroFill(buffer, i, 56);
      StoreBe64(buffer, 56, bitLen);
      ghost var block := buffer[..];
      assert block == start + Zeros(56 - i) + BigEndian(bitLen, 8);
      state := Transform(state, buffer[..]);
      FoldStep(INITIAL, folded, block);
      PadLength(m);
      assert folded + block == Pad(m) by { LastBlocks(m, bufferLen, start, folded, block); }
      out := Store(state);
    }

    /** Folds a block in when the length no longer fits behind the first i bytes. */
    method MakeRoom(i: nat, ghost head: seq<Byte>, ghost rest: seq<Byte>) returns (room: nat, ghost folded: seq<Byte>)
      requires buffer.Length == 64 && i <= 64 && buffer[..i] == rest + [0x80]
      requires |head| % 64 == 0 && state == Fold(INITIAL, head)
      modifies this`state, buffer
      ensures |folded| % 64 == 0 && state == Fold(INITIAL, folded)
      ensures if i > 56 then room == 0 && folded == head + (rest + [0x80] + Zeros(64 - i))
              else room == i && folded == head && buffer[..] == old(buffer[..])
    {
      hide Fold, Compress, Zeros;
      if i <= 56 { return i, head; }
      ZeroFill(buffer, i, 64);
      ghost var block := buffer[..];
      assert block == rest + [0x80] + Zeros(64 - i);
      state := Transform(state, buffer[..]);
      FoldStep(INITIAL, head, block);
      return 0, head + block;
    }
  }

  /** A message and a piece, cut where the buffer began. */
  lemma InTwo(m: seq<Byte>, piece: seq<Byte>, n: nat)
    requires n <= |m|
    ensures var head, kept := m[..|m| - n], m[|m| - n..];
            && m + piece == head + (kept + piece)
            && (m + piece)[..|m| - n] == head && (m + piece)[|m| - n..] == kept + piece
  {
  }

  lemma LengthAdds(m: nat, n: nat)
    ensures (BitLength(m) + n * 8 % TWO_64) % TWO_64 == BitLength(m + n)
  {
    RemaindersAdd(8 * m, n * 8, TWO_64);
  }

  lemma RestIs(n: nat, r: nat)
    requires r < 64 && r <= n && (n - r) % 64 == 0
    ensures n % 64 == r
  {
  }

  /** The padded message ends in one block, or in two when the length no longer fits. */
  lemma LastBlocks(m: seq<Byte>, r: nat, start: seq<Byte>, folded: seq<Byte>, block: seq<Byte>)
    requires r < 64 && r <= |m| && (|m| - r) % 64 == 0
    requires if r < 56 then start == m[|m| - r..] + [0x80] && folded == m[..|m| - r]
             else start == [] && folded == m[..|m| - r] + (m[|m| - r..] + [0x80] + Zeros(63 - r))
    requires block == start + Zeros(56 - |start|) + BigEndian(BitLength(|m|), 8)
    ensures folded + block == Pad(m)
  {
    hide BigEndian, Zeros, BitLength;
    RestIs(|m|, r);
    var head, rest, l := m[..|m| - r], m[|m| - r..], BigEndian(BitLength(|m|), 8);
    assert m == head + rest;
    if r < 56 {
      InOneBlock(head, rest, Zeros(55 - r), l);
    } else {
      ZerosJoin(63 - r, 56);
      InTwoBlocks(head, rest, Zeros(63 - r), Zeros(56), l);
    }
  }

  lemma InOneBlock(head: seq<Byte>, rest: seq<Byte>, z: seq<Byte>, l: seq<Byte>)
    ensures head + (rest + [0x80] + z + l) == head + rest + [0x80] + z + l
  {
  }

  lemma InTwoBlocks(head: seq<Byte>, rest: seq<Byte>, y: seq<Byte>, z: seq<Byte>, l: seq<Byte>)
    ensures (head + (rest + [0x80] + y)) + ([] + z + l) == head + rest + [0x80] + (y + z) + l
  {
  }

  lemma ZerosJoin(j: nat, k: nat)
    ensures Zeros(j) + Zeros(k) == Zeros(j + k)
  {
  }

  /* ---------- any way of cutting ---------- */

  function Concat(pieces: seq<seq<Byte>>): seq<Byte> {
    if pieces == [] then [] else Concat(pieces[..|pieces| - 1]) + pieces[|pieces| - 1]
  }

  /** Whatever the pieces, the digest is that of the whole. */
  method HashPieces(pieces: seq<seq<Byte>>) returns (digest: seq<Byte>)
    ensures digest == Digest(Concat(pieces))
  {
    hide Digest, Fold, BitLength;
    var context := new Context();
    for i := 0 to |pieces|
      invariant fresh(context) && fresh(context.buffer) && context.Absorbed(Concat(pieces[..i]))
    {
      assert pieces[..i + 1][..i] == pieces[..i];
      context.Update(pieces[i], Concat(pieces[..i]));
    }
    assert pieces[..|pieces|] == pieces;
    digest := context.Final(Concat(pieces));
  }

  /* ---------- hexadecimal ---------- */

  const HEX: string := "0123456789abcdef"

  function HexDigit(x: int): char
    requires 0 <= x < 16
  {
    HEX[x]
  }

  function Unhex(c: char): int {
    if '0' <= c <= '9' then (c - '0') as int else if 'a' <= c <= 'f' then (c - 'a') as int + 10 else -1
  }

  predicate IsLowerHex(c: char) {
    '0' <= c <= '9' || 'a' <= c <= 'f'
  }

  /** What sixty-four digits stand for. */
  function FromHex(s: string): seq<int>
    requires |s| == 64
  {
    seq(32, i requires 0 <= i < 32 => 16 * Unhex(s[2 * i]) + Unhex(s[2 * i + 1]))
  }

  lemma DigitReadsBack(x: int)
    requires 0 <= x < 16
    ensures IsLowerHex(HexDigit(x)) && Unhex(HexDigit(x)) == x
  {
    assert HEX == ['0', '1', '2', '3', '4', '5', '6', '7', '8', '9', 'a', 'b', 'c', 'd', 'e', 'f'];
  }

  lemma StoreLength(v: Hash)
    ensures |Store(v)| == 32
  {
  }

  /** The digest in lower-case digits, from which it can be read back. */
  method Hex(data: seq<Byte>) returns (s: string)
    ensures |s| == 64 && (forall i :: 0 <= i < 64 ==> IsLowerHex(s[i])) && FromHex(s) == Digest(data)
  {
    hide Digest, HexDigit, Unhex, IsLowerHex;
    var digest := HashPieces([data]);
    assert [data][..0] == [] && Concat([data]) == [] + data == data;
    assert |digest| == 32 by { DigestLength(data); }
    s := [];
    for i := 0 to 32
      invariant |s| == 2 * i && forall k :: 0 <= k < 2 * i ==> IsLowerHex(s[k])
      invariant forall k :: 0 <= k < i ==> 16 * Unhex(s[2 * k]) + Unhex(s[2 * k + 1]) == digest[k]
    {
      DigitReadsBack(digest[i] / 16);
      DigitReadsBack(digest[i] % 16);
      s := s + [HexDigit(digest[i] / 16), HexDigit(digest[i] % 16)];
    }
  }

  lemma DigestLength(m: seq<Byte>)
    ensures |Digest(m)| == 32
  {
    hide Store, Fold;
    PadLength(m);
    StoreLength(Fold(INITIAL, Pad(m)));
  }

  /** A text is sixty-four lower-case digits and nothing more. */
  method HexIsLowercase(s: string) returns (ok: bool)
    ensures ok <==> |s| == 64 && forall i :: 0 <= i < 64 ==> IsLowerHex(s[i])
  {
    for i := 0 to 64
      invariant i <= |s| && forall k :: 0 <= k < i ==> IsLowerHex(s[k])
    {
      if i >= |s| { return false; }
      if !IsLowerHex(s[i]) { return false; }
    }
    ok := |s| == 64;
  }
}
