/**
 The digest of "abc" as published with the standard, by its sixty-four rounds in numbers.
 */
module Sha256Vector {
  import opened Arithmetic
  import opened Utf8
  import opened Sha256
  import opened Sha256Laws

  const ABC: seq<Byte> := [0x61, 0x62, 0x63]

  /* ---------- the schedule ---------- */

  lemma BlockIs()
    ensures var b := Pad(ABC);
            && |b| == 64 && b[0] == 0x61 && b[1] == 0x62 && b[2] == 0x63 && b[3] == 0x80
            && (forall i :: 4 <= i < 63 ==> b[i] == 0) && b[63] == 0x18
  {
    assert Gap(3) == 52 && BitLength(3) == 24;
    LengthIs();
  }

  lemma LengthIs()
    ensures BigEndian(24, 8) == [0, 0, 0, 0, 0, 0, 0, 24]
  {
    assert BigEndian(0, 0) == [] && BigEndian(0, 1) == [0] && BigEndian(0, 2) == [0, 0] && BigEndian(0, 3) == [0, 0, 0];
    assert BigEndian(0, 5) == [0, 0, 0, 0, 0] && BigEndian(0, 7) == [0, 0, 0, 0, 0, 0, 0];
  }

  lemma LoadIs(b: seq<Byte>, t: nat)
    requires |b| == 64 && t < 16
    ensures W(b, t) == FromNumber(Quad(b[4 * t], b[4 * t + 1], b[4 * t + 2], b[4 * t + 3]))
  {
  }

  lemma LoadedIs(b: seq<Byte>, t: nat)
    requires b == Pad(ABC) && |b| == 64 && t < 16
    ensures W(b, t) == if t == 0 then 0x61626380 else if t == 15 then 0x18 else 0
  {
    hide Pad, W, Quad, FromNumber;
    BlockIs();
    LoadIs(b, t);
    QuadsAre();
  }

  lemma QuadNumbers()
    ensures Quad(0x61, 0x62, 0x63, 0x80) == 0x61626380 && Quad(0, 0, 0, 0x18) == 0x18 && Quad(0, 0, 0, 0) == 0
  {
  }

  lemma NumberWords()
    ensures FromNumber(0x61626380) == 0x61626380 && FromNumber(0x18) == 0x18 && FromNumber(0) == 0
  {
  }

  lemma QuadsAre()
    ensures FromNumber(Quad(0x61, 0x62, 0x63, 0x80)) == 0x61626380
    ensures FromNumber(Quad(0, 0, 0, 0x18)) == 0x18 && FromNumber(Quad(0, 0, 0, 0)) == 0
  {
    hide Quad, FromNumber;
    QuadNumbers();
    NumberWords();
  }

  lemma Extensions1()
    ensures Extended(0x61626380, 0x00000000, 0x00000000, 0x00000000) == 0x61626380
    ensures Extended(0x00000000, 0x00000000, 0x00000000, 0x00000018) == 0x000f0000
    ensures Extended(0x00000000, 0x00000000, 0x00000000, 0x61626380) == 0x7da86405
    ensures Extended(0x00000000, 0x00000000, 0x00000000, 0x000f0000) == 0x600003c6
    ensures Extended(0x00000000, 0x00000000, 0x00000000, 0x7da86405) == 0x3e9d7b78
    ensures Extended(0x00000000, 0x00000000, 0x00000000, 0x600003c6) == 0x0183fc00
    ensures Extended(0x00000000, 0x00000000, 0x00000018, 0x3e9d7b78) == 0x12dcbfdb
    ensures Extended(0x00000000, 0x00000000, 0x61626380, 0x0183fc00) == 0xe2e2c38e
    ensures Extended(0x00000000, 0x00000000, 0x000f0000, 0x12dcbfdb) == 0xc8215c1a
    ensures Extended(0x00000000, 0x00000000, 0x7da86405, 0xe2e2c38e) == 0xb73679a2
    ensures Extended(0x00000000, 0x00000000, 0x600003c6, 0xc8215c1a) == 0xe5bc3909
    ensures Extended(0x00000000, 0x00000000, 0x3e9d7b78, 0xb73679a2) == 0x32663c5b
    ensures Extended(0x00000000, 0x00000000, 0x0183fc00, 0xe5bc3909) == 0x9d209d67
    ensures Extended(0x00000000, 0x00000000, 0x12dcbfdb, 0x32663c5b) == 0xec8726cb
    ensures Extended(0x00000000, 0x00000018, 0xe2e2c38e, 0x9d209d67) == 0x702138a4
    ensures Extended(0x00000018, 0x61626380, 0xc8215c1a, 0xec8726cb) == 0xd3b7973b
  {
  }

  lemma Extensions2()
    ensures Extended(0x61626380, 0x000f0000, 0xb73679a2, 0x702138a4) == 0x93f5997f
    ensures Extended(0x000f0000, 0x7da86405, 0xe5bc3909, 0xd3b7973b) == 0x3b68ba73
    ensures Extended(0x7da86405, 0x600003c6, 0x32663c5b, 0x93f5997f) == 0xaff4ffc1
    ensures Extended(0x600003c6, 0x3e9d7b78, 0x9d209d67, 0x3b68ba73) == 0xf10a5c62
    ensures Extended(0x3e9d7b78, 0x0183fc00, 0xec8726cb, 0xaff4ffc1) == 0x0a8b3996
    ensures Extended(0x0183fc00, 0x12dcbfdb, 0x702138a4, 0xf10a5c62) == 0x72af830a
    ensures Extended(0x12dcbfdb, 0xe2e2c38e, 0xd3b7973b, 0x0a8b3996) == 0x9409e33e
    ensures Extended(0xe2e2c38e, 0xc8215c1a, 0x93f5997f, 0x72af830a) == 0x24641522
    ensures Extended(0xc8215c1a, 0xb73679a2, 0x3b68ba73, 0x9409e33e) == 0x9f47bf94
    ensures Extended(0xb73679a2, 0xe5bc3909, 0xaff4ffc1, 0x24641522) == 0xf0a64f5a
    ensures Extended(0xe5bc3909, 0x32663c5b, 0xf10a5c62, 0x9f47bf94) == 0x3e246a79
    ensures Extended(0x32663c5b, 0x9d209d67, 0x0a8b3996, 0xf0a64f5a) == 0x27333ba3
    ensures Extended(0x9d209d67, 0xec8726cb, 0x72af830a, 0x3e246a79) == 0x0c4763f2
    ensures Extended(0xec8726cb, 0x702138a4, 0x9409e33e, 0x27333ba3) == 0x840abf27
    ensures Extended(0x702138a4, 0xd3b7973b, 0x24641522, 0x0c4763f2) == 0x7a290d5d
    ensures Extended(0xd3b7973b, 0x93f5997f, 0x9f47bf94, 0x840abf27) == 0x065c43da
  {
  }

  lemma Extensions3()
    ensures Extended(0x93f5997f, 0x3b68ba73, 0xf0a64f5a, 0x7a290d5d) == 0xfb3e89cb
    ensures Extended(0x3b68ba73, 0xaff4ffc1, 0x3e246a79, 0x065c43da) == 0xcc7617db
    ensures Extended(0xaff4ffc1, 0xf10a5c62, 0x27333ba3, 0xfb3e89cb) == 0xb9e66c34
    ensures Extended(0xf10a5c62, 0x0a8b3996, 0x0c4763f2, 0xcc7617db) == 0xa9993667
    ensures Extended(0x0a8b3996, 0x72af830a, 0x840abf27, 0xb9e66c34) == 0x84badedd
    ensures Extended(0x72af830a, 0x9409e33e, 0x7a290d5d, 0xa9993667) == 0xc21462bc
    ensures Extended(0x9409e33e, 0x24641522, 0x065c43da, 0x84badedd) == 0x1487472c
    ensures Extended(0x24641522, 0x9f47bf94, 0xfb3e89cb, 0xc21462bc) == 0xb20f7a99
    ensures Extended(0x9f47bf94, 0xf0a64f5a, 0xcc7617db, 0x1487472c) == 0xef57b9cd
    ensures Extended(0xf0a64f5a, 0x3e246a79, 0xb9e66c34, 0xb20f7a99) == 0xebe6b238
    ensures Extended(0x3e246a79, 0x27333ba3, 0xa9993667, 0xef57b9cd) == 0x9fe3095e
    ensures Extended(0x27333ba3, 0x0c4763f2, 0x84badedd, 0xebe6b238) == 0x78bc8d4b
    ensures Extended(0x0c4763f2, 0x840abf27, 0xc21462bc, 0x9fe3095e) == 0xa43fcf15
    ensures Extended(0x840abf27, 0x7a290d5d, 0x1487472c, 0x78bc8d4b) == 0x668b2ff8
    ensures Extended(0x7a290d5d, 0x065c43da, 0xb20f7a99, 0xa43fcf15) == 0xeeaba2cc
    ensures Extended(0x065c43da, 0xfb3e89cb, 0xef57b9cd, 0x668b2ff8) == 0x12b1edeb
  {
  }

  ghost predicate Words0(b: seq<Byte>) {
    && |b| == 64
    && W(b, 0) == 0x61626380 && W(b, 1) == 0x00000000 && W(b, 2) == 0x00000000 && W(b, 3) == 0x00000000
    && W(b, 4) == 0x00000000 && W(b, 5) == 0x00000000 && W(b, 6) == 0x00000000 && W(b, 7) == 0x00000000
    && W(b, 8) == 0x00000000 && W(b, 9) == 0x00000000 && W(b, 10) == 0x00000000 && W(b, 11) == 0x00000000
    && W(b, 12) == 0x00000000 && W(b, 13) == 0x00000000 && W(b, 14) == 0x00000000 && W(b, 15) == 0x00000018
  }

  ghost predicate Words1(b: seq<Byte>) {
    && |b| == 64
    && W(b, 16) == 0x61626380 && W(b, 17) == 0x000f0000 && W(b, 18) == 0x7da86405 && W(b, 19) == 0x600003c6
    && W(b, 20) == 0x3e9d7b78 && W(b, 21) == 0x0183fc00 && W(b, 22) == 0x12dcbfdb && W(b, 23) == 0xe2e2c38e
    && W(b, 24) == 0xc8215c1a && W(b, 25) == 0xb73679a2 && W(b, 26) == 0xe5bc3909 && W(b, 27) == 0x32663c5b
    && W(b, 28) == 0x9d209d67 && W(b, 29) == 0xec8726cb && W(b, 30) == 0x702138a4 && W(b, 31) == 0xd3b7973b
  }

  ghost predicate Words2(b: seq<Byte>) {
    && |b| == 64
    && W(b, 32) == 0x93f5997f && W(b, 33) == 0x3b68ba73 && W(b, 34) == 0xaff4ffc1 && W(b, 35) == 0xf10a5c62
    && W(b, 36) == 0x0a8b3996 && W(b, 37) == 0x72af830a && W(b, 38) == 0x9409e33e && W(b, 39) == 0x24641522
    && W(b, 40) == 0x9f47bf94 && W(b, 41) == 0xf0a64f5a && W(b, 42) == 0x3e246a79 && W(b, 43) == 0x27333ba3
    && W(b, 44) == 0x0c4763f2 && W(b, 45) == 0x840abf27 && W(b, 46) == 0x7a290d5d && W(b, 47) == 0x065c43da
  }

  ghost predicate Words3(b: seq<Byte>) {
    && |b| == 64
    && W(b, 48) == 0xfb3e89cb && W(b, 49) == 0xcc7617db && W(b, 50) == 0xb9e66c34 && W(b, 51) == 0xa9993667
    && W(b, 52) == 0x84badedd && W(b, 53) == 0xc21462bc && W(b, 54) == 0x1487472c && W(b, 55) == 0xb20f7a99
    && W(b, 56) == 0xef57b9cd && W(b, 57) == 0xebe6b238 && W(b, 58) == 0x9fe3095e && W(b, 59) == 0x78bc8d4b
    && W(b, 60) == 0xa43fcf15 && W(b, 61) == 0x668b2ff8 && W(b, 62) == 0xeeaba2cc && W(b, 63) == 0x12b1edeb
  }

  lemma WordsAre0(b: seq<Byte>)
    requires b == Pad(ABC) && |b| == 64
    ensures Words0(b)
  {
    hide W, Pad;
    LoadedIs(b, 0); LoadedIs(b, 1); LoadedIs(b, 2); LoadedIs(b, 3);
    LoadedIs(b, 4); LoadedIs(b, 5); LoadedIs(b, 6); LoadedIs(b, 7);
    LoadedIs(b, 8); LoadedIs(b, 9); LoadedIs(b, 10); LoadedIs(b, 11);
    LoadedIs(b, 12); LoadedIs(b, 13); LoadedIs(b, 14); LoadedIs(b, 15);
  }

  lemma WordsAre1(b: seq<Byte>)
    requires Words0(b)
    ensures Words1(b)
  {
    hide W, Extended;
    Extensions1();
    ExtendedIsW(b, 16); ExtendedIsW(b, 17); ExtendedIsW(b, 18); ExtendedIsW(b, 19);
    ExtendedIsW(b, 20); ExtendedIsW(b, 21); ExtendedIsW(b, 22); ExtendedIsW(b, 23);
    ExtendedIsW(b, 24); ExtendedIsW(b, 25); ExtendedIsW(b, 26); ExtendedIsW(b, 27);
    ExtendedIsW(b, 28); ExtendedIsW(b, 29); ExtendedIsW(b, 30); ExtendedIsW(b, 31);
  }

  lemma WordsAre2(b: seq<Byte>)
    requires Words1(b)
    ensures Words2(b)
  {
    hide W, Extended;
    Extensions2();
    ExtendedIsW(b, 32); ExtendedIsW(b, 33); ExtendedIsW(b, 34); ExtendedIsW(b, 35);
    ExtendedIsW(b, 36); ExtendedIsW(b, 37); ExtendedIsW(b, 38); ExtendedIsW(b, 39);
    ExtendedIsW(b, 40); ExtendedIsW(b, 41); ExtendedIsW(b, 42); ExtendedIsW(b, 43);
    ExtendedIsW(b, 44); ExtendedIsW(b, 45); ExtendedIsW(b, 46); ExtendedIsW(b, 47);
  }

  lemma WordsAre3(b: seq<Byte>)
    requires Words2(b)
    ensures Words3(b)
  {
    hide W, Extended;
    Extensions3();
    ExtendedIsW(b, 48); ExtendedIsW(b, 49); ExtendedIsW(b, 50); ExtendedIsW(b, 51);
    ExtendedIsW(b, 52); ExtendedIsW(b, 53); ExtendedIsW(b, 54); ExtendedIsW(b, 55);
    ExtendedIsW(b, 56); ExtendedIsW(b, 57); ExtendedIsW(b, 58); ExtendedIsW(b, 59);
    ExtendedIsW(b, 60); ExtendedIsW(b, 61); ExtendedIsW(b, 62); ExtendedIsW(b, 63);
  }

  /* ---------- the rounds ---------- */

  const H0: Hash := Hash(0x6a09e667, 0xbb67ae85, 0x3c6ef372, 0xa54ff53a, 0x510e527f, 0x9b05688c, 0x1f83d9ab, 0x5be0cd19)
  const H1: Hash := Hash(0x5d6aebcd, 0x6a09e667, 0xbb67ae85, 0x3c6ef372, 0xfa2a4622, 0x510e527f, 0x9b05688c, 0x1f83d9ab)
  const H2: Hash := Hash(0x5a6ad9ad, 0x5d6aebcd, 0x6a09e667, 0xbb67ae85, 0x78ce7989, 0xfa2a4622, 0x510e527f, 0x9b05688c)
  const H3: Hash := Hash(0xc8c347a7, 0x5a6ad9ad, 0x5d6aebcd, 0x6a09e667, 0xf92939eb, 0x78ce7989, 0xfa2a4622, 0x510e527f)
  const H4: Hash := Hash(0xd550f666, 0xc8c347a7, 0x5a6ad9ad, 0x5d6aebcd, 0x24e00850, 0xf92939eb, 0x78ce7989, 0xfa2a4622)
  const H5: Hash := Hash(0x04409a6a, 0xd550f666, 0xc8c347a7, 0x5a6ad9ad, 0x43ada245, 0x24e00850, 0xf92939eb, 0x78ce7989)
  const H6: Hash := Hash(0x2b4209f5, 0x04409a6a, 0xd550f666, 0xc8c347a7, 0x714260ad, 0x43ada245, 0x24e00850, 0xf92939eb)
  const H7: Hash := Hash(0xe5030380, 0x2b4209f5, 0x04409a6a, 0xd550f666, 0x9b27a401, 0x714260ad, 0x43ada245, 0x24e00850)
  const H8: Hash := Hash(0x85a07b5f, 0xe5030380, 0x2b4209f5, 0x04409a6a, 0x0c657a79, 0x9b27a401, 0x714260ad, 0x43ada245)
  const H9: Hash := Hash(0x8e04ecb9, 0x85a07b5f, 0xe5030380, 0x2b4209f5, 0x32ca2d8c, 0x0c657a79, 0x9b27a401, 0x714260ad)
  const H10: Hash := Hash(0x8c87346b, 0x8e04ecb9, 0x85a07b5f, 0xe5030380, 0x1cc92596, 0x32ca2d8c, 0x0c657a79, 0x9b27a401)
  const H11: Hash := Hash(0x4798a3f4, 0x8c87346b, 0x8e04ecb9, 0x85a07b5f, 0x436b23e8, 0x1cc92596, 0x32ca2d8c, 0x0c657a79)
  const H12: Hash := Hash(0xf71fc5a9, 0x4798a3f4, 0x8c87346b, 0x8e04ecb9, 0x816fd6e9, 0x436b23e8, 0x1cc92596, 0x32ca2d8c)
  const H13: Hash := Hash(0x87912990, 0xf71fc5a9, 0x4798a3f4, 0x8c87346b, 0x1e578218, 0x816fd6e9, 0x436b23e8, 0x1cc92596)
  const H14: Hash := Hash(0xd932eb16, 0x87912990, 0xf71fc5a9, 0x4798a3f4, 0x745a48de, 0x1e578218, 0x816fd6e9, 0x436b23e8)
  const H15: Hash := Hash(0xc0645fde, 0xd932eb16, 0x87912990, 0xf71fc5a9, 0x0b92f20c, 0x745a48de, 0x1e578218, 0x816fd6e9)
  const H16: Hash := Hash(0xb0fa238e, 0xc0645fde, 0xd932eb16, 0x87912990, 0x07590dcd, 0x0b92f20c, 0x745a48de, 0x1e578218)
  const H17: Hash := Hash(0x21da9a9b, 0xb0fa238e, 0xc0645fde, 0xd932eb16, 0x8034229c, 0x07590dcd, 0x0b92f20c, 0x745a48de)
  const H18: Hash := Hash(0xc2fbd9d1, 0x21da9a9b, 0xb0fa238e, 0xc0645fde, 0x846ee454, 0x8034229c, 0x07590dcd, 0x0b92f20c)
  const H19: Hash := Hash(0xfe777bbf, 0xc2fbd9d1, 0x21da9a9b, 0xb0fa238e, 0xcc899961, 0x846ee454, 0x8034229c, 0x07590dcd)
  const H20: Hash := Hash(0xe1f20c33, 0xfe777bbf, 0xc2fbd9d1, 0x21da9a9b, 0xb0638179, 0xcc899961, 0x846ee454, 0x8034229c)
  const H21: Hash := Hash(0x9dc68b63, 0xe1f20c33, 0xfe777bbf, 0xc2fbd9d1, 0x8ada8930, 0xb0638179, 0xcc899961, 0x846ee454)
  const H22: Hash := Hash(0xc2606d6d, 0x9dc68b63, 0xe1f20c33, 0xfe777bbf, 0xe1257970, 0x8ada8930, 0xb0638179, 0xcc899961)
  const H23: Hash := Hash(0xa7a3623f, 0xc2606d6d, 0x9dc68b63, 0xe1f20c33, 0x49f5114a, 0xe1257970, 0x8ada8930, 0xb0638179)
  const H24: Hash := Hash(0xc5d53d8d, 0xa7a3623f, 0xc2606d6d, 0x9dc68b63, 0xaa47c347, 0x49f5114a, 0xe1257970, 0x8ada8930)
  const H25: Hash := Hash(0x1c2c2838, 0xc5d53d8d, 0xa7a3623f, 0xc2606d6d, 0x2823ef91, 0xaa47c347, 0x49f5114a, 0xe1257970)
  const H26: Hash := Hash(0xcde8037d, 0x1c2c2838, 0xc5d53d8d, 0xa7a3623f, 0x14383d8e, 0x2823ef91, 0xaa47c347, 0x49f5114a)
  const H27: Hash := Hash(0xb62ec4bc, 0xcde8037d, 0x1c2c2838, 0xc5d53d8d, 0xc74c6516, 0x14383d8e, 0x2823ef91, 0xaa47c347)
  const H28: Hash := Hash(0x77d37528, 0xb62ec4bc, 0xcde8037d, 0x1c2c2838, 0xedffbff8, 0xc74c6516, 0x14383d8e, 0x2823ef91)
  const H29: Hash := Hash(0x363482c9, 0x77d37528, 0xb62ec4bc, 0xcde8037d, 0x6112a3b7, 0xedffbff8, 0xc74c6516, 0x14383d8e)
  const H30: Hash := Hash(0xa0060b30, 0x363482c9, 0x77d37528, 0xb62ec4bc, 0xade79437, 0x6112a3b7, 0xedffbff8, 0xc74c6516)
  const H31: Hash := Hash(0xea992a22, 0xa0060b30, 0x363482c9, 0x77d37528, 0x0109ab3a, 0xade79437, 0x6112a3b7, 0xedffbff8)
  const H32: Hash := Hash(0x73b33bf5, 0xea992a22, 0xa0060b30, 0x363482c9, 0xba591112, 0x0109ab3a, 0xade79437, 0x6112a3b7)
  const H33: Hash := Hash(0x98e12507, 0x73b33bf5, 0xea992a22, 0xa0060b30, 0x9cd9f5f6, 0xba591112, 0x0109ab3a, 0xade79437)
  const H34: Hash := Hash(0xfe604df5, 0x98e12507, 0x73b33bf5, 0xea992a22, 0x59249dd3, 0x9cd9f5f6, 0xba591112, 0x0109ab3a)
  const H35: Hash := Hash(0xa9a7738c, 0xfe604df5, 0x98e12507, 0x73b33bf5, 0x085f3833, 0x59249dd3, 0x9cd9f5f6, 0xba591112)
  const H36: Hash := Hash(0x65a0cfe4, 0xa9a7738c, 0xfe604df5, 0x98e12507, 0xf4b002d6, 0x085f3833, 0x59249dd3, 0x9cd9f5f6)
  const H37: Hash := Hash(0x41a65cb1, 0x65a0cfe4, 0xa9a7738c, 0xfe604df5, 0x0772a26b, 0xf4b002d6, 0x085f3833, 0x59249dd3)
  const H38: Hash := Hash(0x34df1604, 0x41a65cb1, 0x65a0cfe4, 0xa9a7738c, 0xa507a53d, 0x0772a26b, 0xf4b002d6, 0x085f3833)
  const H39: Hash := Hash(0x6dc57a8a, 0x34df1604, 0x41a65cb1, 0x65a0cfe4, 0xf0781bc8, 0xa507a53d, 0x0772a26b, 0xf4b002d6)
  const H40: Hash := Hash(0x79ea687a, 0x6dc57a8a, 0x34df1604, 0x41a65cb1, 0x1efbc0a0, 0xf0781bc8, 0xa507a53d, 0x0772a26b)
  const H41: Hash := Hash(0xd6670766, 0x79ea687a, 0x6dc57a8a, 0x34df1604, 0x26352d63, 0x1efbc0a0, 0xf0781bc8, 0xa507a53d)
  const H42: Hash := Hash(0xdf46652f, 0xd6670766, 0x79ea687a, 0x6dc57a8a, 0x838b2711, 0x26352d63, 0x1efbc0a0, 0xf0781bc8)
  const H43: Hash := Hash(0x17aa0dfe, 0xdf46652f, 0xd6670766, 0x79ea687a, 0xdecd4715, 0x838b2711, 0x26352d63, 0x1efbc0a0)
  const H44: Hash := Hash(0x9d4baf93, 0x17aa0dfe, 0xdf46652f, 0xd6670766, 0xfda24c2e, 0xdecd4715, 0x838b2711, 0x26352d63)
  const H45: Hash := Hash(0x26628815, 0x9d4baf93, 0x17aa0dfe, 0xdf46652f, 0xa80f11f0, 0xfda24c2e, 0xdecd4715, 0x838b2711)
  const H46: Hash := Hash(0x72ab4b91, 0x26628815, 0x9d4baf93, 0x17aa0dfe, 0xb7755da1, 0xa80f11f0, 0xfda24c2e, 0xdecd4715)
  const H47: Hash := Hash(0xa14c14b0, 0x72ab4b91, 0x26628815, 0x9d4baf93, 0xd57b94a9, 0xb7755da1, 0xa80f11f0, 0xfda24c2e)
  const H48: Hash := Hash(0x4172328d, 0xa14c14b0, 0x72ab4b91, 0x26628815, 0xfecf0bc6, 0xd57b94a9, 0xb7755da1, 0xa80f11f0)
  const H49: Hash := Hash(0x05757ceb, 0x4172328d, 0xa14c14b0, 0x72ab4b91, 0xbd714038, 0xfecf0bc6, 0xd57b94a9, 0xb7755da1)
  const H50: Hash := Hash(0xf11bfaa8, 0x05757ceb, 0x4172328d, 0xa14c14b0, 0x6e5c390c, 0xbd714038, 0xfecf0bc6, 0xd57b94a9)
  const H51: Hash := Hash(0x7a0508a1, 0xf11bfaa8, 0x05757ceb, 0x4172328d, 0x52f1ccf7, 0x6e5c390c, 0xbd714038, 0xfecf0bc6)
  const H52: Hash := Hash(0x886e7a22, 0x7a0508a1, 0xf11bfaa8, 0x05757ceb, 0x49231c1e, 0x52f1ccf7, 0x6e5c390c, 0xbd714038)
  const H53: Hash := Hash(0x101fd28f, 0x886e7a22, 0x7a0508a1, 0xf11bfaa8, 0x529e7d00, 0x49231c1e, 0x52f1ccf7, 0x6e5c390c)
  const H54: Hash := Hash(0xf5702fdb, 0x101fd28f, 0x886e7a22, 0x7a0508a1, 0x9f4787c3, 0x529e7d00, 0x49231c1e, 0x52f1ccf7)
  const H55: Hash := Hash(0x3ec45cdb, 0xf5702fdb, 0x101fd28f, 0x886e7a22, 0xe50e1b4f, 0x9f4787c3, 0x529e7d00, 0x49231c1e)
  const H56: Hash := Hash(0x38cc9913, 0x3ec45cdb, 0xf5702fdb, 0x101fd28f, 0x54cb266b, 0xe50e1b4f, 0x9f4787c3, 0x529e7d00)
  const H57: Hash := Hash(0xfcd1887b, 0x38cc9913, 0x3ec45cdb, 0xf5702fdb, 0x9b5e906c, 0x54cb266b, 0xe50e1b4f, 0x9f4787c3)
  const H58: Hash := Hash(0xc062d46f, 0xfcd1887b, 0x38cc9913, 0x3ec45cdb, 0x7e44008e, 0x9b5e906c, 0x54cb266b, 0xe50e1b4f)
  const H59: Hash := Hash(0xffb70472, 0xc062d46f, 0xfcd1887b, 0x38cc9913, 0x6d83bfc6, 0x7e44008e, 0x9b5e906c, 0x54cb266b)
  const H60: Hash := Hash(0xb6ae8fff, 0xffb70472, 0xc062d46f, 0xfcd1887b, 0xb21bad3d, 0x6d83bfc6, 0x7e44008e, 0x9b5e906c)
  const H61: Hash := Hash(0xb85e2ce9, 0xb6ae8fff, 0xffb70472, 0xc062d46f, 0x961f4894, 0xb21bad3d, 0x6d83bfc6, 0x7e44008e)
  const H62: Hash := Hash(0x04d24d6c, 0xb85e2ce9, 0xb6ae8fff, 0xffb70472, 0x948d25b6, 0x961f4894, 0xb21bad3d, 0x6d83bfc6)
  const H63: Hash := Hash(0xd39a2165, 0x04d24d6c, 0xb85e2ce9, 0xb6ae8fff, 0xfb121210, 0x948d25b6, 0x961f4894, 0xb21bad3d)
  const H64: Hash := Hash(0x506e3058, 0xd39a2165, 0x04d24d6c, 0xb85e2ce9, 0x5ef50f24, 0xfb121210, 0x948d25b6, 0x961f4894)

  lemma Steps0()
    ensures Round(H0, 0x428a2f98, 0x61626380) == H1
    ensures Round(H1, 0x71374491, 0x00000000) == H2
    ensures Round(H2, 0xb5c0fbcf, 0x00000000) == H3
    ensures Round(H3, 0xe9b5dba5, 0x00000000) == H4
    ensures Round(H4, 0x3956c25b, 0x00000000) == H5
    ensures Round(H5, 0x59f111f1, 0x00000000) == H6
    ensures Round(H6, 0x923f82a4, 0x00000000) == H7
    ensures Round(H7, 0xab1c5ed5, 0x00000000) == H8
    ensures Round(H8, 0xd807aa98, 0x00000000) == H9
    ensures Round(H9, 0x12835b01, 0x00000000) == H10
    ensures Round(H10, 0x243185be, 0x00000000) == H11
    ensures Round(H11, 0x550c7dc3, 0x00000000) == H12
    ensures Round(H12, 0x72be5d74, 0x00000000) == H13
    ensures Round(H13, 0x80deb1fe, 0x00000000) == H14
    ensures Round(H14, 0x9bdc06a7, 0x00000000) == H15
    ensures Round(H15, 0xc19bf174, 0x00000018) == H16
  {
  }

  lemma Steps1()
    ensures Round(H16, 0xe49b69c1, 0x61626380) == H17
    ensures Round(H17, 0xefbe4786, 0x000f0000) == H18
    ensures Round(H18, 0x0fc19dc6, 0x7da86405) == H19
    ensures Round(H19, 0x240ca1cc, 0x600003c6) == H20
    ensures Round(H20, 0x2de92c6f, 0x3e9d7b78) == H21
    ensures Round(H21, 0x4a7484aa, 0x0183fc00) == H22
    ensures Round(H22, 0x5cb0a9dc, 0x12dcbfdb) == H23
    ensures Round(H23, 0x76f988da, 0xe2e2c38e) == H24
    ensures Round(H24, 0x983e5152, 0xc8215c1a) == H25
    ensures Round(H25, 0xa831c66d, 0xb73679a2) == H26
    ensures Round(H26, 0xb00327c8, 0xe5bc3909) == H27
    ensures Round(H27, 0xbf597fc7, 0x32663c5b) == H28
    ensures Round(H28, 0xc6e00bf3, 0x9d209d67) == H29
    ensures Round(H29, 0xd5a79147, 0xec8726cb) == H30
    ensures Round(H30, 0x06ca6351, 0x702138a4) == H31
    ensures Round(H31, 0x14292967, 0xd3b7973b) == H32
  {
  }

  lemma Steps2()
    ensures Round(H32, 0x27b70a85, 0x93f5997f) == H33
    ensures Round(H33, 0x2e1b2138, 0x3b68ba73) == H34
    ensures Round(H34, 0x4d2c6dfc, 0xaff4ffc1) == H35
    ensures Round(H35, 0x53380d13, 0xf10a5c62) == H36
    ensures Round(H36, 0x650a7354, 0x0a8b3996) == H37
    ensures Round(H37, 0x766a0abb, 0x72af830a) == H38
    ensures Round(H38, 0x81c2c92e, 0x9409e33e) == H39
    ensures Round(H39, 0x92722c85, 0x24641522) == H40
    ensures Round(H40, 0xa2bfe8a1, 0x9f47bf94) == H41
    ensures Round(H41, 0xa81a664b, 0xf0a64f5a) == H42
    ensures Round(H42, 0xc24b8b70, 0x3e246a79) == H43
    ensures Round(H43, 0xc76c51a3, 0x27333ba3) == H44
    ensures Round(H44, 0xd192e819, 0x0c4763f2) == H45
    ensures Round(H45, 0xd6990624, 0x840abf27) == H46
    ensures Round(H46, 0xf40e3585, 0x7a290d5d) == H47
    ensures Round(H47, 0x106aa070, 0x065c43da) == H48
  {
  }

  lemma Steps3()
    ensures Round(H48, 0x19a4c116, 0xfb3e89cb) == H49
    ensures Round(H49, 0x1e376c08, 0xcc7617db) == H50
    ensures Round(H50, 0x2748774c, 0xb9e66c34) == H51
    ensures Round(H51, 0x34b0bcb5, 0xa9993667) == H52
    ensures Round(H52, 0x391c0cb3, 0x84badedd) == H53
    ensures Round(H53, 0x4ed8aa4a, 0xc21462bc) == H54
    ensures Round(H54, 0x5b9cca4f, 0x1487472c) == H55
    ensures Round(H55, 0x682e6ff3, 0xb20f7a99) == H56
    ensures Round(H56, 0x748f82ee, 0xef57b9cd) == H57
    ensures Round(H57, 0x78a5636f, 0xebe6b238) == H58
    ensures Round(H58, 0x84c87814, 0x9fe3095e) == H59
    ensures Round(H59, 0x8cc70208, 0x78bc8d4b) == H60
    ensures Round(H60, 0x90befffa, 0xa43fcf15) == H61
    ensures Round(H61, 0xa4506ceb, 0x668b2ff8) == H62
    ensures Round(H62, 0xbef9a3f7, 0xeeaba2cc) == H63
    ensures Round(H63, 0xc67178f2, 0x12b1edeb) == H64
  {
  }

  lemma Rounds0(b: seq<Byte>)
    requires Words0(b) && Rounds(b, INITIAL, 0) == H0
    ensures Rounds(b, INITIAL, 16) == H16
  {
    hide W, K, Round;
    Steps0();
    Constants0();
    assert Rounds(b, INITIAL, 1) == H1; assert Rounds(b, INITIAL, 2) == H2;
    assert Rounds(b, INITIAL, 3) == H3; assert Rounds(b, INITIAL, 4) == H4;
    assert Rounds(b, INITIAL, 5) == H5; assert Rounds(b, INITIAL, 6) == H6;
    assert Rounds(b, INITIAL, 7) == H7; assert Rounds(b, INITIAL, 8) == H8;
    assert Rounds(b, INITIAL, 9) == H9; assert Rounds(b, INITIAL, 10) == H10;
    assert Rounds(b, INITIAL, 11) == H11; assert Rounds(b, INITIAL, 12) == H12;
    assert Rounds(b, INITIAL, 13) == H13; assert Rounds(b, INITIAL, 14) == H14;
    assert Rounds(b, INITIAL, 15) == H15; assert Rounds(b, INITIAL, 16) == H16;
  }

  lemma Rounds1(b: seq<Byte>)
    requires Words1(b) && Rounds(b, INITIAL, 16) == H16
    ensures Rounds(b, INITIAL, 32) == H32
  {
    hide W, K, Round;
    Steps1();
    Constants1();
    assert Rounds(b, INITIAL, 17) == H17; assert Rounds(b, INITIAL, 18) == H18;
    assert Rounds(b, INITIAL, 19) == H19; assert Rounds(b, INITIAL, 20) == H20;
    assert Rounds(b, INITIAL, 21) == H21; assert Rounds(b, INITIAL, 22) == H22;
    assert Rounds(b, INITIAL, 23) == H23; assert Rounds(b, INITIAL, 24) == H24;
    assert Rounds(b, INITIAL, 25) == H25; assert Rounds(b, INITIAL, 26) == H26;
    assert Rounds(b, INITIAL, 27) == H27; assert Rounds(b, INITIAL, 28) == H28;
    assert Rounds(b, INITIAL, 29) == H29; assert Rounds(b, INITIAL, 30) == H30;
    assert Rounds(b, INITIAL, 31) == H31; assert Rounds(b, INITIAL, 32) == H32;
  }

  lemma Rounds2(b: seq<Byte>)
    requires Words2(b) && Rounds(b, INITIAL, 32) == H32
    ensures Rounds(b, INITIAL, 48) == H48
  {
    hide W, K, Round;
    Steps2();
    Constants2();
    assert Rounds(b, INITIAL, 33) == H33; assert Rounds(b, INITIAL, 34) == H34;
    assert Rounds(b, INITIAL, 35) == H35; assert Rounds(b, INITIAL, 36) == H36;
    assert Rounds(b, INITIAL, 37) == H37; assert Rounds(b, INITIAL, 38) == H38;
    assert Rounds(b, INITIAL, 39) == H39; assert Rounds(b, INITIAL, 40) == H40;
    assert Rounds(b, INITIAL, 41) == H41; assert Rounds(b, INITIAL, 42) == H42;
    assert Rounds(b, INITIAL, 43) == H43; assert Rounds(b, INITIAL, 44) == H44;
    assert Rounds(b, INITIAL, 45) == H45; assert Rounds(b, INITIAL, 46) == H46;
    assert Rounds(b, INITIAL, 47) == H47; assert Rounds(b, INITIAL, 48) == H48;
  }

  lemma Rounds3(b: seq<Byte>)
    requires Words3(b) && Rounds(b, INITIAL, 48) == H48
    ensures Rounds(b, INITIAL, 64) == H64
  {
    hide W, K, Round;
    Steps3();
    Constants3();
    assert Rounds(b, INITIAL, 49) == H49; assert Rounds(b, INITIAL, 50) == H50;
    assert Rounds(b, INITIAL, 51) == H51; assert Rounds(b, INITIAL, 52) == H52;
    assert Rounds(b, INITIAL, 53) == H53; assert Rounds(b, INITIAL, 54) == H54;
    assert Rounds(b, INITIAL, 55) == H55; assert Rounds(b, INITIAL, 56) == H56;
    assert Rounds(b, INITIAL, 57) == H57; assert Rounds(b, INITIAL, 58) == H58;
    assert Rounds(b, INITIAL, 59) == H59; assert Rounds(b, INITIAL, 60) == H60;
    assert Rounds(b, INITIAL, 61) == H61; assert Rounds(b, INITIAL, 62) == H62;
    assert Rounds(b, INITIAL, 63) == H63; assert Rounds(b, INITIAL, 64) == H64;
  }

  const RESULT: Hash := Hash(0xba7816bf, 0x8f01cfea, 0x414140de, 0x5dae2223, 0xb00361a3, 0x96177a9c, 0xb410ff61, 0xf20015ad)

  lemma SumIs()
    ensures Plus(INITIAL, H64) == RESULT && INITIAL == H0
  {
  }

  lemma CompressedIs()
    ensures |Pad(ABC)| == 64 && Compress(INITIAL, Pad(ABC)) == RESULT
  {
    hide Pad, W, Rounds, Words0, Words1, Words2, Words3, Plus;
    BlockIs();
    var b := Pad(ABC);
    WordsAre0(b);
    WordsAre1(b);
    WordsAre2(b);
    WordsAre3(b);
    SumIs();
    NoRounds(b);
    Rounds0(b);
    Rounds1(b);
    Rounds2(b);
    Rounds3(b);
  }

  lemma NoRounds(b: seq<Byte>)
    requires |b| == 64
    ensures Rounds(b, INITIAL, 0) == INITIAL
  {
  }

  lemma FourBytes(a: Byte, b: Byte, c: Byte, d: Byte)
    ensures BigEndian(Quad(a, b, c, d), 4) == [a, b, c, d]
  {
    var n := Quad(a, b, c, d);
    var x, y, z := n / 256, n / 256 / 256, n / 256 / 256 / 256;
    assert x == a * 65536 + b * 256 + c && y == a * 256 + b && z == a;
    assert BigEndian(z, 1) == [a];
    assert BigEndian(y, 2) == [a, b];
    assert BigEndian(x, 3) == [a, b, c];
  }

  lemma ResultInNumbers()
    ensures ToNumber(RESULT.a) == 0xba7816bf
    ensures ToNumber(RESULT.b) == 0x8f01cfea
    ensures ToNumber(RESULT.c) == 0x414140de
    ensures ToNumber(RESULT.d) == 0x5dae2223
    ensures ToNumber(RESULT.e) == 0xb00361a3
    ensures ToNumber(RESULT.f) == 0x96177a9c
    ensures ToNumber(RESULT.g) == 0xb410ff61
    ensures ToNumber(RESULT.h) == 0xf20015ad
  {
  }

  lemma ResultQuads()
    ensures Quad(0xba, 0x78, 0x16, 0xbf) == 0xba7816bf
    ensures Quad(0x8f, 0x01, 0xcf, 0xea) == 0x8f01cfea
    ensures Quad(0x41, 0x41, 0x40, 0xde) == 0x414140de
    ensures Quad(0x5d, 0xae, 0x22, 0x23) == 0x5dae2223
    ensures Quad(0xb0, 0x03, 0x61, 0xa3) == 0xb00361a3
    ensures Quad(0x96, 0x17, 0x7a, 0x9c) == 0x96177a9c
    ensures Quad(0xb4, 0x10, 0xff, 0x61) == 0xb410ff61
    ensures Quad(0xf2, 0x00, 0x15, 0xad) == 0xf20015ad
  {
  }

  lemma StoredIs()
    ensures Store(RESULT) ==
            [0xba, 0x78, 0x16, 0xbf] + [0x8f, 0x01, 0xcf, 0xea] + [0x41, 0x41, 0x40, 0xde] + [0x5d, 0xae, 0x22, 0x23] +
            [0xb0, 0x03, 0x61, 0xa3] + [0x96, 0x17, 0x7a, 0x9c] + [0xb4, 0x10, 0xff, 0x61] + [0xf2, 0x00, 0x15, 0xad]
  {
    hide BigEndian, RESULT, Quad, ToNumber;
    ResultInNumbers();
    ResultQuads();
    FourBytes(0xba, 0x78, 0x16, 0xbf);
    FourBytes(0x8f, 0x01, 0xcf, 0xea);
    FourBytes(0x41, 0x41, 0x40, 0xde);
    FourBytes(0x5d, 0xae, 0x22, 0x23);
    FourBytes(0xb0, 0x03, 0x61, 0xa3);
    FourBytes(0x96, 0x17, 0x7a, 0x9c);
    FourBytes(0xb4, 0x10, 0xff, 0x61);
    FourBytes(0xf2, 0x00, 0x15, 0xad);
  }

  /** The digest of three letters, as in the examples published with FIPS 180-4. */
  lemma DigestOfAbc()
    ensures Digest(ABC) ==
            [0xba, 0x78, 0x16, 0xbf] + [0x8f, 0x01, 0xcf, 0xea] + [0x41, 0x41, 0x40, 0xde] + [0x5d, 0xae, 0x22, 0x23] +
            [0xb0, 0x03, 0x61, 0xa3] + [0x96, 0x17, 0x7a, 0x9c] + [0xb4, 0x10, 0xff, 0x61] + [0xf2, 0x00, 0x15, 0xad]
  {
    hide Pad, Compress, Store, RESULT, ToNumber;
    PadLength(ABC);
    CompressedIs();
    FoldStep(INITIAL, [], Pad(ABC));
    assert [] + Pad(ABC) == Pad(ABC);
    EmptyMessage();
    StoredIs();
  }
}
