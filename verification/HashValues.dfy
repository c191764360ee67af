/** Values of the three hash functions on given keys, worked out from the C code: they fix the
    constants, the shifts, the order of blocks and bytes, and where length, seed and level go. */
module HashValues {
  import opened Words
  import M = Murmur
  import opened Lookup8

  // ---- MurmurHash64A ----

  /** Two blocks and a tail of five bytes. */
  const KEY: seq<bv8> := [1, 2, 3, 4, 5, 6, 7, 8, 9, 10, 11, 12, 13, 14, 15, 16, 17, 18, 19, 20, 21]

  lemma KeyWords()
    ensures Low(KEY[0..8]) == 0x0807060504030201 && Low(KEY[8..16]) == 0x100f0e0d0c0b0a09
    ensures Low(KEY[16..21]) == 0x1514131211
  {
    hide Low;
    LowIs(KEY[0..8], 0x0807060504030201);
    LowIs(KEY[8..16], 0x100f0e0d0c0b0a09);
    LowIs(KEY[16..21] + [0, 0, 0], 0x1514131211);
    LowPadded(KEY[16..21]);
  }

  lemma LowPadded(k: seq<bv8>)
    requires |k| == 5
    ensures Low(k) == Low(k + [0, 0, 0])
  {
    hide Or, Place, Low;
    var p := k + [0, 0, 0];
    assert p[..5] == k && p[..8] == p;
    LowNext(p, 5);
    LowNext(p, 6);
    LowNext(p, 7);
    NothingPlaced(Low(k));
  }

  lemma NothingPlaced(w: bv64)
    ensures Or(w, Place(0, 5)) == Or(w, Place(0, 6)) == Or(w, Place(0, 7)) == w
  {
  }

  lemma MurmurStart()
    ensures M.Start(21, M.SEED) == 0x4b81bf16883897d6
  {
    assert Bits(4) == 4;
    assert Bits(8) == 8;
    assert Bits(13) == 13;
    assert Bits(21) == 21;
  }

  lemma MurmurFirst()
    ensures M.Mixed(0x4b81bf16883897d6, 0x0807060504030201) == 0xc402be1d770e6c4d
  {
  }

  lemma MurmurSecond()
    ensures M.Mixed(0xc402be1d770e6c4d, 0x100f0e0d0c0b0a09) == 0x237382e63e77bda0
  {
  }

  lemma MurmurTail()
    ensures M.Scale(Xor(0x237382e63e77bda0, 0x1514131211)) == 0x96d34967ab035b05
  {
  }

  lemma MurmurFinal()
    ensures M.Final(0x96d34967ab035b05) == 0xbe7005c3927d1b3f
  {
  }

  lemma MurmurBlocks()
    ensures M.Blocks(0x4b81bf16883897d6, KEY) == 0x237382e63e77bda0
  {
    hide Low, M.Mixed;
    KeyWords();
    MurmurFirst();
    MurmurSecond();
    var rest := KEY[8..];
    assert KEY[..8] == KEY[0..8] && rest[..8] == KEY[8..16] && |rest[8..]| == 5;
  }

  /** HashBytes of 21 bytes: both constants, the shift, the length, the order of the bytes, blocks and
      steps. */
  lemma MurmurKnown()
    ensures M.Hash(KEY, 0xbeef) == 0xbe7005c3927d1b3f
  {
    hide Low, M.Final, M.Blocks, M.Start, M.Scale, Xor;
    KeyWords();
    MurmurStart();
    MurmurBlocks();
    MurmurTail();
    MurmurFinal();
    assert M.Full(KEY) == 16 && KEY[16..] == KEY[16..21];
  }

  lemma MurmurEmpty()
    ensures M.Hash([], 0xbeef) == 0xa817d0b88454f834
  {
    assert M.Start(0, M.SEED) == 0xbeef;
    assert M.Final(0xbeef) == 0xa817d0b88454f834;
  }

  // ---- hash of lookup8.cc ----

  const PART0: seq<bv8> := [1, 2, 3, 4, 5, 6, 7, 8]
  const PART1: seq<bv8> := [9, 10, 11, 12, 13, 14, 15, 16]
  const PART2: seq<bv8> := [17, 18, 19, 20, 21, 22, 23, 24]
  const PART3: seq<bv8> := [25, 26, 27, 28, 29, 30, 31, 32]
  const PART4: seq<bv8> := [33, 34, 35, 36, 37, 38, 39, 40]
  const PART5: seq<bv8> := [41, 42, 43, 44, 45, 46, 47, 48]
  const PART6: seq<bv8> := [49, 50, 51, 52, 53, 54, 55, 56]
  const PART7: seq<bv8> := [57, 58, 59, 60, 61, 62, 63, 64]
  const PART8: seq<bv8> := [65, 66, 67, 68, 69, 70, 71]

  /** Two blocks of 24 bytes and a last part of 23. */
  const LONG: seq<bv8> := PART0 + PART1 + PART2 + PART3 + PART4 + PART5 + PART6 + PART7 + PART8

  lemma LongWords()
    ensures |LONG| == 71
    ensures LONG[0..8] == PART0 && Low(PART0) == 0x807060504030201
    ensures LONG[8..16] == PART1 && Low(PART1) == 0x100f0e0d0c0b0a09
    ensures LONG[16..24] == PART2 && Low(PART2) == 0x1817161514131211
    ensures LONG[24..32] == PART3 && Low(PART3) == 0x201f1e1d1c1b1a19
    ensures LONG[32..40] == PART4 && Low(PART4) == 0x2827262524232221
    ensures LONG[40..48] == PART5 && Low(PART5) == 0x302f2e2d2c2b2a29
    ensures LONG[48..56] == PART6 && Low(PART6) == 0x3837363534333231
    ensures LONG[56..64] == PART7 && Low(PART7) == 0x403f3e3d3c3b3a39
    ensures LONG[64..71] == PART8 && Low([0] + PART8) == 0x4746454443424100
  {
    hide Low;
    LowIs(PART0, 0x807060504030201);
    LowIs(PART1, 0x100f0e0d0c0b0a09);
    LowIs(PART2, 0x1817161514131211);
    LowIs(PART3, 0x201f1e1d1c1b1a19);
    LowIs(PART4, 0x2827262524232221);
    LowIs(PART5, 0x302f2e2d2c2b2a29);
    LowIs(PART6, 0x3837363534333231);
    LowIs(PART7, 0x403f3e3d3c3b3a39);
    LowIs([0] + PART8, 0x4746454443424100);
  }

  lemma Long00()
    ensures Round(State(0x807060504030208, 0x100f0e0d0c0b0a10, 0xb64e8fce935d8e24), 0)
         == State(0x41a96829648ca005, 0x4ac744dc0d60d1e7, 0x2997258dfd7d7ce9)
  {
  }

  lemma Long01()
    ensures Round(State(0x41a96829648ca005, 0x4ac744dc0d60d1e7, 0x2997258dfd7d7ce9), 1)
         == State(0xcd4afdbf59080da3, 0x8c49a588675b475b, 0xd460cf6a7e20fdd1)
  {
  }

  lemma Long02()
    ensures Round(State(0xcd4afdbf59080da3, 0x8c49a588675b475b, 0xd460cf6a7e20fdd1), 2)
         == State(0x6ca088cc6907d19a, 0xe87c4d51803277f0, 0x7f5ef6c53ed6b209)
  {
  }

  lemma Long03()
    ensures Round(State(0x6ca088cc6907d19a, 0xe87c4d51803277f0, 0x7f5ef6c53ed6b209), 3)
         == State(0x4c2b15ac5ad4aca, 0xa131b38450867b1d, 0xd96a9362ee6cfd60)
  {
  }

  lemma LongAbsorb0()
    ensures Absorb(State(0x7, 0x7, 0x9e3779b97f4a7c13),
                   0x807060504030201, 0x100f0e0d0c0b0a09, 0x1817161514131211)
         == State(0x4c2b15ac5ad4aca, 0xa131b38450867b1d, 0xd96a9362ee6cfd60)
  {
    hide Round;
    Long00();
    Long01();
    Long02();
    Long03();
  }

  lemma Long10()
    ensures Round(State(0x24e1cf77e1c864e3, 0xc958d9a974a99d3e, 0x999c1901a982789), 0)
         == State(0x51ef343e52879324, 0xb3a79f7e08afaa91, 0x4b14a4cc168467e)
  {
  }

  lemma Long11()
    ensures Round(State(0x51ef343e52879324, 0xb3a79f7e08afaa91, 0x4b14a4cc168467e), 1)
         == State(0x99964a73887d673c, 0x2ca4340e20c9fcd7, 0x3f13ea6b6926ad8d)
  {
  }

  lemma Long12()
    ensures Round(State(0x99964a73887d673c, 0x2ca4340e20c9fcd7, 0x3f13ea6b6926ad8d), 2)
         == State(0x2dde2bf9f96ec195, 0x3c981da8be348db5, 0xd49a33cb049498d2)
  {
  }

  lemma Long13()
    ensures Round(State(0x2dde2bf9f96ec195, 0x3c981da8be348db5, 0xd49a33cb049498d2), 3)
         == State(0x1ca693250a15d247, 0x7c37eefe696229c, 0xb03021a91e131c75)
  {
  }

  lemma LongAbsorb1()
    ensures Absorb(State(0x4c2b15ac5ad4aca, 0xa131b38450867b1d, 0xd96a9362ee6cfd60),
                   0x201f1e1d1c1b1a19, 0x2827262524232221, 0x302f2e2d2c2b2a29)
         == State(0x1ca693250a15d247, 0x7c37eefe696229c, 0xb03021a91e131c75)
  {
    hide Round;
    Long10();
    Long11();
    Long12();
    Long13();
  }

  lemma Long20()
    ensures Round(State(0x54ddc95a3e490478, 0x4802bd2d22d15cd5, 0xf77666ed61555dbc), 0)
         == State(0x1564a53fba3ca72b, 0xf26dce747e7101ee, 0xef519ef75cd9c5a2)
  {
  }

  lemma Long21()
    ensures Round(State(0x1564a53fba3ca72b, 0xf26dce747e7101ee, 0xef519ef75cd9c5a2), 1)
         == State(0x33a537d3dd4c99e0, 0x269851e5b44aa26c, 0x9420d7b2e6e0dc45)
  {
  }

  lemma Long22()
    ensures Round(State(0x33a537d3dd4c99e0, 0x269851e5b44aa26c, 0x9420d7b2e6e0dc45), 2)
         == State(0x78ec0e3b50a501d9, 0x1a396bf77cc4c44e, 0xf81aad67988e86)
  {
  }

  lemma Long23()
    ensures Round(State(0x78ec0e3b50a501d9, 0x1a396bf77cc4c44e, 0xf81aad67988e86), 3)
         == State(0x5dba8817c691d68d, 0x9bd9d37514ae5f3b, 0x763bd4feb158cec)
  {
  }

  lemma LongAbsorb2()
    ensures Absorb(State(0x1ca693250a15d247, 0x7c37eefe696229c, 0xb03021a91e131cbc),
                   0x3837363534333231, 0x403f3e3d3c3b3a39, 0x4746454443424100)
         == State(0x5dba8817c691d68d, 0x9bd9d37514ae5f3b, 0x763bd4feb158cec)
  {
    hide Round;
    Long20();
    Long21();
    Long22();
    Long23();
  }

  lemma LongParts()
    requires |LONG| == 71 && LONG[48..56] == PART6 && LONG[56..64] == PART7 && LONG[64..71] == PART8
    ensures Full(LONG) == 48 && PartA(LONG[48..]) == PART6 && PartB(LONG[48..]) == PART7 && PartC(LONG[48..]) == [0] + PART8
  {
    var rest := LONG[48..];
    assert rest[..8] == LONG[48..56] && rest[8..16] == LONG[56..64] && rest[16..] == LONG[64..71];
  }

  lemma BlockStep(s: State, k: seq<bv8>)
    requires |k| >= 24
    ensures Blocks(s, k) == Blocks(Absorb(s, Low(k[..8]), Low(k[8..16]), Low(k[16..24])), k[24..])
  {
  }

  lemma NoBlock(s: State, k: seq<bv8>)
    requires |k| < 24
    ensures Blocks(s, k) == s
  {
  }

  lemma LongBlocks()
    ensures Blocks(Init(7), LONG) == State(0x1ca693250a15d247, 0x7c37eefe696229c, 0xb03021a91e131c75)
  {
    hide Low, Absorb, Blocks;
    LongWords();
    LongAbsorb0();
    LongAbsorb1();
    BlockStep(Init(7), LONG);
    BlockStep(State(0x4c2b15ac5ad4aca, 0xa131b38450867b1d, 0xd96a9362ee6cfd60), LONG[24..]);
    NoBlock(State(0x1ca693250a15d247, 0x7c37eefe696229c, 0xb03021a91e131c75), LONG[24..][24..]);
    var rest := LONG[24..];
    assert LONG[..8] == LONG[0..8] && |rest| == 47 && |rest[24..]| == 23;
    assert rest[..8] == LONG[24..32] && rest[8..16] == LONG[32..40] && rest[16..24] == LONG[40..48];
  }

  lemma LongLength()
    ensures Bits(71) == 71 && Plus(0xb03021a91e131c75, 71) == 0xb03021a91e131cbc
  {
    assert Bits(9) == 9;
    assert Bits(18) == 18;
    assert Bits(27) == 27;
    assert Bits(36) == 36;
    assert Bits(45) == 45;
    assert Bits(54) == 54;
    assert Bits(63) == 63;
  }

  /** A key with blocks, a full last part and a level. */
  lemma KnownLongHash()
    ensures Hash(LONG, 7) == 0x763bd4feb158cec
  {
    hide Low, Absorb, Bits, Plus, Blocks, PartA, PartB, PartC;
    LongWords();
    LongBlocks();
    LongParts();
    LongLength();
    LongAbsorb2();
  }
}
