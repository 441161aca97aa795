/** The digest of a message of two blocks: the 56 letters abcdbcdecdef and so on up to nopq. */
module ShaTwoBlocks {
  import opened Sha256
  import opened ShaVectors

  /** The letters abcd, bcde, cdef and so on up to nopq. */
  const Letters: seq<bv8> :=
    [0x61, 0x62, 0x63, 0x64, 0x62, 0x63, 0x64, 0x65] +
    [0x63, 0x64, 0x65, 0x66, 0x64, 0x65, 0x66, 0x67] +
    [0x65, 0x66, 0x67, 0x68, 0x66, 0x67, 0x68, 0x69] +
    [0x67, 0x68, 0x69, 0x6a, 0x68, 0x69, 0x6a, 0x6b] +
    [0x69, 0x6a, 0x6b, 0x6c, 0x6a, 0x6b, 0x6c, 0x6d] +
    [0x6b, 0x6c, 0x6d, 0x6e, 0x6c, 0x6d, 0x6e, 0x6f] +
    [0x6d, 0x6e, 0x6f, 0x70, 0x6e, 0x6f, 0x70, 0x71]

  const FirstBlock: seq<bv8> := Letters + [0x80] + Zeros(7)

  const SecondBlock: seq<bv8> := Zeros(56) + [0, 0, 0, 0, 0, 0, 0x01, 0xc0]

  lemma FirstWords()
    ensures |FirstBlock| == 64
    ensures WordAt(FirstBlock, 0) == 0x61626364 && WordAt(FirstBlock, 1) == 0x62636465
    ensures WordAt(FirstBlock, 2) == 0x63646566 && WordAt(FirstBlock, 3) == 0x64656667
    ensures WordAt(FirstBlock, 4) == 0x65666768 && WordAt(FirstBlock, 5) == 0x66676869
    ensures WordAt(FirstBlock, 6) == 0x6768696a && WordAt(FirstBlock, 7) == 0x68696a6b
    ensures WordAt(FirstBlock, 8) == 0x696a6b6c && WordAt(FirstBlock, 9) == 0x6a6b6c6d
    ensures WordAt(FirstBlock, 10) == 0x6b6c6d6e && WordAt(FirstBlock, 11) == 0x6c6d6e6f
    ensures WordAt(FirstBlock, 12) == 0x6d6e6f70 && WordAt(FirstBlock, 13) == 0x6e6f7071
    ensures WordAt(FirstBlock, 14) == 0x80000000 && WordAt(FirstBlock, 15) == 0x00000000
  {
  }

  // The words of the first block.

  lemma FirstSchedule0(block: seq<bv8>)
    requires block == FirstBlock && |block| == 64
    ensures Words(block, 0, 0x61626364, 0x62636465, 0x63646566, 0x64656667, 0x65666768, 0x66676869, 0x6768696a, 0x68696a6b)
    ensures Words(block, 8, 0x696a6b6c, 0x6a6b6c6d, 0x6b6c6d6e, 0x6c6d6e6f, 0x6d6e6f70, 0x6e6f7071, 0x80000000, 0x00000000)
  {
    hide Schedule, WordAt, FirstBlock;
    FirstWords();
    ScheduleStep(block, 0);
    ScheduleStep(block, 1);
    ScheduleStep(block, 2);
    ScheduleStep(block, 3);
    ScheduleStep(block, 4);
    ScheduleStep(block, 5);
    ScheduleStep(block, 6);
    ScheduleStep(block, 7);
    ScheduleStep(block, 8);
    ScheduleStep(block, 9);
    ScheduleStep(block, 10);
    ScheduleStep(block, 11);
    ScheduleStep(block, 12);
    ScheduleStep(block, 13);
    ScheduleStep(block, 14);
    ScheduleStep(block, 15);
  }

  lemma FirstSchedule1(block: seq<bv8>)
    requires |block| == 64
    requires Words(block, 0, 0x61626364, 0x62636465, 0x63646566, 0x64656667, 0x65666768, 0x66676869, 0x6768696a, 0x68696a6b)
    requires Words(block, 8, 0x696a6b6c, 0x6a6b6c6d, 0x6b6c6d6e, 0x6c6d6e6f, 0x6d6e6f70, 0x6e6f7071, 0x80000000, 0x00000000)
    ensures Words(block, 16, 0xeb8012ad, 0xa7c3ae92, 0x76e93ba2, 0xba42e743, 0x92a92204, 0xd847e75e, 0x9e160036, 0xb280a7cb)
    ensures Words(block, 24, 0xddeb1516, 0xf36586f4, 0x969cd048, 0xe959d99d, 0x6accc0ec, 0xf54cb098, 0x2af1b2da, 0xee59c4c9)
  {
    hide Schedule, Sig0, Sig1;
    var w16 := OneWord(block, 16, 0x80000000, 0x6a6b6c6d, 0x62636465, 0x61626364);
    var w17 := OneWord(block, 17, 0x00000000, 0x6b6c6d6e, 0x63646566, 0x62636465);
    var w18 := OneWord(block, 18, 0xeb8012ad, 0x6c6d6e6f, 0x64656667, 0x63646566);
    var w19 := OneWord(block, 19, 0xa7c3ae92, 0x6d6e6f70, 0x65666768, 0x64656667);
    var w20 := OneWord(block, 20, 0x76e93ba2, 0x6e6f7071, 0x66676869, 0x65666768);
    var w21 := OneWord(block, 21, 0xba42e743, 0x80000000, 0x6768696a, 0x66676869);
    var w22 := OneWord(block, 22, 0x92a92204, 0x00000000, 0x68696a6b, 0x6768696a);
    var w23 := OneWord(block, 23, 0xd847e75e, 0xeb8012ad, 0x696a6b6c, 0x68696a6b);
    var w24 := OneWord(block, 24, 0x9e160036, 0xa7c3ae92, 0x6a6b6c6d, 0x696a6b6c);
    var w25 := OneWord(block, 25, 0xb280a7cb, 0x76e93ba2, 0x6b6c6d6e, 0x6a6b6c6d);
    var w26 := OneWord(block, 26, 0xddeb1516, 0xba42e743, 0x6c6d6e6f, 0x6b6c6d6e);
    var w27 := OneWord(block, 27, 0xf36586f4, 0x92a92204, 0x6d6e6f70, 0x6c6d6e6f);
    var w28 := OneWord(block, 28, 0x969cd048, 0xd847e75e, 0x6e6f7071, 0x6d6e6f70);
    var w29 := OneWord(block, 29, 0xe959d99d, 0x9e160036, 0x80000000, 0x6e6f7071);
    var w30 := OneWord(block, 30, 0x6accc0ec, 0xb280a7cb, 0x00000000, 0x80000000);
    var w31 := OneWord(block, 31, 0xf54cb098, 0xddeb1516, 0xeb8012ad, 0x00000000);
  }

  lemma FirstSchedule2(block: seq<bv8>)
    requires |block| == 64
    requires Words(block, 16, 0xeb8012ad, 0xa7c3ae92, 0x76e93ba2, 0xba42e743, 0x92a92204, 0xd847e75e, 0x9e160036, 0xb280a7cb)
    requires Words(block, 24, 0xddeb1516, 0xf36586f4, 0x969cd048, 0xe959d99d, 0x6accc0ec, 0xf54cb098, 0x2af1b2da, 0xee59c4c9)
    ensures Words(block, 32, 0xa835e16a, 0x1dff4429, 0xd6e15959, 0xc397cd6e, 0x6f1801ca, 0x21574205, 0x35ff7a84, 0x9743ee78)
    ensures Words(block, 40, 0xe44183e7, 0x0d09f00d, 0x9c89af54, 0x042d5bef, 0x71f134d0, 0x0f94f463, 0x7e49dc63, 0x6f65c997)
  {
    hide Schedule, Sig0, Sig1;
    var w32 := OneWord(block, 32, 0x2af1b2da, 0xf36586f4, 0xa7c3ae92, 0xeb8012ad);
    var w33 := OneWord(block, 33, 0xee59c4c9, 0x969cd048, 0x76e93ba2, 0xa7c3ae92);
    var w34 := OneWord(block, 34, 0xa835e16a, 0xe959d99d, 0xba42e743, 0x76e93ba2);
    var w35 := OneWord(block, 35, 0x1dff4429, 0x6accc0ec, 0x92a92204, 0xba42e743);
    var w36 := OneWord(block, 36, 0xd6e15959, 0xf54cb098, 0xd847e75e, 0x92a92204);
    var w37 := OneWord(block, 37, 0xc397cd6e, 0x2af1b2da, 0x9e160036, 0xd847e75e);
    var w38 := OneWord(block, 38, 0x6f1801ca, 0xee59c4c9, 0xb280a7cb, 0x9e160036);
    var w39 := OneWord(block, 39, 0x21574205, 0xa835e16a, 0xddeb1516, 0xb280a7cb);
    var w40 := OneWord(block, 40, 0x35ff7a84, 0x1dff4429, 0xf36586f4, 0xddeb1516);
    var w41 := OneWord(block, 41, 0x9743ee78, 0xd6e15959, 0x969cd048, 0xf36586f4);
    var w42 := OneWord(block, 42, 0xe44183e7, 0xc397cd6e, 0xe959d99d, 0x969cd048);
    var w43 := OneWord(block, 43, 0x0d09f00d, 0x6f1801ca, 0x6accc0ec, 0xe959d99d);
    var w44 := OneWord(block, 44, 0x9c89af54, 0x21574205, 0xf54cb098, 0x6accc0ec);
    var w45 := OneWord(block, 45, 0x042d5bef, 0x35ff7a84, 0x2af1b2da, 0xf54cb098);
    var w46 := OneWord(block, 46, 0x71f134d0, 0x9743ee78, 0xee59c4c9, 0x2af1b2da);
    var w47 := OneWord(block, 47, 0x0f94f463, 0xe44183e7, 0xa835e16a, 0xee59c4c9);
  }

  lemma FirstSchedule3(block: seq<bv8>)
    requires |block| == 64
    requires Words(block, 32, 0xa835e16a, 0x1dff4429, 0xd6e15959, 0xc397cd6e, 0x6f1801ca, 0x21574205, 0x35ff7a84, 0x9743ee78)
    requires Words(block, 40, 0xe44183e7, 0x0d09f00d, 0x9c89af54, 0x042d5bef, 0x71f134d0, 0x0f94f463, 0x7e49dc63, 0x6f65c997)
    ensures Words(block, 48, 0x0b706583, 0x179312ca, 0x503054e9, 0xba125c39, 0x7e9392c9, 0xd5cbaa1e, 0x78e0585d, 0xf6e7611c)
    ensures Words(block, 56, 0x8ac830ce, 0x8b47a303, 0xfd6e627f, 0x8c6e2c6a, 0x4001adf1, 0x1a3dd097, 0xa9df6f62, 0x6aa60a39)
  {
    hide Schedule, Sig0, Sig1;
    var w48 := OneWord(block, 48, 0x7e49dc63, 0x0d09f00d, 0x1dff4429, 0xa835e16a);
    var w49 := OneWord(block, 49, 0x6f65c997, 0x9c89af54, 0xd6e15959, 0x1dff4429);
    var w50 := OneWord(block, 50, 0x0b706583, 0x042d5bef, 0xc397cd6e, 0xd6e15959);
    var w51 := OneWord(block, 51, 0x179312ca, 0x71f134d0, 0x6f1801ca, 0xc397cd6e);
    var w52 := OneWord(block, 52, 0x503054e9, 0x0f94f463, 0x21574205, 0x6f1801ca);
    var w53 := OneWord(block, 53, 0xba125c39, 0x7e49dc63, 0x35ff7a84, 0x21574205);
    var w54 := OneWord(block, 54, 0x7e9392c9, 0x6f65c997, 0x9743ee78, 0x35ff7a84);
    var w55 := OneWord(block, 55, 0xd5cbaa1e, 0x0b706583, 0xe44183e7, 0x9743ee78);
    var w56 := OneWord(block, 56, 0x78e0585d, 0x179312ca, 0x0d09f00d, 0xe44183e7);
    var w57 := OneWord(block, 57, 0xf6e7611c, 0x503054e9, 0x9c89af54, 0x0d09f00d);
    var w58 := OneWord(block, 58, 0x8ac830ce, 0xba125c39, 0x042d5bef, 0x9c89af54);
    var w59 := OneWord(block, 59, 0x8b47a303, 0x7e9392c9, 0x71f134d0, 0x042d5bef);
    var w60 := OneWord(block, 60, 0xfd6e627f, 0xd5cbaa1e, 0x0f94f463, 0x71f134d0);
    var w61 := OneWord(block, 61, 0x8c6e2c6a, 0x78e0585d, 0x7e49dc63, 0x0f94f463);
    var w62 := OneWord(block, 62, 0x4001adf1, 0xf6e7611c, 0x6f65c997, 0x7e49dc63);
    var w63 := OneWord(block, 63, 0x1a3dd097, 0x8ac830ce, 0x0b706583, 0x6f65c997);
  }

  lemma FirstRounds0(block: seq<bv8>, v: Hash)
    requires |block| == 64
    requires Words(block, 0, 0x61626364, 0x62636465, 0x63646566, 0x64656667, 0x65666768, 0x66676869, 0x6768696a, 0x68696a6b)
    requires Words(block, 8, 0x696a6b6c, 0x6a6b6c6d, 0x6b6c6d6e, 0x6c6d6e6f, 0x6d6e6f70, 0x6e6f7071, 0x80000000, 0x00000000)
    requires Rounds(v, block, 0) == Hash(0x6a09e667, 0xbb67ae85, 0x3c6ef372, 0xa54ff53a, 0x510e527f, 0x9b05688c, 0x1f83d9ab, 0x5be0cd19)
    ensures Rounds(v, block, 16) == Hash(0xc3486194, 0xdd16cbb3, 0xd68e6457, 0x101a4861, 0x1496a54f, 0x9162aded, 0x9243f8af, 0x839a0fc9)
  {
    hide Rounds, Schedule, K;
    Constants0();
    Constants1();
    var x0, y0 := OneRound(block, v, 0, 0x6a09e667, 0xbb67ae85, 0x3c6ef372, 0xa54ff53a, 0x510e527f, 0x9b05688c, 0x1f83d9ab, 0x5be0cd19, 0x428a2f98, 0x61626364);
    var x1, y1 := OneRound(block, v, 1, x0, 0x6a09e667, 0xbb67ae85, 0x3c6ef372, y0, 0x510e527f, 0x9b05688c, 0x1f83d9ab, 0x71374491, 0x62636465);
    var x2, y2 := OneRound(block, v, 2, x1, x0, 0x6a09e667, 0xbb67ae85, y1, y0, 0x510e527f, 0x9b05688c, 0xb5c0fbcf, 0x63646566);
    var x3, y3 := OneRound(block, v, 3, x2, x1, x0, 0x6a09e667, y2, y1, y0, 0x510e527f, 0xe9b5dba5, 0x64656667);
    var x4, y4 := OneRound(block, v, 4, x3, x2, x1, x0, y3, y2, y1, y0, 0x3956c25b, 0x65666768);
    var x5, y5 := OneRound(block, v, 5, x4, x3, x2, x1, y4, y3, y2, y1, 0x59f111f1, 0x66676869);
    var x6, y6 := OneRound(block, v, 6, x5, x4, x3, x2, y5, y4, y3, y2, 0x923f82a4, 0x6768696a);
    var x7, y7 := OneRound(block, v, 7, x6, x5, x4, x3, y6, y5, y4, y3, 0xab1c5ed5, 0x68696a6b);
    var x8, y8 := OneRound(block, v, 8, x7, x6, x5, x4, y7, y6, y5, y4, 0xd807aa98, 0x696a6b6c);
    var x9, y9 := OneRound(block, v, 9, x8, x7, x6, x5, y8, y7, y6, y5, 0x12835b01, 0x6a6b6c6d);
    var x10, y10 := OneRound(block, v, 10, x9, x8, x7, x6, y9, y8, y7, y6, 0x243185be, 0x6b6c6d6e);
    var x11, y11 := OneRound(block, v, 11, x10, x9, x8, x7, y10, y9, y8, y7, 0x550c7dc3, 0x6c6d6e6f);
    var x12, y12 := OneRound(block, v, 12, x11, x10, x9, x8, y11, y10, y9, y8, 0x72be5d74, 0x6d6e6f70);
    var x13, y13 := OneRound(block, v, 13, x12, x11, x10, x9, y12, y11, y10, y9, 0x80deb1fe, 0x6e6f7071);
    var x14, y14 := OneRound(block, v, 14, x13, x12, x11, x10, y13, y12, y11, y10, 0x9bdc06a7, 0x80000000);
    var x15, y15 := OneRound(block, v, 15, x14, x13, x12, x11, y14, y13, y12, y11, 0xc19bf174, 0x00000000);
  }

  lemma FirstRounds1(block: seq<bv8>, v: Hash)
    requires |block| == 64
    requires Words(block, 16, 0xeb8012ad, 0xa7c3ae92, 0x76e93ba2, 0xba42e743, 0x92a92204, 0xd847e75e, 0x9e160036, 0xb280a7cb)
    requires Words(block, 24, 0xddeb1516, 0xf36586f4, 0x969cd048, 0xe959d99d, 0x6accc0ec, 0xf54cb098, 0x2af1b2da, 0xee59c4c9)
    requires Rounds(v, block, 16) == Hash(0xc3486194, 0xdd16cbb3, 0xd68e6457, 0x101a4861, 0x1496a54f, 0x9162aded, 0x9243f8af, 0x839a0fc9)
    ensures Rounds(v, block, 32) == Hash(0x5581ab07, 0xeb43f3ed, 0xdf7151a0, 0x74bcf468, 0xdf980085, 0x0635d880, 0x7629c961, 0x72abaecd)
  {
    hide Rounds, Schedule, K;
    Constants2();
    Constants3();
    var x16, y16 := OneRound(block, v, 16, 0xc3486194, 0xdd16cbb3, 0xd68e6457, 0x101a4861, 0x1496a54f, 0x9162aded, 0x9243f8af, 0x839a0fc9, 0xe49b69c1, 0xeb8012ad);
    var x17, y17 := OneRound(block, v, 17, x16, 0xc3486194, 0xdd16cbb3, 0xd68e6457, y16, 0x1496a54f, 0x9162aded, 0x9243f8af, 0xefbe4786, 0xa7c3ae92);
    var x18, y18 := OneRound(block, v, 18, x17, x16, 0xc3486194, 0xdd16cbb3, y17, y16, 0x1496a54f, 0x9162aded, 0x0fc19dc6, 0x76e93ba2);
    var x19, y19 := OneRound(block, v, 19, x18, x17, x16, 0xc3486194, y18, y17, y16, 0x1496a54f, 0x240ca1cc, 0xba42e743);
    var x20, y20 := OneRound(block, v, 20, x19, x18, x17, x16, y19, y18, y17, y16, 0x2de92c6f, 0x92a92204);
    var x21, y21 := OneRound(block, v, 21, x20, x19, x18, x17, y20, y19, y18, y17, 0x4a7484aa, 0xd847e75e);
    var x22, y22 := OneRound(block, v, 22, x21, x20, x19, x18, y21, y20, y19, y18, 0x5cb0a9dc, 0x9e160036);
    var x23, y23 := OneRound(block, v, 23, x22, x21, x20, x19, y22, y21, y20, y19, 0x76f988da, 0xb280a7cb);
    var x24, y24 := OneRound(block, v, 24, x23, x22, x21, x20, y23, y22, y21, y20, 0x983e5152, 0xddeb1516);
    var x25, y25 := OneRound(block, v, 25, x24, x23, x22, x21, y24, y23, y22, y21, 0xa831c66d, 0xf36586f4);
    var x26, y26 := OneRound(block, v, 26, x25, x24, x23, x22, y25, y24, y23, y22, 0xb00327c8, 0x969cd048);
    var x27, y27 := OneRound(block, v, 27, x26, x25, x24, x23, y26, y25, y24, y23, 0xbf597fc7, 0xe959d99d);
    var x28, y28 := OneRound(block, v, 28, x27, x26, x25, x24, y27, y26, y25, y24, 0xc6e00bf3, 0x6accc0ec);
    var x29, y29 := OneRound(block, v, 29, x28, x27, x26, x25, y28, y27, y26, y25, 0xd5a79147, 0xf54cb098);
    var x30, y30 := OneRound(block, v, 30, x29, x28, x27, x26, y29, y28, y27, y26, 0x06ca6351, 0x2af1b2da);
    var x31, y31 := OneRound(block, v, 31, x30, x29, x28, x27, y30, y29, y28, y27, 0x14292967, 0xee59c4c9);
  }

  lemma FirstRounds2(block: seq<bv8>, v: Hash)
    requires |block| == 64
    requires Words(block, 32, 0xa835e16a, 0x1dff4429, 0xd6e15959, 0xc397cd6e, 0x6f1801ca, 0x21574205, 0x35ff7a84, 0x9743ee78)
    requires Words(block, 40, 0xe44183e7, 0x0d09f00d, 0x9c89af54, 0x042d5bef, 0x71f134d0, 0x0f94f463, 0x7e49dc63, 0x6f65c997)
    requires Rounds(v, block, 32) == Hash(0x5581ab07, 0xeb43f3ed, 0xdf7151a0, 0x74bcf468, 0xdf980085, 0x0635d880, 0x7629c961, 0x72abaecd)
    ensures Rounds(v, block, 48) == Hash(0x13d82741, 0x165be9cd, 0x18f0d19d, 0xde71e2f2, 0xa7802a4d, 0xa483f080, 0x6b88472c, 0xff61c636)
  {
    hide Rounds, Schedule, K;
    Constants4();
    Constants5();
    var x32, y32 := OneRound(block, v, 32, 0x5581ab07, 0xeb43f3ed, 0xdf7151a0, 0x74bcf468, 0xdf980085, 0x0635d880, 0x7629c961, 0x72abaecd, 0x27b70a85, 0xa835e16a);
    var x33, y33 := OneRound(block, v, 33, x32, 0x5581ab07, 0xeb43f3ed, 0xdf7151a0, y32, 0xdf980085, 0x0635d880, 0x7629c961, 0x2e1b2138, 0x1dff4429);
    var x34, y34 := OneRound(block, v, 34, x33, x32, 0x5581ab07, 0xeb43f3ed, y33, y32, 0xdf980085, 0x0635d880, 0x4d2c6dfc, 0xd6e15959);
    var x35, y35 := OneRound(block, v, 35, x34, x33, x32, 0x5581ab07, y34, y33, y32, 0xdf980085, 0x53380d13, 0xc397cd6e);
    var x36, y36 := OneRound(block, v, 36, x35, x34, x33, x32, y35, y34, y33, y32, 0x650a7354, 0x6f1801ca);
    var x37, y37 := OneRound(block, v, 37, x36, x35, x34, x33, y36, y35, y34, y33, 0x766a0abb, 0x21574205);
    var x38, y38 := OneRound(block, v, 38, x37, x36, x35, x34, y37, y36, y35, y34, 0x81c2c92e, 0x35ff7a84);
    var x39, y39 := OneRound(block, v, 39, x38, x37, x36, x35, y38, y37, y36, y35, 0x92722c85, 0x9743ee78);
    var x40, y40 := OneRound(block, v, 40, x39, x38, x37, x36, y39, y38, y37, y36, 0xa2bfe8a1, 0xe44183e7);
    var x41, y41 := OneRound(block, v, 41, x40, x39, x38, x37, y40, y39, y38, y37, 0xa81a664b, 0x0d09f00d);
    var x42, y42 := OneRound(block, v, 42, x41, x40, x39, x38, y41, y40, y39, y38, 0xc24b8b70, 0x9c89af54);
    var x43, y43 := OneRound(block, v, 43, x42, x41, x40, x39, y42, y41, y40, y39, 0xc76c51a3, 0x042d5bef);
    var x44, y44 := OneRound(block, v, 44, x43, x42, x41, x40, y43, y42, y41, y40, 0xd192e819, 0x71f134d0);
    var x45, y45 := OneRound(block, v, 45, x44, x43, x42, x41, y44, y43, y42, y41, 0xd6990624, 0x0f94f463);
    var x46, y46 := OneRound(block, v, 46, x45, x44, x43, x42, y45, y44, y43, y42, 0xf40e3585, 0x7e49dc63);
    var x47, y47 := OneRound(block, v, 47, x46, x45, x44, x43, y46, y45, y44, y43, 0x106aa070, 0x6f65c997);
  }

  lemma FirstRounds3(block: seq<bv8>, v: Hash)
    requires |block| == 64
    requires Words(block, 48, 0x0b706583, 0x179312ca, 0x503054e9, 0xba125c39, 0x7e9392c9, 0xd5cbaa1e, 0x78e0585d, 0xf6e7611c)
    requires Words(block, 56, 0x8ac830ce, 0x8b47a303, 0xfd6e627f, 0x8c6e2c6a, 0x4001adf1, 0x1a3dd097, 0xa9df6f62, 0x6aa60a39)
    requires Rounds(v, block, 48) == Hash(0x13d82741, 0x165be9cd, 0x18f0d19d, 0xde71e2f2, 0xa7802a4d, 0xa483f080, 0x6b88472c, 0xff61c636)
    ensures Rounds(v, block, 64) == Hash(0x1bdc6f6f, 0x86126910, 0xf6f443f8, 0xbcfce922, 0x25d2430a, 0x2fc08f85, 0xacc75916, 0x962d8621)
  {
    hide Rounds, Schedule, K;
    Constants6();
    Constants7();
    var x48, y48 := OneRound(block, v, 48, 0x13d82741, 0x165be9cd, 0x18f0d19d, 0xde71e2f2, 0xa7802a4d, 0xa483f080, 0x6b88472c, 0xff61c636, 0x19a4c116, 0x0b706583);
    var x49, y49 := OneRound(block, v, 49, x48, 0x13d82741, 0x165be9cd, 0x18f0d19d, y48, 0xa7802a4d, 0xa483f080, 0x6b88472c, 0x1e376c08, 0x179312ca);
    var x50, y50 := OneRound(block, v, 50, x49, x48, 0x13d82741, 0x165be9cd, y49, y48, 0xa7802a4d, 0xa483f080, 0x2748774c, 0x503054e9);
    var x51, y51 := OneRound(block, v, 51, x50, x49, x48, 0x13d82741, y50, y49, y48, 0xa7802a4d, 0x34b0bcb5, 0xba125c39);
    var x52, y52 := OneRound(block, v, 52, x51, x50, x49, x48, y51, y50, y49, y48, 0x391c0cb3, 0x7e9392c9);
    var x53, y53 := OneRound(block, v, 53, x52, x51, x50, x49, y52, y51, y50, y49, 0x4ed8aa4a, 0xd5cbaa1e);
    var x54, y54 := OneRound(block, v, 54, x53, x52, x51, x50, y53, y52, y51, y50, 0x5b9cca4f, 0x78e0585d);
    var x55, y55 := OneRound(block, v, 55, x54, x53, x52, x51, y54, y53, y52, y51, 0x682e6ff3, 0xf6e7611c);
    var x56, y56 := OneRound(block, v, 56, x55, x54, x53, x52, y55, y54, y53, y52, 0x748f82ee, 0x8ac830ce);
    var x57, y57 := OneRound(block, v, 57, x56, x55, x54, x53, y56, y55, y54, y53, 0x78a5636f, 0x8b47a303);
    var x58, y58 := OneRound(block, v, 58, x57, x56, x55, x54, y57, y56, y55, y54, 0x84c87814, 0xfd6e627f);
    var x59, y59 := OneRound(block, v, 59, x58, x57, x56, x55, y58, y57, y56, y55, 0x8cc70208, 0x8c6e2c6a);
    var x60, y60 := OneRound(block, v, 60, x59, x58, x57, x56, y59, y58, y57, y56, 0x90befffa, 0x4001adf1);
    var x61, y61 := OneRound(block, v, 61, x60, x59, x58, x57, y60, y59, y58, y57, 0xa4506ceb, 0x1a3dd097);
    var x62, y62 := OneRound(block, v, 62, x61, x60, x59, x58, y61, y60, y59, y58, 0xbef9a3f7, 0xa9df6f62);
    var x63, y63 := OneRound(block, v, 63, x62, x61, x60, x59, y62, y61, y60, y59, 0xc67178f2, 0x6aa60a39);
  }

  lemma FirstHash()
    ensures |FirstBlock| == 64 && HashBlock(Initial, FirstBlock) == Hash(0x85e655d6, 0x417a1795, 0x3363376a, 0x624cde5c, 0x76e09589, 0xcac5f811, 0xcc4b32c1, 0xf20e533a)
  {
    hide Rounds, Schedule, Words, FirstBlock;
    FirstWords();
    NoRounds(Initial, FirstBlock);
    FirstSchedule0(FirstBlock);
    FirstRounds0(FirstBlock, Initial);
    FirstSchedule1(FirstBlock);
    FirstRounds1(FirstBlock, Initial);
    FirstSchedule2(FirstBlock);
    FirstRounds2(FirstBlock, Initial);
    FirstSchedule3(FirstBlock);
    FirstRounds3(FirstBlock, Initial);
  }


  lemma SecondWords()
    ensures |SecondBlock| == 64
    ensures WordAt(SecondBlock, 0) == 0x00000000 && WordAt(SecondBlock, 1) == 0x00000000
    ensures WordAt(SecondBlock, 2) == 0x00000000 && WordAt(SecondBlock, 3) == 0x00000000
    ensures WordAt(SecondBlock, 4) == 0x00000000 && WordAt(SecondBlock, 5) == 0x00000000
    ensures WordAt(SecondBlock, 6) == 0x00000000 && WordAt(SecondBlock, 7) == 0x00000000
    ensures WordAt(SecondBlock, 8) == 0x00000000 && WordAt(SecondBlock, 9) == 0x00000000
    ensures WordAt(SecondBlock, 10) == 0x00000000 && WordAt(SecondBlock, 11) == 0x00000000
    ensures WordAt(SecondBlock, 12) == 0x00000000 && WordAt(SecondBlock, 13) == 0x00000000
    ensures WordAt(SecondBlock, 14) == 0x00000000 && WordAt(SecondBlock, 15) == 0x000001c0
  {
  }

  // The words of the second block.

  lemma SecondSchedule0(block: seq<bv8>)
    requires block == SecondBlock && |block| == 64
    ensures Words(block, 0, 0x00000000, 0x00000000, 0x00000000, 0x00000000, 0x00000000, 0x00000000, 0x00000000, 0x00000000)
    ensures Words(block, 8, 0x00000000, 0x00000000, 0x00000000, 0x00000000, 0x00000000, 0x00000000, 0x00000000, 0x000001c0)
  {
    hide Schedule, WordAt, SecondBlock;
    SecondWords();
    ScheduleStep(block, 0);
    ScheduleStep(block, 1);
    ScheduleStep(block, 2);
    ScheduleStep(block, 3);
    ScheduleStep(block, 4);
    ScheduleStep(block, 5);
    ScheduleStep(block, 6);
    ScheduleStep(block, 7);
    ScheduleStep(block, 8);
    ScheduleStep(block, 9);
    ScheduleStep(block, 10);
    ScheduleStep(block, 11);
    ScheduleStep(block, 12);
    ScheduleStep(block, 13);
    ScheduleStep(block, 14);
    ScheduleStep(block, 15);
  }

  lemma SecondSchedule1(block: seq<bv8>)
    requires |block| == 64
    requires Words(block, 0, 0x00000000, 0x00000000, 0x00000000, 0x00000000, 0x00000000, 0x00000000, 0x00000000, 0x00000000)
    requires Words(block, 8, 0x00000000, 0x00000000, 0x00000000, 0x00000000, 0x00000000, 0x00000000, 0x00000000, 0x000001c0)
    ensures Words(block, 16, 0x00000000, 0x00d80000, 0x00000000, 0x00003677, 0x00000000, 0x1df5600d, 0x000001c0, 0x1c00501c)
    ensures Words(block, 24, 0x01b00000, 0x220a8d94, 0x0000a365, 0x177017e7, 0x63d38035, 0x090ab713, 0x4c7539ca, 0x0f19a8c9)
  {
    hide Schedule, Sig0, Sig1;
    var w16 := OneWord(block, 16, 0x00000000, 0x00000000, 0x00000000, 0x00000000);
    var w17 := OneWord(block, 17, 0x000001c0, 0x00000000, 0x00000000, 0x00000000);
    var w18 := OneWord(block, 18, 0x00000000, 0x00000000, 0x00000000, 0x00000000);
    var w19 := OneWord(block, 19, 0x00d80000, 0x00000000, 0x00000000, 0x00000000);
    var w20 := OneWord(block, 20, 0x00000000, 0x00000000, 0x00000000, 0x00000000);
    var w21 := OneWord(block, 21, 0x00003677, 0x00000000, 0x00000000, 0x00000000);
    var w22 := OneWord(block, 22, 0x00000000, 0x000001c0, 0x00000000, 0x00000000);
    var w23 := OneWord(block, 23, 0x1df5600d, 0x00000000, 0x00000000, 0x00000000);
    var w24 := OneWord(block, 24, 0x000001c0, 0x00d80000, 0x00000000, 0x00000000);
    var w25 := OneWord(block, 25, 0x1c00501c, 0x00000000, 0x00000000, 0x00000000);
    var w26 := OneWord(block, 26, 0x01b00000, 0x00003677, 0x00000000, 0x00000000);
    var w27 := OneWord(block, 27, 0x220a8d94, 0x00000000, 0x00000000, 0x00000000);
    var w28 := OneWord(block, 28, 0x0000a365, 0x1df5600d, 0x00000000, 0x00000000);
    var w29 := OneWord(block, 29, 0x177017e7, 0x000001c0, 0x00000000, 0x00000000);
    var w30 := OneWord(block, 30, 0x63d38035, 0x1c00501c, 0x000001c0, 0x00000000);
    var w31 := OneWord(block, 31, 0x090ab713, 0x01b00000, 0x00000000, 0x000001c0);
  }

  lemma SecondSchedule2(block: seq<bv8>)
    requires |block| == 64
    requires Words(block, 16, 0x00000000, 0x00d80000, 0x00000000, 0x00003677, 0x00000000, 0x1df5600d, 0x000001c0, 0x1c00501c)
    requires Words(block, 24, 0x01b00000, 0x220a8d94, 0x0000a365, 0x177017e7, 0x63d38035, 0x090ab713, 0x4c7539ca, 0x0f19a8c9)
    ensures Words(block, 32, 0x5df4b0c4, 0xe257036a, 0xc97bb6f1, 0xc5b46f4d, 0xf8253c4e, 0xa558d189, 0x78696285, 0xed07117f)
    ensures Words(block, 40, 0x107358f6, 0x390ae496, 0x565010a2, 0xc51d7d44, 0x9e74c972, 0x6614b561, 0x30fc129d, 0x9ac684a8)
  {
    hide Schedule, Sig0, Sig1;
    var w32 := OneWord(block, 32, 0x4c7539ca, 0x220a8d94, 0x00d80000, 0x00000000);
    var w33 := OneWord(block, 33, 0x0f19a8c9, 0x0000a365, 0x00000000, 0x00d80000);
    var w34 := OneWord(block, 34, 0x5df4b0c4, 0x177017e7, 0x00003677, 0x00000000);
    var w35 := OneWord(block, 35, 0xe257036a, 0x63d38035, 0x00000000, 0x00003677);
    var w36 := OneWord(block, 36, 0xc97bb6f1, 0x090ab713, 0x1df5600d, 0x00000000);
    var w37 := OneWord(block, 37, 0xc5b46f4d, 0x4c7539ca, 0x000001c0, 0x1df5600d);
    var w38 := OneWord(block, 38, 0xf8253c4e, 0x0f19a8c9, 0x1c00501c, 0x000001c0);
    var w39 := OneWord(block, 39, 0xa558d189, 0x5df4b0c4, 0x01b00000, 0x1c00501c);
    var w40 := OneWord(block, 40, 0x78696285, 0xe257036a, 0x220a8d94, 0x01b00000);
    var w41 := OneWord(block, 41, 0xed07117f, 0xc97bb6f1, 0x0000a365, 0x220a8d94);
    var w42 := OneWord(block, 42, 0x107358f6, 0xc5b46f4d, 0x177017e7, 0x0000a365);
    var w43 := OneWord(block, 43, 0x390ae496, 0xf8253c4e, 0x63d38035, 0x177017e7);
    var w44 := OneWord(block, 44, 0x565010a2, 0xa558d189, 0x090ab713, 0x63d38035);
    var w45 := OneWord(block, 45, 0xc51d7d44, 0x78696285, 0x4c7539ca, 0x090ab713);
    var w46 := OneWord(block, 46, 0x9e74c972, 0xed07117f, 0x0f19a8c9, 0x4c7539ca);
    var w47 := OneWord(block, 47, 0x6614b561, 0x107358f6, 0x5df4b0c4, 0x0f19a8c9);
  }

  lemma SecondSchedule3(block: seq<bv8>)
    requires |block| == 64
    requires Words(block, 32, 0x5df4b0c4, 0xe257036a, 0xc97bb6f1, 0xc5b46f4d, 0xf8253c4e, 0xa558d189, 0x78696285, 0xed07117f)
    requires Words(block, 40, 0x107358f6, 0x390ae496, 0x565010a2, 0xc51d7d44, 0x9e74c972, 0x6614b561, 0x30fc129d, 0x9ac684a8)
    ensures Words(block, 48, 0x2b658dbd, 0xe290f793, 0x9eebb24c, 0x9713b5de, 0x41061ab7, 0xe022e23b, 0x0772079e, 0x7de22d9c)
    ensures Words(block, 56, 0xc8b83778, 0x75a79849, 0xd93dbddb, 0x0a036c9d, 0xcb4f6ac6, 0x823f97e2, 0xea2f2a7a, 0xb9018b52)
  {
    hide Schedule, Sig0, Sig1;
    var w48 := OneWord(block, 48, 0x30fc129d, 0x390ae496, 0xe257036a, 0x5df4b0c4);
    var w49 := OneWord(block, 49, 0x9ac684a8, 0x565010a2, 0xc97bb6f1, 0xe257036a);
    var w50 := OneWord(block, 50, 0x2b658dbd, 0xc51d7d44, 0xc5b46f4d, 0xc97bb6f1);
    var w51 := OneWord(block, 51, 0xe290f793, 0x9e74c972, 0xf8253c4e, 0xc5b46f4d);
    var w52 := OneWord(block, 52, 0x9eebb24c, 0x6614b561, 0xa558d189, 0xf8253c4e);
    var w53 := OneWord(block, 53, 0x9713b5de, 0x30fc129d, 0x78696285, 0xa558d189);
    var w54 := OneWord(block, 54, 0x41061ab7, 0x9ac684a8, 0xed07117f, 0x78696285);
    var w55 := OneWord(block, 55, 0xe022e23b, 0x2b658dbd, 0x107358f6, 0xed07117f);
    var w56 := OneWord(block, 56, 0x0772079e, 0xe290f793, 0x390ae496, 0x107358f6);
    var w57 := OneWord(block, 57, 0x7de22d9c, 0x9eebb24c, 0x565010a2, 0x390ae496);
    var w58 := OneWord(block, 58, 0xc8b83778, 0x9713b5de, 0xc51d7d44, 0x565010a2);
    var w59 := OneWord(block, 59, 0x75a79849, 0x41061ab7, 0x9e74c972, 0xc51d7d44);
    var w60 := OneWord(block, 60, 0xd93dbddb, 0xe022e23b, 0x6614b561, 0x9e74c972);
    var w61 := OneWord(block, 61, 0x0a036c9d, 0x0772079e, 0x30fc129d, 0x6614b561);
    var w62 := OneWord(block, 62, 0xcb4f6ac6, 0x7de22d9c, 0x9ac684a8, 0x30fc129d);
    var w63 := OneWord(block, 63, 0x823f97e2, 0xc8b83778, 0x2b658dbd, 0x9ac684a8);
  }

  lemma SecondRounds0(block: seq<bv8>, v: Hash)
    requires |block| == 64
    requires Words(block, 0, 0x00000000, 0x00000000, 0x00000000, 0x00000000, 0x00000000, 0x00000000, 0x00000000, 0x00000000)
    requires Words(block, 8, 0x00000000, 0x00000000, 0x00000000, 0x00000000, 0x00000000, 0x00000000, 0x00000000, 0x000001c0)
    requires Rounds(v, block, 0) == Hash(0x85e655d6, 0x417a1795, 0x3363376a, 0x624cde5c, 0x76e09589, 0xcac5f811, 0xcc4b32c1, 0xf20e533a)
    ensures Rounds(v, block, 16) == Hash(0x16a8cc79, 0x0cea5cbc, 0xd74080fa, 0x35ee996d, 0x0fcb1f6f, 0x60356548, 0x68aa893f, 0x5c24e2a2)
  {
    hide Rounds, Schedule, K;
    Constants0();
    Constants1();
    var x0, y0 := OneRound(block, v, 0, 0x85e655d6, 0x417a1795, 0x3363376a, 0x624cde5c, 0x76e09589, 0xcac5f811, 0xcc4b32c1, 0xf20e533a, 0x428a2f98, 0x00000000);
    var x1, y1 := OneRound(block, v, 1, x0, 0x85e655d6, 0x417a1795, 0x3363376a, y0, 0x76e09589, 0xcac5f811, 0xcc4b32c1, 0x71374491, 0x00000000);
    var x2, y2 := OneRound(block, v, 2, x1, x0, 0x85e655d6, 0x417a1795, y1, y0, 0x76e09589, 0xcac5f811, 0xb5c0fbcf, 0x00000000);
    var x3, y3 := OneRound(block, v, 3, x2, x1, x0, 0x85e655d6, y2, y1, y0, 0x76e09589, 0xe9b5dba5, 0x00000000);
    var x4, y4 := OneRound(block, v, 4, x3, x2, x1, x0, y3, y2, y1, y0, 0x3956c25b, 0x00000000);
    var x5, y5 := OneRound(block, v, 5, x4, x3, x2, x1, y4, y3, y2, y1, 0x59f111f1, 0x00000000);
    var x6, y6 := OneRound(block, v, 6, x5, x4, x3, x2, y5, y4, y3, y2, 0x923f82a4, 0x00000000);
    var x7, y7 := OneRound(block, v, 7, x6, x5, x4, x3, y6, y5, y4, y3, 0xab1c5ed5, 0x00000000);
    var x8, y8 := OneRound(block, v, 8, x7, x6, x5, x4, y7, y6, y5, y4, 0xd807aa98, 0x00000000);
    var x9, y9 := OneRound(block, v, 9, x8, x7, x6, x5, y8, y7, y6, y5, 0x12835b01, 0x00000000);
    var x10, y10 := OneRound(block, v, 10, x9, x8, x7, x6, y9, y8, y7, y6, 0x243185be, 0x00000000);
    var x11, y11 := OneRound(block, v, 11, x10, x9, x8, x7, y10, y9, y8, y7, 0x550c7dc3, 0x00000000);
    var x12, y12 := OneRound(block, v, 12, x11, x10, x9, x8, y11, y10, y9, y8, 0x72be5d74, 0x00000000);
    var x13, y13 := OneRound(block, v, 13, x12, x11, x10, x9, y12, y11, y10, y9, 0x80deb1fe, 0x00000000);
    var x14, y14 := OneRound(block, v, 14, x13, x12, x11, x10, y13, y12, y11, y10, 0x9bdc06a7, 0x00000000);
    var x15, y15 := OneRound(block, v, 15, x14, x13, x12, x11, y14, y13, y12, y11, 0xc19bf174, 0x000001c0);
  }

  lemma SecondRounds1(block: seq<bv8>, v: Hash)
    requires |block| == 64
    requires Words(block, 16, 0x00000000, 0x00d80000, 0x00000000, 0x00003677, 0x00000000, 0x1df5600d, 0x000001c0, 0x1c00501c)
    requires Words(block, 24, 0x01b00000, 0x220a8d94, 0x0000a365, 0x177017e7, 0x63d38035, 0x090ab713, 0x4c7539ca, 0x0f19a8c9)
    requires Rounds(v, block, 16) == Hash(0x16a8cc79, 0x0cea5cbc, 0xd74080fa, 0x35ee996d, 0x0fcb1f6f, 0x60356548, 0x68aa893f, 0x5c24e2a2)
    ensures Rounds(v, block, 32) == Hash(0xb0eab1c5, 0x02ef3a5f, 0x1cfa5eb0, 0xd958b529, 0xf6d93952, 0x5da10665, 0x6c49db9f, 0xc2fa99b1)
  {
    hide Rounds, Schedule, K;
    Constants2();
    Constants3();
    var x16, y16 := OneRound(block, v, 16, 0x16a8cc79, 0x0cea5cbc, 0xd74080fa, 0x35ee996d, 0x0fcb1f6f, 0x60356548, 0x68aa893f, 0x5c24e2a2, 0xe49b69c1, 0x00000000);
    var x17, y17 := OneRound(block, v, 17, x16, 0x16a8cc79, 0x0cea5cbc, 0xd74080fa, y16, 0x0fcb1f6f, 0x60356548, 0x68aa893f, 0xefbe4786, 0x00d80000);
    var x18, y18 := OneRound(block, v, 18, x17, x16, 0x16a8cc79, 0x0cea5cbc, y17, y16, 0x0fcb1f6f, 0x60356548, 0x0fc19dc6, 0x00000000);
    var x19, y19 := OneRound(block, v, 19, x18, x17, x16, 0x16a8cc79, y18, y17, y16, 0x0fcb1f6f, 0x240ca1cc, 0x00003677);
    var x20, y20 := OneRound(block, v, 20, x19, x18, x17, x16, y19, y18, y17, y16, 0x2de92c6f, 0x00000000);
    var x21, y21 := OneRound(block, v, 21, x20, x19, x18, x17, y20, y19, y18, y17, 0x4a7484aa, 0x1df5600d);
    var x22, y22 := OneRound(block, v, 22, x21, x20, x19, x18, y21, y20, y19, y18, 0x5cb0a9dc, 0x000001c0);
    var x23, y23 := OneRound(block, v, 23, x22, x21, x20, x19, y22, y21, y20, y19, 0x76f988da, 0x1c00501c);
    var x24, y24 := OneRound(block, v, 24, x23, x22, x21, x20, y23, y22, y21, y20, 0x983e5152, 0x01b00000);
    var x25, y25 := OneRound(block, v, 25, x24, x23, x22, x21, y24, y23, y22, y21, 0xa831c66d, 0x220a8d94);
    var x26, y26 := OneRound(block, v, 26, x25, x24, x23, x22, y25, y24, y23, y22, 0xb00327c8, 0x0000a365);
    var x27, y27 := OneRound(block, v, 27, x26, x25, x24, x23, y26, y25, y24, y23, 0xbf597fc7, 0x177017e7);
    var x28, y28 := OneRound(block, v, 28, x27, x26, x25, x24, y27, y26, y25, y24, 0xc6e00bf3, 0x63d38035);
    var x29, y29 := OneRound(block, v, 29, x28, x27, x26, x25, y28, y27, y26, y25, 0xd5a79147, 0x090ab713);
    var x30, y30 := OneRound(block, v, 30, x29, x28, x27, x26, y29, y28, y27, y26, 0x06ca6351, 0x4c7539ca);
    var x31, y31 := OneRound(block, v, 31, x30, x29, x28, x27, y30, y29, y28, y27, 0x14292967, 0x0f19a8c9);
  }

  lemma SecondRounds2(block: seq<bv8>, v: Hash)
    requires |block| == 64
    requires Words(block, 32, 0x5df4b0c4, 0xe257036a, 0xc97bb6f1, 0xc5b46f4d, 0xf8253c4e, 0xa558d189, 0x78696285, 0xed07117f)
    requires Words(block, 40, 0x107358f6, 0x390ae496, 0x565010a2, 0xc51d7d44, 0x9e74c972, 0x6614b561, 0x30fc129d, 0x9ac684a8)
    requires Rounds(v, block, 32) == Hash(0xb0eab1c5, 0x02ef3a5f, 0x1cfa5eb0, 0xd958b529, 0xf6d93952, 0x5da10665, 0x6c49db9f, 0xc2fa99b1)
    ensures Rounds(v, block, 48) == Hash(0xd7354d5b, 0x0b3303a7, 0x104a7db4, 0x0f154e11, 0xaad55b6b, 0xbbe1c39a, 0x5348e8f6, 0x6f9517cb)
  {
    hide Rounds, Schedule, K;
    Constants4();
    Constants5();
    var x32, y32 := OneRound(block, v, 32, 0xb0eab1c5, 0x02ef3a5f, 0x1cfa5eb0, 0xd958b529, 0xf6d93952, 0x5da10665, 0x6c49db9f, 0xc2fa99b1, 0x27b70a85, 0x5df4b0c4);
    var x33, y33 := OneRound(block, v, 33, x32, 0xb0eab1c5, 0x02ef3a5f, 0x1cfa5eb0, y32, 0xf6d93952, 0x5da10665, 0x6c49db9f, 0x2e1b2138, 0xe257036a);
    var x34, y34 := OneRound(block, v, 34, x33, x32, 0xb0eab1c5, 0x02ef3a5f, y33, y32, 0xf6d93952, 0x5da10665, 0x4d2c6dfc, 0xc97bb6f1);
    var x35, y35 := OneRound(block, v, 35, x34, x33, x32, 0xb0eab1c5, y34, y33, y32, 0xf6d93952, 0x53380d13, 0xc5b46f4d);
    var x36, y36 := OneRound(block, v, 36, x35, x34, x33, x32, y35, y34, y33, y32, 0x650a7354, 0xf8253c4e);
    var x37, y37 := OneRound(block, v, 37, x36, x35, x34, x33, y36, y35, y34, y33, 0x766a0abb, 0xa558d189);
    var x38, y38 := OneRound(block, v, 38, x37, x36, x35, x34, y37, y36, y35, y34, 0x81c2c92e, 0x78696285);
    var x39, y39 := OneRound(block, v, 39, x38, x37, x36, x35, y38, y37, y36, y35, 0x92722c85, 0xed07117f);
    var x40, y40 := OneRound(block, v, 40, x39, x38, x37, x36, y39, y38, y37, y36, 0xa2bfe8a1, 0x107358f6);
    var x41, y41 := OneRound(block, v, 41, x40, x39, x38, x37, y40, y39, y38, y37, 0xa81a664b, 0x390ae496);
    var x42, y42 := OneRound(block, v, 42, x41, x40, x39, x38, y41, y40, y39, y38, 0xc24b8b70, 0x565010a2);
    var x43, y43 := OneRound(block, v, 43, x42, x41, x40, x39, y42, y41, y40, y39, 0xc76c51a3, 0xc51d7d44);
    var x44, y44 := OneRound(block, v, 44, x43, x42, x41, x40, y43, y42, y41, y40, 0xd192e819, 0x9e74c972);
    var x45, y45 := OneRound(block, v, 45, x44, x43, x42, x41, y44, y43, y42, y41, 0xd6990624, 0x6614b561);
    var x46, y46 := OneRound(block, v, 46, x45, x44, x43, x42, y45, y44, y43, y42, 0xf40e3585, 0x30fc129d);
    var x47, y47 := OneRound(block, v, 47, x46, x45, x44, x43, y46, y45, y44, y43, 0x106aa070, 0x9ac684a8);
  }

  lemma SecondRounds3(block: seq<bv8>, v: Hash)
    requires |block| == 64
    requires Words(block, 48, 0x2b658dbd, 0xe290f793, 0x9eebb24c, 0x9713b5de, 0x41061ab7, 0xe022e23b, 0x0772079e, 0x7de22d9c)
    requires Words(block, 56, 0xc8b83778, 0x75a79849, 0xd93dbddb, 0x0a036c9d, 0xcb4f6ac6, 0x823f97e2, 0xea2f2a7a, 0xb9018b52)
    requires Rounds(v, block, 48) == Hash(0xd7354d5b, 0x0b3303a7, 0x104a7db4, 0x0f154e11, 0xaad55b6b, 0xbbe1c39a, 0x5348e8f6, 0x6f9517cb)
    ensures Rounds(v, block, 64) == Hash(0x9ea7148b, 0x908c2123, 0xb25cef29, 0xa9f181dd, 0x2c5c4ed0, 0x9a392956, 0x2aa1bb13, 0x27ccb387)
  {
    hide Rounds, Schedule, K;
    Constants6();
    Constants7();
    var x48, y48 := OneRound(block, v, 48, 0xd7354d5b, 0x0b3303a7, 0x104a7db4, 0x0f154e11, 0xaad55b6b, 0xbbe1c39a, 0x5348e8f6, 0x6f9517cb, 0x19a4c116, 0x2b658dbd);
    var x49, y49 := OneRound(block, v, 49, x48, 0xd7354d5b, 0x0b3303a7, 0x104a7db4, y48, 0xaad55b6b, 0xbbe1c39a, 0x5348e8f6, 0x1e376c08, 0xe290f793);
    var x50, y50 := OneRound(block, v, 50, x49, x48, 0xd7354d5b, 0x0b3303a7, y49, y48, 0xaad55b6b, 0xbbe1c39a, 0x2748774c, 0x9eebb24c);
    var x51, y51 := OneRound(block, v, 51, x50, x49, x48, 0xd7354d5b, y50, y49, y48, 0xaad55b6b, 0x34b0bcb5, 0x9713b5de);
    var x52, y52 := OneRound(block, v, 52, x51, x50, x49, x48, y51, y50, y49, y48, 0x391c0cb3, 0x41061ab7);
    var x53, y53 := OneRound(block, v, 53, x52, x51, x50, x49, y52, y51, y50, y49, 0x4ed8aa4a, 0xe022e23b);
    var x54, y54 := OneRound(block, v, 54, x53, x52, x51, x50, y53, y52, y51, y50, 0x5b9cca4f, 0x0772079e);
    var x55, y55 := OneRound(block, v, 55, x54, x53, x52, x51, y54, y53, y52, y51, 0x682e6ff3, 0x7de22d9c);
    var x56, y56 := OneRound(block, v, 56, x55, x54, x53, x52, y55, y54, y53, y52, 0x748f82ee, 0xc8b83778);
    var x57, y57 := OneRound(block, v, 57, x56, x55, x54, x53, y56, y55, y54, y53, 0x78a5636f, 0x75a79849);
    var x58, y58 := OneRound(block, v, 58, x57, x56, x55, x54, y57, y56, y55, y54, 0x84c87814, 0xd93dbddb);
    var x59, y59 := OneRound(block, v, 59, x58, x57, x56, x55, y58, y57, y56, y55, 0x8cc70208, 0x0a036c9d);
    var x60, y60 := OneRound(block, v, 60, x59, x58, x57, x56, y59, y58, y57, y56, 0x90befffa, 0xcb4f6ac6);
    var x61, y61 := OneRound(block, v, 61, x60, x59, x58, x57, y60, y59, y58, y57, 0xa4506ceb, 0x823f97e2);
    var x62, y62 := OneRound(block, v, 62, x61, x60, x59, x58, y61, y60, y59, y58, 0xbef9a3f7, 0xea2f2a7a);
    var x63, y63 := OneRound(block, v, 63, x62, x61, x60, x59, y62, y61, y60, y59, 0xc67178f2, 0xb9018b52);
  }

  lemma SecondHash(v: Hash)
    requires v == Hash(0x85e655d6, 0x417a1795, 0x3363376a, 0x624cde5c, 0x76e09589, 0xcac5f811, 0xcc4b32c1, 0xf20e533a)
    ensures |SecondBlock| == 64 && HashBlock(v, SecondBlock) == Hash(0x248d6a61, 0xd20638b8, 0xe5c02693, 0x0c3e6039, 0xa33ce459, 0x64ff2167, 0xf6ecedd4, 0x19db06c1)
  {
    hide Rounds, Schedule, Words, SecondBlock;
    SecondWords();
    NoRounds(v, SecondBlock);
    SecondSchedule0(SecondBlock);
    SecondRounds0(SecondBlock, v);
    SecondSchedule1(SecondBlock);
    SecondRounds1(SecondBlock, v);
    SecondSchedule2(SecondBlock);
    SecondRounds2(SecondBlock, v);
    SecondSchedule3(SecondBlock);
    SecondRounds3(SecondBlock, v);
  }

  lemma LettersPadded()
    ensures |FirstBlock| == |SecondBlock| == 64 && Padded(Letters) == FirstBlock + SecondBlock && BlocksOf(Letters) == 2
  {
    LengthOf(448);
    assert LengthBytes(448) == [0, 0, 0, 0, 0, 0, 0x01, 0xc0];
    assert |Letters| == 56 && Zeros(63) == Zeros(7) + Zeros(56);
  }

  lemma TwoBlockHash(s: seq<bv8>, t: seq<bv8>)
    requires |s| == |t| == 64
    ensures HashBlocks(s + t, 2) == HashBlock(HashBlock(Initial, s), t)
  {
    hide HashBlock;
    assert (s + t)[0..64] == s && (s + t)[64..128] == t;
    assert HashBlocks(s + t, 1) == HashBlock(Initial, s);
  }

  /** SHA-256 of the 56 letters. */
  lemma LettersDigest()
    ensures Digest(Letters) == [0x24, 0x8d, 0x6a, 0x61, 0xd2, 0x06, 0x38, 0xb8, 0xe5, 0xc0, 0x26, 0x93, 0x0c, 0x3e, 0x60, 0x39, 0xa3, 0x3c, 0xe4, 0x59, 0x64, 0xff, 0x21, 0x67, 0xf6, 0xec, 0xed, 0xd4, 0x19, 0xdb, 0x06, 0xc1]
  {
    hide HashBlock, HashBlocks, FirstBlock, SecondBlock, Letters, Padded;
    LettersPadded();
    FirstHash();
    SecondHash(HashBlock(Initial, FirstBlock));
    TwoBlockHash(FirstBlock, SecondBlock);
  }
}
