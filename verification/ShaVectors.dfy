/** Known digests of SHA-256: the text abc, of one block, and the 56 letters of the second example, of two.
    The rounds are worked out with shifts by constants, word by word. */
module ShaVectors {
  import opened Sha256


  // ----- rounds and words

  /** The words of a round, with every rotation written out. */
  lemma RoundOf(a: Word, b: Word, c: Word, d: Word, e: Word, f: Word, g: Word, h: Word, k: Word, w: Word)
    ensures Round(Hash(a, b, c, d, e, f, g, h), k, w)
         == Hash(NewA(a, b, c, e, f, g, h, k, w), a, b, c, NewE(d, e, f, g, h, k, w), e, f, g)
  {
    hide NewA, NewE;
  }

  lemma NewAIs(a: Word, b: Word, c: Word, e: Word, f: Word, g: Word, h: Word, k: Word, w: Word)
    ensures NewA(a, b, c, e, f, g, h, k, w) == h + Ep1(e) + Ch(e, f, g) + k + w + (Ep0(a) + Maj(a, b, c))
  {
    hide Ep0, Ep1, Ch, Maj;
  }

  lemma NewEIs(d: Word, e: Word, f: Word, g: Word, h: Word, k: Word, w: Word)
    ensures NewE(d, e, f, g, h, k, w) == d + (h + Ep1(e) + Ch(e, f, g) + k + w)
  {
    hide Ep1, Ch;
  }

  /** One round: the two new words, and the parts of their sums. */
  lemma OneRound(block: seq<bv8>, v: Hash, n: nat, a: Word, b: Word, c: Word, d: Word,
                 e: Word, f: Word, g: Word, h: Word, k: Word, w: Word)
    returns (x: Word, y: Word)
    requires |block| == 64 && n < 64 && K[n] == k && Schedule(block, n) == w
    requires Rounds(v, block, n) == Hash(a, b, c, d, e, f, g, h)
    ensures Ep1(e) == (((e >> 6) | (e << 26)) ^ ((e >> 11) | (e << 21)) ^ ((e >> 25) | (e << 7)))
    ensures Ep0(a) == (((a >> 2) | (a << 30)) ^ ((a >> 13) | (a << 19)) ^ ((a >> 22) | (a << 10)))
    ensures Ch(e, f, g) == ((e & f) ^ (!e & g)) && Maj(a, b, c) == ((a & b) ^ (a & c) ^ (b & c))
    ensures x == h + Ep1(e) + Ch(e, f, g) + k + w + (Ep0(a) + Maj(a, b, c))
    ensures y == d + (h + Ep1(e) + Ch(e, f, g) + k + w)
    ensures Rounds(v, block, n + 1) == Hash(x, a, b, c, y, e, f, g)
  {
    hide Rounds, Round, Schedule, K, NewA, NewE;
    RoundStep(v, block, n);
    RoundOf(a, b, c, d, e, f, g, h, k, w);
    NewAIs(a, b, c, e, f, g, h, k, w);
    NewEIs(d, e, f, g, h, k, w);
    x := h + Ep1(e) + Ch(e, f, g) + k + w + (Ep0(a) + Maj(a, b, c));
    y := d + (h + Ep1(e) + Ch(e, f, g) + k + w);
  }

  /** One word of the schedule. */
  lemma OneWord(block: seq<bv8>, t: nat, w2: Word, w7: Word, w15: Word, w16: Word) returns (w: Word)
    requires |block| == 64 && t >= 16 && Schedule(block, t - 2) == w2 && Schedule(block, t - 7) == w7
    requires Schedule(block, t - 15) == w15 && Schedule(block, t - 16) == w16
    ensures Sig1(w2) == (((w2 >> 17) | (w2 << 15)) ^ ((w2 >> 19) | (w2 << 13)) ^ (w2 >> 10))
    ensures Sig0(w15) == (((w15 >> 7) | (w15 << 25)) ^ ((w15 >> 18) | (w15 << 14)) ^ (w15 >> 3))
    ensures w == Sig1(w2) + w7 + Sig0(w15) + w16 && Schedule(block, t) == w
  {
    hide Schedule;
    ScheduleStep(block, t);
    w := NextWord(w2, w7, w15, w16);
  }

  /** Eight words of the schedule, from place `t`. */
  predicate Words(block: seq<bv8>, t: nat, a: Word, b: Word, c: Word, d: Word, e: Word, f: Word, g: Word, h: Word)
    requires |block| == 64
  {
    && Schedule(block, t) == a && Schedule(block, t + 1) == b && Schedule(block, t + 2) == c && Schedule(block, t + 3) == d
    && Schedule(block, t + 4) == e && Schedule(block, t + 5) == f && Schedule(block, t + 6) == g && Schedule(block, t + 7) == h
  }

  lemma RowsOfEight()
    ensures |K0| == |K1| == |K2| == |K3| == |K4| == |K5| == |K6| == |K7| == 8
  {
  }

  lemma Constants0()
    ensures K[0] == 0x428a2f98 && K[1] == 0x71374491 && K[2] == 0xb5c0fbcf && K[3] == 0xe9b5dba5
    ensures K[4] == 0x3956c25b && K[5] == 0x59f111f1 && K[6] == 0x923f82a4 && K[7] == 0xab1c5ed5
  {
    hide K1, K2, K3, K4, K5, K6, K7;
    RowsOfEight();
    assert forall i :: 0 <= i < 8 ==> K[0 + i] == K0[i];
  }

  lemma Constants1()
    ensures K[8] == 0xd807aa98 && K[9] == 0x12835b01 && K[10] == 0x243185be && K[11] == 0x550c7dc3
    ensures K[12] == 0x72be5d74 && K[13] == 0x80deb1fe && K[14] == 0x9bdc06a7 && K[15] == 0xc19bf174
  {
    hide K0, K2, K3, K4, K5, K6, K7;
    RowsOfEight();
    assert forall i :: 0 <= i < 8 ==> K[8 + i] == K1[i];
  }

  lemma Constants2()
    ensures K[16] == 0xe49b69c1 && K[17] == 0xefbe4786 && K[18] == 0x0fc19dc6 && K[19] == 0x240ca1cc
    ensures K[20] == 0x2de92c6f && K[21] == 0x4a7484aa && K[22] == 0x5cb0a9dc && K[23] == 0x76f988da
  {
    hide K0, K1, K3, K4, K5, K6, K7;
    RowsOfEight();
    assert forall i :: 0 <= i < 8 ==> K[16 + i] == K2[i];
  }

  lemma Constants3()
    ensures K[24] == 0x983e5152 && K[25] == 0xa831c66d && K[26] == 0xb00327c8 && K[27] == 0xbf597fc7
    ensures K[28] == 0xc6e00bf3 && K[29] == 0xd5a79147 && K[30] == 0x06ca6351 && K[31] == 0x14292967
  {
    hide K0, K1, K2, K4, K5, K6, K7;
    RowsOfEight();
    assert forall i :: 0 <= i < 8 ==> K[24 + i] == K3[i];
  }

  lemma Constants4()
    ensures K[32] == 0x27b70a85 && K[33] == 0x2e1b2138 && K[34] == 0x4d2c6dfc && K[35] == 0x53380d13
    ensures K[36] == 0x650a7354 && K[37] == 0x766a0abb && K[38] == 0x81c2c92e && K[39] == 0x92722c85
  {
    hide K0, K1, K2, K3, K5, K6, K7;
    RowsOfEight();
    assert forall i :: 0 <= i < 8 ==> K[32 + i] == K4[i];
  }

  lemma Constants5()
    ensures K[40] == 0xa2bfe8a1 && K[41] == 0xa81a664b && K[42] == 0xc24b8b70 && K[43] == 0xc76c51a3
    ensures K[44] == 0xd192e819 && K[45] == 0xd6990624 && K[46] == 0xf40e3585 && K[47] == 0x106aa070
  {
    hide K0, K1, K2, K3, K4, K6, K7;
    RowsOfEight();
    assert forall i :: 0 <= i < 8 ==> K[40 + i] == K5[i];
  }

  lemma Constants6()
    ensures K[48] == 0x19a4c116 && K[49] == 0x1e376c08 && K[50] == 0x2748774c && K[51] == 0x34b0bcb5
    ensures K[52] == 0x391c0cb3 && K[53] == 0x4ed8aa4a && K[54] == 0x5b9cca4f && K[55] == 0x682e6ff3
  {
    hide K0, K1, K2, K3, K4, K5, K7;
    RowsOfEight();
    assert forall i :: 0 <= i < 8 ==> K[48 + i] == K6[i];
  }

  lemma Constants7()
    ensures K[56] == 0x748f82ee && K[57] == 0x78a5636f && K[58] == 0x84c87814 && K[59] == 0x8cc70208
    ensures K[60] == 0x90befffa && K[61] == 0xa4506ceb && K[62] == 0xbef9a3f7 && K[63] == 0xc67178f2
  {
    hide K0, K1, K2, K3, K4, K5, K6;
    RowsOfEight();
    assert forall i :: 0 <= i < 8 ==> K[56 + i] == K7[i];
  }

  // ----- abc

  const AbcBlock: seq<bv8> := [0x61, 0x62, 0x63, 0x80] + Zeros(59) + [0x18]

  lemma AbcWords()
    ensures |AbcBlock| == 64
    ensures WordAt(AbcBlock, 0) == 0x61626380 && WordAt(AbcBlock, 1) == 0x00000000
    ensures WordAt(AbcBlock, 2) == 0x00000000 && WordAt(AbcBlock, 3) == 0x00000000
    ensures WordAt(AbcBlock, 4) == 0x00000000 && WordAt(AbcBlock, 5) == 0x00000000
    ensures WordAt(AbcBlock, 6) == 0x00000000 && WordAt(AbcBlock, 7) == 0x00000000
    ensures WordAt(AbcBlock, 8) == 0x00000000 && WordAt(AbcBlock, 9) == 0x00000000
    ensures WordAt(AbcBlock, 10) == 0x00000000 && WordAt(AbcBlock, 11) == 0x00000000
    ensures WordAt(AbcBlock, 12) == 0x00000000 && WordAt(AbcBlock, 13) == 0x00000000
    ensures WordAt(AbcBlock, 14) == 0x00000000 && WordAt(AbcBlock, 15) == 0x00000018
  {
  }

  // The words of the one block of abc.

  lemma AbcSchedule0(block: seq<bv8>)
    requires block == AbcBlock && |block| == 64
    ensures Words(block, 0, 0x61626380, 0x00000000, 0x00000000, 0x00000000, 0x00000000, 0x00000000, 0x00000000, 0x00000000)
    ensures Words(block, 8, 0x00000000, 0x00000000, 0x00000000, 0x00000000, 0x00000000, 0x00000000, 0x00000000, 0x00000018)
  {
    hide Schedule, WordAt, AbcBlock;
    AbcWords();
    ScheduleStep(block, 0);
    ScheduleStep(block, 1);
    ScheduleStep(block, 2);
    ScheduleStep(block, 3);
    ScheduleStep(block, 4);
    ScheduleStep(block, 5);
    ScheduleStep(block, 6);
    ScheduleStep(block, 7);
    ScheduleStep(block, 8);
    ScheduleStep(block, 9);
    ScheduleStep(block, 10);
    ScheduleStep(block, 11);
    ScheduleStep(block, 12);
    ScheduleStep(block, 13);
    ScheduleStep(block, 14);
    ScheduleStep(block, 15);
  }

  lemma AbcSchedule1(block: seq<bv8>)
    requires |block| == 64
    requires Words(block, 0, 0x61626380, 0x00000000, 0x00000000, 0x00000000, 0x00000000, 0x00000000, 0x00000000, 0x00000000)
    requires Words(block, 8, 0x00000000, 0x00000000, 0x00000000, 0x00000000, 0x00000000, 0x00000000, 0x00000000, 0x00000018)
    ensures Words(block, 16, 0x61626380, 0x000f0000, 0x7da86405, 0x600003c6, 0x3e9d7b78, 0x0183fc00, 0x12dcbfdb, 0xe2e2c38e)
    ensures Words(block, 24, 0xc8215c1a, 0xb73679a2, 0xe5bc3909, 0x32663c5b, 0x9d209d67, 0xec8726cb, 0x702138a4, 0xd3b7973b)
  {
    hide Schedule, Sig0, Sig1;
    var w16 := OneWord(block, 16, 0x00000000, 0x00000000, 0x00000000, 0x61626380);
    var w17 := OneWord(block, 17, 0x00000018, 0x00000000, 0x00000000, 0x00000000);
    var w18 := OneWord(block, 18, 0x61626380, 0x00000000, 0x00000000, 0x00000000);
    var w19 := OneWord(block, 19, 0x000f0000, 0x00000000, 0x00000000, 0x00000000);
    var w20 := OneWord(block, 20, 0x7da86405, 0x00000000, 0x00000000, 0x00000000);
    var w21 := OneWord(block, 21, 0x600003c6, 0x00000000, 0x00000000, 0x00000000);
    var w22 := OneWord(block, 22, 0x3e9d7b78, 0x00000018, 0x00000000, 0x00000000);
    var w23 := OneWord(block, 23, 0x0183fc00, 0x61626380, 0x00000000, 0x00000000);
    var w24 := OneWord(block, 24, 0x12dcbfdb, 0x000f0000, 0x00000000, 0x00000000);
    var w25 := OneWord(block, 25, 0xe2e2c38e, 0x7da86405, 0x00000000, 0x00000000);
    var w26 := OneWord(block, 26, 0xc8215c1a, 0x600003c6, 0x00000000, 0x00000000);
    var w27 := OneWord(block, 27, 0xb73679a2, 0x3e9d7b78, 0x00000000, 0x00000000);
    var w28 := OneWord(block, 28, 0xe5bc3909, 0x0183fc00, 0x00000000, 0x00000000);
    var w29 := OneWord(block, 29, 0x32663c5b, 0x12dcbfdb, 0x00000000, 0x00000000);
    var w30 := OneWord(block, 30, 0x9d209d67, 0xe2e2c38e, 0x00000018, 0x00000000);
    var w31 := OneWord(block, 31, 0xec8726cb, 0xc8215c1a, 0x61626380, 0x00000018);
  }

  lemma AbcSchedule2(block: seq<bv8>)
    requires |block| == 64
    requires Words(block, 16, 0x61626380, 0x000f0000, 0x7da86405, 0x600003c6, 0x3e9d7b78, 0x0183fc00, 0x12dcbfdb, 0xe2e2c38e)
    requires Words(block, 24, 0xc8215c1a, 0xb73679a2, 0xe5bc3909, 0x32663c5b, 0x9d209d67, 0xec8726cb, 0x702138a4, 0xd3b7973b)
    ensures Words(block, 32, 0x93f5997f, 0x3b68ba73, 0xaff4ffc1, 0xf10a5c62, 0x0a8b3996, 0x72af830a, 0x9409e33e, 0x24641522)
    ensures Words(block, 40, 0x9f47bf94, 0xf0a64f5a, 0x3e246a79, 0x27333ba3, 0x0c4763f2, 0x840abf27, 0x7a290d5d, 0x065c43da)
  {
    hide Schedule, Sig0, Sig1;
    var w32 := OneWord(block, 32, 0x702138a4, 0xb73679a2, 0x000f0000, 0x61626380);
    var w33 := OneWord(block, 33, 0xd3b7973b, 0xe5bc3909, 0x7da86405, 0x000f0000);
    var w34 := OneWord(block, 34, 0x93f5997f, 0x32663c5b, 0x600003c6, 0x7da86405);
    var w35 := OneWord(block, 35, 0x3b68ba73, 0x9d209d67, 0x3e9d7b78, 0x600003c6);
    var w36 := OneWord(block, 36, 0xaff4ffc1, 0xec8726cb, 0x0183fc00, 0x3e9d7b78);
    var w37 := OneWord(block, 37, 0xf10a5c62, 0x702138a4, 0x12dcbfdb, 0x0183fc00);
    var w38 := OneWord(block, 38, 0x0a8b3996, 0xd3b7973b, 0xe2e2c38e, 0x12dcbfdb);
    var w39 := OneWord(block, 39, 0x72af830a, 0x93f5997f, 0xc8215c1a, 0xe2e2c38e);
    var w40 := OneWord(block, 40, 0x9409e33e, 0x3b68ba73, 0xb73679a2, 0xc8215c1a);
    var w41 := OneWord(block, 41, 0x24641522, 0xaff4ffc1, 0xe5bc3909, 0xb73679a2);
    var w42 := OneWord(block, 42, 0x9f47bf94, 0xf10a5c62, 0x32663c5b, 0xe5bc3909);
    var w43 := OneWord(block, 43, 0xf0a64f5a, 0x0a8b3996, 0x9d209d67, 0x32663c5b);
    var w44 := OneWord(block, 44, 0x3e246a79, 0x72af830a, 0xec8726cb, 0x9d209d67);
    var w45 := OneWord(block, 45, 0x27333ba3, 0x9409e33e, 0x702138a4, 0xec8726cb);
    var w46 := OneWord(block, 46, 0x0c4763f2, 0x24641522, 0xd3b7973b, 0x702138a4);
    var w47 := OneWord(block, 47, 0x840abf27, 0x9f47bf94, 0x93f5997f, 0xd3b7973b);
  }

  lemma AbcSchedule3(block: seq<bv8>)
    requires |block| == 64
    requires Words(block, 32, 0x93f5997f, 0x3b68ba73, 0xaff4ffc1, 0xf10a5c62, 0x0a8b3996, 0x72af830a, 0x9409e33e, 0x24641522)
    requires Words(block, 40, 0x9f47bf94, 0xf0a64f5a, 0x3e246a79, 0x27333ba3, 0x0c4763f2, 0x840abf27, 0x7a290d5d, 0x065c43da)
    ensures Words(block, 48, 0xfb3e89cb, 0xcc7617db, 0xb9e66c34, 0xa9993667, 0x84badedd, 0xc21462bc, 0x1487472c, 0xb20f7a99)
    ensures Words(block, 56, 0xef57b9cd, 0xebe6b238, 0x9fe3095e, 0x78bc8d4b, 0xa43fcf15, 0x668b2ff8, 0xeeaba2cc, 0x12b1edeb)
  {
    hide Schedule, Sig0, Sig1;
    var w48 := OneWord(block, 48, 0x7a290d5d, 0xf0a64f5a, 0x3b68ba73, 0x93f5997f);
    var w49 := OneWord(block, 49, 0x065c43da, 0x3e246a79, 0xaff4ffc1, 0x3b68ba73);
    var w50 := OneWord(block, 50, 0xfb3e89cb, 0x27333ba3, 0xf10a5c62, 0xaff4ffc1);
    var w51 := OneWord(block, 51, 0xcc7617db, 0x0c4763f2, 0x0a8b3996, 0xf10a5c62);
    var w52 := OneWord(block, 52, 0xb9e66c34, 0x840abf27, 0x72af830a, 0x0a8b3996);
    var w53 := OneWord(block, 53, 0xa9993667, 0x7a290d5d, 0x9409e33e, 0x72af830a);
    var w54 := OneWord(block, 54, 0x84badedd, 0x065c43da, 0x24641522, 0x9409e33e);
    var w55 := OneWord(block, 55, 0xc21462bc, 0xfb3e89cb, 0x9f47bf94, 0x24641522);
    var w56 := OneWord(block, 56, 0x1487472c, 0xcc7617db, 0xf0a64f5a, 0x9f47bf94);
    var w57 := OneWord(block, 57, 0xb20f7a99, 0xb9e66c34, 0x3e246a79, 0xf0a64f5a);
    var w58 := OneWord(block, 58, 0xef57b9cd, 0xa9993667, 0x27333ba3, 0x3e246a79);
    var w59 := OneWord(block, 59, 0xebe6b238, 0x84badedd, 0x0c4763f2, 0x27333ba3);
    var w60 := OneWord(block, 60, 0x9fe3095e, 0xc21462bc, 0x840abf27, 0x0c4763f2);
    var w61 := OneWord(block, 61, 0x78bc8d4b, 0x1487472c, 0x7a290d5d, 0x840abf27);
    var w62 := OneWord(block, 62, 0xa43fcf15, 0xb20f7a99, 0x065c43da, 0x7a290d5d);
    var w63 := OneWord(block, 63, 0x668b2ff8, 0xef57b9cd, 0xfb3e89cb, 0x065c43da);
  }

  lemma AbcRounds0(block: seq<bv8>, v: Hash)
    requires |block| == 64
    requires Words(block, 0, 0x61626380, 0x00000000, 0x00000000, 0x00000000, 0x00000000, 0x00000000, 0x00000000, 0x00000000)
    requires Words(block, 8, 0x00000000, 0x00000000, 0x00000000, 0x00000000, 0x00000000, 0x00000000, 0x00000000, 0x00000018)
    requires Rounds(v, block, 0) == Hash(0x6a09e667, 0xbb67ae85, 0x3c6ef372, 0xa54ff53a, 0x510e527f, 0x9b05688c, 0x1f83d9ab, 0x5be0cd19)
    ensures Rounds(v, block, 16) == Hash(0xb0fa238e, 0xc0645fde, 0xd932eb16, 0x87912990, 0x07590dcd, 0x0b92f20c, 0x745a48de, 0x1e578218)
  {
    hide Rounds, Schedule, K;
    Constants0();
    Constants1();
    var x0, y0 := OneRound(block, v, 0, 0x6a09e667, 0xbb67ae85, 0x3c6ef372, 0xa54ff53a, 0x510e527f, 0x9b05688c, 0x1f83d9ab, 0x5be0cd19, 0x428a2f98, 0x61626380);
    var x1, y1 := OneRound(block, v, 1, x0, 0x6a09e667, 0xbb67ae85, 0x3c6ef372, y0, 0x510e527f, 0x9b05688c, 0x1f83d9ab, 0x71374491, 0x00000000);
    var x2, y2 := OneRound(block, v, 2, x1, x0, 0x6a09e667, 0xbb67ae85, y1, y0, 0x510e527f, 0x9b05688c, 0xb5c0fbcf, 0x00000000);
    var x3, y3 := OneRound(block, v, 3, x2, x1, x0, 0x6a09e667, y2, y1, y0, 0x510e527f, 0xe9b5dba5, 0x00000000);
    var x4, y4 := OneRound(block, v, 4, x3, x2, x1, x0, y3, y2, y1, y0, 0x3956c25b, 0x00000000);
    var x5, y5 := OneRound(block, v, 5, x4, x3, x2, x1, y4, y3, y2, y1, 0x59f111f1, 0x00000000);
    var x6, y6 := OneRound(block, v, 6, x5, x4, x3, x2, y5, y4, y3, y2, 0x923f82a4, 0x00000000);
    var x7, y7 := OneRound(block, v, 7, x6, x5, x4, x3, y6, y5, y4, y3, 0xab1c5ed5, 0x00000000);
    var x8, y8 := OneRound(block, v, 8, x7, x6, x5, x4, y7, y6, y5, y4, 0xd807aa98, 0x00000000);
    var x9, y9 := OneRound(block, v, 9, x8, x7, x6, x5, y8, y7, y6, y5, 0x12835b01, 0x00000000);
    var x10, y10 := OneRound(block, v, 10, x9, x8, x7, x6, y9, y8, y7, y6, 0x243185be, 0x00000000);
    var x11, y11 := OneRound(block, v, 11, x10, x9, x8, x7, y10, y9, y8, y7, 0x550c7dc3, 0x00000000);
    var x12, y12 := OneRound(block, v, 12, x11, x10, x9, x8, y11, y10, y9, y8, 0x72be5d74, 0x00000000);
    var x13, y13 := OneRound(block, v, 13, x12, x11, x10, x9, y12, y11, y10, y9, 0x80deb1fe, 0x00000000);
    var x14, y14 := OneRound(block, v, 14, x13, x12, x11, x10, y13, y12, y11, y10, 0x9bdc06a7, 0x00000000);
    var x15, y15 := OneRound(block, v, 15, x14, x13, x12, x11, y14, y13, y12, y11, 0xc19bf174, 0x00000018);
  }

  lemma AbcRounds1(block: seq<bv8>, v: Hash)
    requires |block| == 64
    requires Words(block, 16, 0x61626380, 0x000f0000, 0x7da86405, 0x600003c6, 0x3e9d7b78, 0x0183fc00, 0x12dcbfdb, 0xe2e2c38e)
    requires Words(block, 24, 0xc8215c1a, 0xb73679a2, 0xe5bc3909, 0x32663c5b, 0x9d209d67, 0xec8726cb, 0x702138a4, 0xd3b7973b)
    requires Rounds(v, block, 16) == Hash(0xb0fa238e, 0xc0645fde, 0xd932eb16, 0x87912990, 0x07590dcd, 0x0b92f20c, 0x745a48de, 0x1e578218)
    ensures Rounds(v, block, 32) == Hash(0x73b33bf5, 0xea992a22, 0xa0060b30, 0x363482c9, 0xba591112, 0x0109ab3a, 0xade79437, 0x6112a3b7)
  {
    hide Rounds, Schedule, K;
    Constants2();
    Constants3();
    var x16, y16 := OneRound(block, v, 16, 0xb0fa238e, 0xc0645fde, 0xd932eb16, 0x87912990, 0x07590dcd, 0x0b92f20c, 0x745a48de, 0x1e578218, 0xe49b69c1, 0x61626380);
    var x17, y17 := OneRound(block, v, 17, x16, 0xb0fa238e, 0xc0645fde, 0xd932eb16, y16, 0x07590dcd, 0x0b92f20c, 0x745a48de, 0xefbe4786, 0x000f0000);
    var x18, y18 := OneRound(block, v, 18, x17, x16, 0xb0fa238e, 0xc0645fde, y17, y16, 0x07590dcd, 0x0b92f20c, 0x0fc19dc6, 0x7da86405);
    var x19, y19 := OneRound(block, v, 19, x18, x17, x16, 0xb0fa238e, y18, y17, y16, 0x07590dcd, 0x240ca1cc, 0x600003c6);
    var x20, y20 := OneRound(block, v, 20, x19, x18, x17, x16, y19, y18, y17, y16, 0x2de92c6f, 0x3e9d7b78);
    var x21, y21 := OneRound(block, v, 21, x20, x19, x18, x17, y20, y19, y18, y17, 0x4a7484aa, 0x0183fc00);
    var x22, y22 := OneRound(block, v, 22, x21, x20, x19, x18, y21, y20, y19, y18, 0x5cb0a9dc, 0x12dcbfdb);
    var x23, y23 := OneRound(block, v, 23, x22, x21, x20, x19, y22, y21, y20, y19, 0x76f988da, 0xe2e2c38e);
    var x24, y24 := OneRound(block, v, 24, x23, x22, x21, x20, y23, y22, y21, y20, 0x983e5152, 0xc8215c1a);
    var x25, y25 := OneRound(block, v, 25, x24, x23, x22, x21, y24, y23, y22, y21, 0xa831c66d, 0xb73679a2);
    var x26, y26 := OneRound(block, v, 26, x25, x24, x23, x22, y25, y24, y23, y22, 0xb00327c8, 0xe5bc3909);
    var x27, y27 := OneRound(block, v, 27, x26, x25, x24, x23, y26, y25, y24, y23, 0xbf597fc7, 0x32663c5b);
    var x28, y28 := OneRound(block, v, 28, x27, x26, x25, x24, y27, y26, y25, y24, 0xc6e00bf3, 0x9d209d67);
    var x29, y29 := OneRound(block, v, 29, x28, x27, x26, x25, y28, y27, y26, y25, 0xd5a79147, 0xec8726cb);
    var x30, y30 := OneRound(block, v, 30, x29, x28, x27, x26, y29, y28, y27, y26, 0x06ca6351, 0x702138a4);
    var x31, y31 := OneRound(block, v, 31, x30, x29, x28, x27, y30, y29, y28, y27, 0x14292967, 0xd3b7973b);
  }

  lemma AbcRounds2(block: seq<bv8>, v: Hash)
    requires |block| == 64
    requires Words(block, 32, 0x93f5997f, 0x3b68ba73, 0xaff4ffc1, 0xf10a5c62, 0x0a8b3996, 0x72af830a, 0x9409e33e, 0x24641522)
    requires Words(block, 40, 0x9f47bf94, 0xf0a64f5a, 0x3e246a79, 0x27333ba3, 0x0c4763f2, 0x840abf27, 0x7a290d5d, 0x065c43da)
    requires Rounds(v, block, 32) == Hash(0x73b33bf5, 0xea992a22, 0xa0060b30, 0x363482c9, 0xba591112, 0x0109ab3a, 0xade79437, 0x6112a3b7)
    ensures Rounds(v, block, 48) == Hash(0x4172328d, 0xa14c14b0, 0x72ab4b91, 0x26628815, 0xfecf0bc6, 0xd57b94a9, 0xb7755da1, 0xa80f11f0)
  {
    hide Rounds, Schedule, K;
    Constants4();
    Constants5();
    var x32, y32 := OneRound(block, v, 32, 0x73b33bf5, 0xea992a22, 0xa0060b30, 0x363482c9, 0xba591112, 0x0109ab3a, 0xade79437, 0x6112a3b7, 0x27b70a85, 0x93f5997f);
    var x33, y33 := OneRound(block, v, 33, x32, 0x73b33bf5, 0xea992a22, 0xa0060b30, y32, 0xba591112, 0x0109ab3a, 0xade79437, 0x2e1b2138, 0x3b68ba73);
    var x34, y34 := OneRound(block, v, 34, x33, x32, 0x73b33bf5, 0xea992a22, y33, y32, 0xba591112, 0x0109ab3a, 0x4d2c6dfc, 0xaff4ffc1);
    var x35, y35 := OneRound(block, v, 35, x34, x33, x32, 0x73b33bf5, y34, y33, y32, 0xba591112, 0x53380d13, 0xf10a5c62);
    var x36, y36 := OneRound(block, v, 36, x35, x34, x33, x32, y35, y34, y33, y32, 0x650a7354, 0x0a8b3996);
    var x37, y37 := OneRound(block, v, 37, x36, x35, x34, x33, y36, y35, y34, y33, 0x766a0abb, 0x72af830a);
    var x38, y38 := OneRound(block, v, 38, x37, x36, x35, x34, y37, y36, y35, y34, 0x81c2c92e, 0x9409e33e);
    var x39, y39 := OneRound(block, v, 39, x38, x37, x36, x35, y38, y37, y36, y35, 0x92722c85, 0x24641522);
    var x40, y40 := OneRound(block, v, 40, x39, x38, x37, x36, y39, y38, y37, y36, 0xa2bfe8a1, 0x9f47bf94);
    var x41, y41 := OneRound(block, v, 41, x40, x39, x38, x37, y40, y39, y38, y37, 0xa81a664b, 0xf0a64f5a);
    var x42, y42 := OneRound(block, v, 42, x41, x40, x39, x38, y41, y40, y39, y38, 0xc24b8b70, 0x3e246a79);
    var x43, y43 := OneRound(block, v, 43, x42, x41, x40, x39, y42, y41, y40, y39, 0xc76c51a3, 0x27333ba3);
    var x44, y44 := OneRound(block, v, 44, x43, x42, x41, x40, y43, y42, y41, y40, 0xd192e819, 0x0c4763f2);
    var x45, y45 := OneRound(block, v, 45, x44, x43, x42, x41, y44, y43, y42, y41, 0xd6990624, 0x840abf27);
    var x46, y46 := OneRound(block, v, 46, x45, x44, x43, x42, y45, y44, y43, y42, 0xf40e3585, 0x7a290d5d);
    var x47, y47 := OneRound(block, v, 47, x46, x45, x44, x43, y46, y45, y44, y43, 0x106aa070, 0x065c43da);
  }

  lemma AbcRounds3(block: seq<bv8>, v: Hash)
    requires |block| == 64
    requires Words(block, 48, 0xfb3e89cb, 0xcc7617db, 0xb9e66c34, 0xa9993667, 0x84badedd, 0xc21462bc, 0x1487472c, 0xb20f7a99)
    requires Words(block, 56, 0xef57b9cd, 0xebe6b238, 0x9fe3095e, 0x78bc8d4b, 0xa43fcf15, 0x668b2ff8, 0xeeaba2cc, 0x12b1edeb)
    requires Rounds(v, block, 48) == Hash(0x4172328d, 0xa14c14b0, 0x72ab4b91, 0x26628815, 0xfecf0bc6, 0xd57b94a9, 0xb7755da1, 0xa80f11f0)
    ensures Rounds(v, block, 64) == Hash(0x506e3058, 0xd39a2165, 0x04d24d6c, 0xb85e2ce9, 0x5ef50f24, 0xfb121210, 0x948d25b6, 0x961f4894)
  {
    hide Rounds, Schedule, K;
    Constants6();
    Constants7();
    var x48, y48 := OneRound(block, v, 48, 0x4172328d, 0xa14c14b0, 0x72ab4b91, 0x26628815, 0xfecf0bc6, 0xd57b94a9, 0xb7755da1, 0xa80f11f0, 0x19a4c116, 0xfb3e89cb);
    var x49, y49 := OneRound(block, v, 49, x48, 0x4172328d, 0xa14c14b0, 0x72ab4b91, y48, 0xfecf0bc6, 0xd57b94a9, 0xb7755da1, 0x1e376c08, 0xcc7617db);
    var x50, y50 := OneRound(block, v, 50, x49, x48, 0x4172328d, 0xa14c14b0, y49, y48, 0xfecf0bc6, 0xd57b94a9, 0x2748774c, 0xb9e66c34);
    var x51, y51 := OneRound(block, v, 51, x50, x49, x48, 0x4172328d, y50, y49, y48, 0xfecf0bc6, 0x34b0bcb5, 0xa9993667);
    var x52, y52 := OneRound(block, v, 52, x51, x50, x49, x48, y51, y50, y49, y48, 0x391c0cb3, 0x84badedd);
    var x53, y53 := OneRound(block, v, 53, x52, x51, x50, x49, y52, y51, y50, y49, 0x4ed8aa4a, 0xc21462bc);
    var x54, y54 := OneRound(block, v, 54, x53, x52, x51, x50, y53, y52, y51, y50, 0x5b9cca4f, 0x1487472c);
    var x55, y55 := OneRound(block, v, 55, x54, x53, x52, x51, y54, y53, y52, y51, 0x682e6ff3, 0xb20f7a99);
    var x56, y56 := OneRound(block, v, 56, x55, x54, x53, x52, y55, y54, y53, y52, 0x748f82ee, 0xef57b9cd);
    var x57, y57 := OneRound(block, v, 57, x56, x55, x54, x53, y56, y55, y54, y53, 0x78a5636f, 0xebe6b238);
    var x58, y58 := OneRound(block, v, 58, x57, x56, x55, x54, y57, y56, y55, y54, 0x84c87814, 0x9fe3095e);
    var x59, y59 := OneRound(block, v, 59, x58, x57, x56, x55, y58, y57, y56, y55, 0x8cc70208, 0x78bc8d4b);
    var x60, y60 := OneRound(block, v, 60, x59, x58, x57, x56, y59, y58, y57, y56, 0x90befffa, 0xa43fcf15);
    var x61, y61 := OneRound(block, v, 61, x60, x59, x58, x57, y60, y59, y58, y57, 0xa4506ceb, 0x668b2ff8);
    var x62, y62 := OneRound(block, v, 62, x61, x60, x59, x58, y61, y60, y59, y58, 0xbef9a3f7, 0xeeaba2cc);
    var x63, y63 := OneRound(block, v, 63, x62, x61, x60, x59, y62, y61, y60, y59, 0xc67178f2, 0x12b1edeb);
  }

  lemma AbcHash()
    ensures |AbcBlock| == 64 && HashBlock(Initial, AbcBlock) == Hash(0xba7816bf, 0x8f01cfea, 0x414140de, 0x5dae2223, 0xb00361a3, 0x96177a9c, 0xb410ff61, 0xf20015ad)
  {
    hide Rounds, Schedule, Words, AbcBlock;
    AbcWords();
    NoRounds(Initial, AbcBlock);
    AbcSchedule0(AbcBlock);
    AbcRounds0(AbcBlock, Initial);
    AbcSchedule1(AbcBlock);
    AbcRounds1(AbcBlock, Initial);
    AbcSchedule2(AbcBlock);
    AbcRounds2(AbcBlock, Initial);
    AbcSchedule3(AbcBlock);
    AbcRounds3(AbcBlock, Initial);
  }

  const Abc: seq<bv8> := [0x61, 0x62, 0x63]

  lemma AbcPadded()
    ensures Padded(Abc) == AbcBlock && |AbcBlock| == 64 && BlocksOf(Abc) == 1
  {
    LengthOf(24);
    assert LengthBytes(24)[6..] == [0, 0x18];
    assert Zeros(PadZeros(3)) + Zeros(6) + [0] == Zeros(59);
  }

  /** A length below 65536 bits as bytes. */
  lemma LengthOf(bits: nat)
    requires bits < 0x1_0000
    ensures LengthBytes(bits) == Zeros(6) + [(bits / 256) as bv8, (bits % 256) as bv8]
  {
    LowBytes(bits);
    hide ByteOf;
    forall k: nat | 2 <= k < 8
      ensures ByteOf(bits, k) == 0
    {
      HighByte(bits, k);
    }
  }

  lemma LowBytes(bits: nat)
    requires bits < 0x1_0000
    ensures ByteOf(bits, 0) == (bits % 256) as bv8 && ByteOf(bits, 1) == (bits / 256) as bv8
  {
    assert bits / 256 % 256 == bits / 256;
    assert ByteOf(bits, 1) == ByteOf(bits / 256, 0);
  }

  lemma {:induction false} HighByte(v: nat, k: nat)
    requires (k >= 2 && v < 0x1_0000) || (k >= 1 && v < 256) || v == 0
    ensures ByteOf(v, k) == 0
    decreases k
  {
    if k > 0 {
      HighByte(v / 256, k - 1);
    }
  }

  /** SHA-256 of abc. */
  lemma AbcDigest()
    ensures Digest(Abc) == [0xba, 0x78, 0x16, 0xbf, 0x8f, 0x01, 0xcf, 0xea, 0x41, 0x41, 0x40, 0xde, 0x5d, 0xae, 0x22, 0x23, 0xb0, 0x03, 0x61, 0xa3, 0x96, 0x17, 0x7a, 0x9c, 0xb4, 0x10, 0xff, 0x61, 0xf2, 0x00, 0x15, 0xad]
  {
    hide HashBlock, AbcBlock, Abc;
    AbcPadded();
    AbcHash();
    OneBlockHash(AbcBlock);
  }

  lemma OneBlockHash(s: seq<bv8>)
    requires |s| == 64
    ensures HashBlocks(s, 1) == HashBlock(Initial, s)
  {
    assert s[0..64] == s;
  }
}
