/** One dynamic block byte by byte: a header with every kind of run-length code, four literals and a match. */
module DynamicStream {
  import opened Bits
  import opened Canonical
  import opened InflateSpec
  import opened LzCopy
  import opened SymbolTables
  import opened Tokens
  import opened CodeLengthRle
  import opened CodeLengthBits
  import opened Blocks
  import opened StaticCode
  import opened Chunking
  import opened KnownStreams

  /** The letters a to d have codes of 3 bits, the end of block and length 3 codes of 2, distance 4 one of 1. */
  const DynLit: Sizes := Repeat(0, 97) + [3, 3, 3, 3] + Repeat(0, 155) + [2, 2]

  const DynDist: Sizes := [0, 0, 0, 1]

  const DynLens: Sizes := [0, 4, 2, 4, 0, 0, 0, 0, 0, 0, 0, 0, 0, 0, 0, 0, 3, 2, 2]

  const DynOps: seq<Op> :=
    [Op(18, 86), Op(3, 0), Op(16, 0), Op(18, 127), Op(17, 7), Op(17, 4), Op(2, 0), Op(2, 0), Op(17, 0), Op(1, 0)]

  const DynHeader: Header := Header(258, 4, 18, DynLens, DynOps)

  const DynTokens: seq<Token> := [Lit(97), Lit(98), Lit(99), Lit(100), Match(3, 4)]

  const DynBytes: seq<byte> := [13, 195, 39, 1, 0, 0, 0, 132, 192, 172, 63, 250, 123, 9, 226, 210, 93, 0]

  // ----- the codes

  /** With no codes of the sizes between, first codes double. */
  lemma {:induction false} Doubling(sizes: Sizes, l: nat, m: nat)
    requires 1 <= l <= m && forall u :: 0 <= u < |sizes| ==> !(l <= sizes[u] < m)
    ensures First(sizes, m) == First(sizes, l) * Pow2(m - l)
    decreases m
  {
    hide Count;
    if l < m {
      Doubling(sizes, l, m - 1);
      NoneYet(sizes, m - 1);
      DoubleProduct(First(sizes, l), Pow2(m - 1 - l));
    }
  }

  lemma DoubleProduct(x: nat, p: nat)
    ensures 2 * (x * p) == x * (2 * p)
  {
  }

  lemma LensCounts()
    ensures Count(DynLens, 2) == 3 && Count(DynLens, 3) == 1 && Count(DynLens, 4) == 2
    ensures Count(DynLens[..16], 3) == 0 && Count(DynLens[..1], 4) == 0
  {
    var a, b, c: Sizes := [0, 4, 2, 4], [0, 0, 0, 0, 0, 0, 0, 0, 0, 0, 0, 0], [3, 2, 2];
    assert DynLens == a + b + c;
    assert [0] + c == [0, 3, 2, 2];
    CountLast3(2);
    CountLast3(3);
    CountLast3(4);
    forall l | 2 <= l <= 4
      ensures Count(DynLens, l) == Count(a, l) + Count(c, l)
    {
      CountAppend(a + b, c, l);
      CountAppend(a, b, l);
      NoneYet(b, l);
    }
    CountOf4(a, 2);
    CountOf4(a, 3);
    CountOf4(a, 4);
    NoneYet(DynLens[..16], 3);
    NoneYet(DynLens[..1], 4);
  }

  lemma CountLast3(l: nat)
    requires l > 0
    ensures Count([3, 2, 2], l) == (if l == 3 then 1 else if l == 2 then 2 else 0)
  {
    CountOf4([0, 3, 2, 2], l);
    assert [0] + [3, 2, 2] == [0, 3, 2, 2];
    CountAppend([0], [3, 2, 2], l);
    NoneYet([0], l);
  }

  lemma LensFirst()
    ensures First(DynLens, 3) == 6 && First(DynLens, 4) == 14 && First(DynLens, 16) == 65536
  {
    hide Count, DynLens;
    LensCounts();
    NoSizeOne();
    Doubling(DynLens, 5, 16);
    assert First(DynLens, 3) == 2 * (First(DynLens, 2) + 3);
    assert First(DynLens, 4) == 2 * (6 + 1);
    assert First(DynLens, 5) == 2 * (14 + 2);
    SmallPowers();
  }

  lemma NoSizeOne()
    ensures First(DynLens, 2) == 0 && Valid(DynLens) && forall u :: 0 <= u < |DynLens| ==> !(5 <= DynLens[u] < 16)
  {
    NothingShorter(DynLens, 2);
  }

  lemma LensCodes()
    ensures IsTable(DynLens) && Code(DynLens, 2) == 0 && Code(DynLens, 17) == 1 && Code(DynLens, 18) == 2
    ensures Code(DynLens, 16) == 6 && Code(DynLens, 1) == 14 && Code(DynLens, 3) == 15
  {
    hide First, Count;
    LensFirst();
    LensCounts();
    NoSizeOne();
    ZerosFirst(DynLens, 2);
    SameSizeConsecutive(DynLens, 2, 17);
    SameSizeConsecutive(DynLens, 17, 18);
    SameSizeConsecutive(DynLens, 1, 3);
  }

  lemma LitSizes(s: nat)
    requires s < 258
    ensures |DynLit| == 258 && DynLit[s] == (if 97 <= s <= 100 then 3 else if s >= 256 then 2 else 0)
  {
  }

  lemma LitCounts2And3()
    ensures Count(DynLit, 2) == 2 && Count(DynLit, 3) == 4
  {
    var a, b, c, d := Repeat(0, 97), [3, 3, 3, 3], Repeat(0, 155), [2, 2];
    forall l | 2 <= l <= 3
      ensures Count(DynLit, l) == Count(b, l) + Count(d, l)
    {
      CountAppend(a + b + c, d, l);
      CountAppend(a + b, c, l);
      CountAppend(a, b, l);
      CountRepeat(0, 97, l);
      CountRepeat(0, 155, l);
    }
    CountOf4(b, 2);
    CountOf4(b, 3);
    assert d == Repeat(2, 2);
    CountRepeat(2, 2, 2);
    CountRepeat(2, 2, 3);
  }

  lemma LitCodes()
    ensures IsTable(DynLit) && |DynLit| == 258 && Code(DynLit, 256) == 0 && Code(DynLit, 257) == 1
    ensures Code(DynLit, 97) == 4 && Code(DynLit, 98) == 5 && Code(DynLit, 99) == 6 && Code(DynLit, 100) == 7
  {
    hide DynLit;
    LitSizes(0);
    forall s | 0 <= s < 258
      ensures DynLit[s] == (if 97 <= s <= 100 then 3 else if s >= 256 then 2 else 0)
    {
      LitSizes(s);
    }
    LitCounts2And3();
    NothingShorter(DynLit, 2);
    assert First(DynLit, 3) == 4 && First(DynLit, 4) == 16;
    Doubling(DynLit, 4, 16);
    SmallPowers();
    ZerosFirst(DynLit, 256);
    SameSizeConsecutive(DynLit, 256, 257);
    NoneYet(DynLit[..97], 3);
    SameSizeConsecutive(DynLit, 97, 98);
    SameSizeConsecutive(DynLit, 98, 99);
    SameSizeConsecutive(DynLit, 99, 100);
  }

  lemma DistCode()
    ensures IsTable(DynDist) && Code(DynDist, 3) == 0
  {
    ZerosFirst(DynDist, 3);
    CountOf4(DynDist, 1);
    OneSize(15);
  }

  lemma {:induction false} OneSize(l: nat)
    ensures Used(DynDist, l) <= 1
    decreases l
  {
    if l > 0 {
      OneSize(l - 1);
      CountOf4(DynDist, l);
      if l == 1 {
        assert Used(DynDist, 0) == 0;
      } else {
        assert Count(DynDist, l) == 0;
      }
    }
  }

  // ----- the run-length codes

  lemma OpNumber(o: Op, c: nat, l: nat, m: nat, w: nat)
    requires o.code < 19 && OpOk(o) && DynLens[o.code] == l && Code(DynLens, o.code) == c
    requires m == (if o.code == 16 then 2 else if o.code == 17 then 3 else if o.code == 18 then 7 else 0)
    requires w == Reversed(c, l) + Pow2(l) * o.extra
    ensures Denotes(OpBits(DynLens, o), w, l + m, Pow2(l + m))
  {
    hide CodeBits, Reversed, ToBits, Value;
    CodeNumber(c, l);
    if o.code < 16 {
      assert CodeBits(c, l) + [] == CodeBits(c, l);
    } else {
      Pow2Values();
      NumberBits(o.extra, m, Pow2(m));
      Joined(CodeBits(c, l), Reversed(c, l), l, Pow2(l), ToBits(o.extra, m), o.extra, m, Pow2(m));
    }
  }

  /** After the first `k` operations: the sizes they give, and the number of `n` bits they are sent as. */
  predicate Sent(clens: Sizes, ops: seq<Op>, k: nat, s: seq<nat>, v: nat, n: nat) {
    && k <= |ops| && OpsCoded(clens, ops[..k]) && Undo(ops[..k]) == Some(s)
    && Denotes(OpsBits(clens, ops[..k]), v, n, Pow2(n))
  }

  lemma OneOp(clens: Sizes, ops: seq<Op>, k: nat, s: seq<nat>, v: nat, n: nat, w: nat, m: nat, s2: seq<nat>)
    requires k < |ops| && Sent(clens, ops, k, s, v, n) && UndoOp(s, ops[k]) == Some(s2)
    requires OpOk(ops[k]) && ops[k].code < 19 == |clens| && clens[ops[k].code] > 0 && Denotes(OpBits(clens, ops[k]), w, m, Pow2(m))
    ensures Sent(clens, ops, k + 1, s2, v + Pow2(n) * w, n + m)
  {
    hide Value, OpBits, UndoOp;
    assert ops[..k + 1][..k] == ops[..k];
    Pow2Add(n, m);
    Joined(OpsBits(clens, ops[..k]), v, n, Pow2(n), OpBits(clens, ops[k]), w, m, Pow2(m));
  }

  lemma NoOps()
    ensures Sent(DynLens, DynOps, 0, [], 0, 0)
  {
  }

  lemma LensAt()
    ensures |DynLens| == 19 && DynLens[1] == 4 && DynLens[2] == 2 && DynLens[3] == 4 && DynLens[16] == 3 && DynLens[17] == 2
    ensures DynLens[18] == 2
  {
  }

  /** The numbers the operations are sent as: the code, and the extra bits above it. */
  lemma OpNumbers()
    ensures Denotes(OpBits(DynLens, Op(18, 86)), 345, 9, Pow2(9)) && Denotes(OpBits(DynLens, Op(18, 127)), 509, 9, Pow2(9))
    ensures Denotes(OpBits(DynLens, Op(17, 7)), 30, 5, Pow2(5)) && Denotes(OpBits(DynLens, Op(17, 4)), 18, 5, Pow2(5))
    ensures Denotes(OpBits(DynLens, Op(17, 0)), 2, 5, Pow2(5)) && Denotes(OpBits(DynLens, Op(16, 0)), 3, 5, Pow2(5))
    ensures Denotes(OpBits(DynLens, Op(3, 0)), 15, 4, Pow2(4)) && Denotes(OpBits(DynLens, Op(2, 0)), 0, 2, Pow2(2))
    ensures Denotes(OpBits(DynLens, Op(1, 0)), 7, 4, Pow2(4))
  {
    hide Denotes, OpBits, Code, DynLens, Reversed, Pow2;
    LensAt();
    LensCodes();
    ReversedCodes();
    Pow2Values();
    OpNumber(Op(18, 86), 2, 2, 7, 345);
    OpNumber(Op(18, 127), 2, 2, 7, 509);
    OpNumber(Op(17, 7), 1, 2, 3, 30);
    OpNumber(Op(17, 4), 1, 2, 3, 18);
    OpNumber(Op(17, 0), 1, 2, 3, 2);
    OpNumber(Op(16, 0), 6, 3, 2, 3);
    OpNumber(Op(3, 0), 15, 4, 0, 15);
    OpNumber(Op(2, 0), 0, 2, 0, 0);
    OpNumber(Op(1, 0), 14, 4, 0, 7);
  }

  lemma ReversedCodes()
    ensures Reversed(0, 2) == 0 && Reversed(1, 2) == 2 && Reversed(2, 2) == 1 && Reversed(6, 3) == 3
    ensures Reversed(14, 4) == 7 && Reversed(15, 4) == 15
  {
    Pow2Values();
  }

  /** What each operation adds to the sizes. */
  lemma SizesGrow()
    ensures UndoOp([], DynOps[0]) == Some(Repeat(0, 97)) && UndoOp(Repeat(0, 97), DynOps[1]) == Some(Repeat(0, 97) + [3])
    ensures UndoOp(Repeat(0, 97) + [3], DynOps[2]) == Some(Repeat(0, 97) + [3, 3, 3, 3])
    ensures UndoOp(Repeat(0, 97) + [3, 3, 3, 3], DynOps[3]) == Some(Zeros(138))
    ensures UndoOp(Zeros(138), DynOps[4]) == Some(Zeros(148)) && UndoOp(Zeros(148), DynOps[5]) == Some(Zeros(155))
    ensures UndoOp(Zeros(155), DynOps[6]) == Some(Zeros(155) + [2]) && UndoOp(Zeros(155) + [2], DynOps[7]) == Some(DynLit)
    ensures UndoOp(DynLit, DynOps[8]) == Some(DynLit + Repeat(0, 3))
    ensures UndoOp(DynLit + Repeat(0, 3), DynOps[9]) == Some(DynLit + DynDist)
  {
    var l := Repeat(0, 97);
    assert [] + Repeat(0, 97) == l && l + [3] + Repeat(3, 3) == l + [3, 3, 3, 3];
    assert Zeros(138) + Repeat(0, 10) == Zeros(148) && Zeros(148) + Repeat(0, 7) == Zeros(155);
    assert Zeros(155) + [2] + [2] == DynLit && DynLit + Repeat(0, 3) + [1] == DynLit + DynDist;
  }

  /** The sizes so far with `n` zeros behind the letters. */
  function Zeros(n: nat): seq<nat> {
    Repeat(0, 97) + [3, 3, 3, 3] + Repeat(0, n)
  }

  lemma OpsAre()
    ensures |DynOps| == 10 && DynOps[0] == Op(18, 86) && DynOps[1] == Op(3, 0) && DynOps[2] == Op(16, 0) && DynOps[3] == Op(18, 127)
    ensures DynOps[4] == Op(17, 7) && DynOps[5] == Op(17, 4) && DynOps[6] == Op(2, 0) && DynOps[7] == Op(2, 0)
    ensures DynOps[8] == Op(17, 0) && DynOps[9] == Op(1, 0)
  {
  }

  /** The ten operations give the sizes of both tables, and are sent as this number of 50 bits. */
  lemma OpsNumber()
    ensures Sent(DynLens, DynOps, 10, DynLit + DynDist, 497060725161817, 50)
  {
    hide DynLens, DynOps, DynLit, DynDist, Repeat, Denotes, Undo, UndoOp, OpBits, OpsBits, Pow2, Sent, Zeros;
    BigPowers();
    Pow2Values();
    SizesGrow();
    OpNumbers();
    LensAt();
    OpsAre();
    NoOps();
    OneOp(DynLens, DynOps, 0, [], 0, 0, 345, 9, Repeat(0, 97));
    OneOp(DynLens, DynOps, 1, Repeat(0, 97), 345, 9, 15, 4, Repeat(0, 97) + [3]);
    OneOp(DynLens, DynOps, 2, Repeat(0, 97) + [3], 8025, 13, 3, 5, Repeat(0, 97) + [3, 3, 3, 3]);
    OneOp(DynLens, DynOps, 3, Repeat(0, 97) + [3, 3, 3, 3], 32601, 18, 509, 9, Zeros(138));
    OneOp(DynLens, DynOps, 4, Zeros(138), 133463897, 27, 30, 5, Zeros(148));
    OneOp(DynLens, DynOps, 5, Zeros(148), 4159995737, 32, 18, 5, Zeros(155));
    OneOp(DynLens, DynOps, 6, Zeros(155), 81469407065, 37, 0, 2, Zeros(155) + [2]);
    OneOp(DynLens, DynOps, 7, Zeros(155) + [2], 81469407065, 39, 0, 2, DynLit);
    OneOp(DynLens, DynOps, 8, DynLit, 81469407065, 41, 2, 5, DynLit + Repeat(0, 3));
    OneOp(DynLens, DynOps, 9, DynLit + Repeat(0, 3), 4479515918169, 46, 7, 4, DynLit + DynDist);
  }

  // ----- the tokens

  lemma LetterNumber(b: byte, w: nat)
    requires 97 <= b <= 100 && w == Reversed(b - 93, 3)
    ensures Coded(DynLit, DynDist, Lit(b)) && Denotes(TokenBits(DynLit, DynDist, Lit(b)), w, 3, Pow2(3))
  {
    hide DynLit, CodeBits, Reversed;
    LitSizes(b);
    LitCodes();
    CodeNumber(b - 93, 3);
  }

  lemma MatchSymbols()
    ensures LenSym(0) == 257 && LenSymExtra(0) == 0 && DistSymOf(3) == 3 && DistSymExtra(3) == 0
  {
  }

  lemma MatchNumber()
    ensures Coded(DynLit, DynDist, Match(3, 4)) && Denotes(TokenBits(DynLit, DynDist, Match(3, 4)), 2, 3, Pow2(3))
  {
    hide DynLit, CodeBits, Reversed, LenSym, LenSymExtra, DistSymOf, DistSymExtra;
    MatchSymbols();
    LitSizes(257);
    LitCodes();
    DistCode();
    CodeNumber(1, 2);
    CodeNumber(0, 1);
    ShortCodes();
    assert CodeBits(1, 2) + [] == CodeBits(1, 2) && CodeBits(0, 1) + [] == CodeBits(0, 1);
    Joined(CodeBits(1, 2), 2, 2, 4, CodeBits(0, 1), 0, 1, 2);
  }

  lemma ShortCodes()
    ensures Reversed(4, 3) == 1 && Reversed(5, 3) == 5 && Reversed(6, 3) == 3 && Reversed(7, 3) == 7
    ensures Reversed(1, 2) == 2 && Reversed(0, 1) == 0 && Reversed(0, 2) == 0 && Pow2(1) == 2 && Pow2(2) == 4 && Pow2(3) == 8
  {
    Pow2Values();
  }

  lemma NoTokens()
    ensures Written(DynLit, DynDist, DynTokens, 0, 0, 0)
  {
  }

  lemma TokensAre()
    ensures |DynTokens| == 5 && DynTokens[0] == Lit(97) && DynTokens[1] == Lit(98) && DynTokens[2] == Lit(99)
    ensures DynTokens[3] == Lit(100) && DynTokens[4] == Match(3, 4)
  {
  }

  lemma TokensNumber()
    ensures Written(DynLit, DynDist, DynTokens, 5, 12009, 15)
  {
    hide DynLit, DynDist, DynTokens, Denotes, Coded, TokenBits, TokensBits, Pow2, Written, Reversed;
    ShortCodes();
    TokensAre();
    SmallPowers();
    NoTokens();
    LetterNumber(97, 1);
    LetterNumber(98, 5);
    LetterNumber(99, 3);
    LetterNumber(100, 7);
    MatchNumber();
    OneToken(DynLit, DynDist, DynTokens, 0, 0, 0, 1, 3);
    OneToken(DynLit, DynDist, DynTokens, 1, 1, 3, 5, 3);
    OneToken(DynLit, DynDist, DynTokens, 2, 41, 6, 3, 3);
    OneToken(DynLit, DynDist, DynTokens, 3, 233, 9, 7, 3);
    OneToken(DynLit, DynDist, DynTokens, 4, 3817, 12, 2, 3);
  }

  lemma DataNumber()
    ensures AllCoded(DynLit, DynDist, DynTokens) && |DynLit| == 258
    ensures Denotes(BlockData(DynLit, DynDist, DynTokens), 12009, 17, 0x2_0000)
  {
    hide DynLit, DynDist, DynTokens, TokensBits, CodeBits, Reversed, Value;
    TokensNumber();
    LitSizes(256);
    LitCodes();
    CodeNumber(0, 2);
    ShortCodes();
    Pow2Values();
    TokensAre();
    assert DynTokens[..5] == DynTokens;
    Joined(TokensBits(DynLit, DynDist, DynTokens), 12009, 15, 32768, CodeBits(0, 2), 0, 2, 4);
  }

  // ----- the header

  function SizesNumber(clens: Sizes, k: nat): nat
    requires k <= 19 == |clens|
  {
    if k == 0 then 0 else SizesNumber(clens, k - 1) + Pow2(3 * (k - 1)) * clens[Dezigzag(k - 1)]
  }

  lemma {:induction false} SizesDenote(k: nat)
    requires k <= 19
    ensures Denotes(SizesBits(DynLens, k), SizesNumber(DynLens, k), 3 * k, Pow2(3 * k))
    decreases k
  {
    if k > 0 {
      var three := 3;
      SizesDenote(k - 1);
      Pow2Values();
      NumberBits(DynLens[Dezigzag(k - 1)], three, 8);
      Pow2Add(3 * (k - 1), 3);
      Joined(SizesBits(DynLens, k - 1), SizesNumber(DynLens, k - 1), 3 * (k - 1), Pow2(3 * (k - 1)),
        ToBits(DynLens[Dezigzag(k - 1)], three), DynLens[Dezigzag(k - 1)], three, 8);
    }
  }

  lemma NextSize(k: nat, z: nat)
    requires k < 19 && DynLens[Dezigzag(k)] == z
    ensures SizesNumber(DynLens, k + 1) == SizesNumber(DynLens, k) + Pow2(3 * k) * z
    ensures z == 0 ==> SizesNumber(DynLens, k + 1) == SizesNumber(DynLens, k)
  {
    hide DynLens, Pow2;
  }

  lemma ZeroAt(k: nat)
    requires 3 <= k <= 12
    ensures |DynLens| == 19 && DynLens[Dezigzag(k)] == 0
  {
    var j := Dezigzag(k);
    assert j == 0 || 4 <= j <= 12;
  }

  lemma {:induction false} ZerosBetween(k: nat)
    requires 3 <= k <= 13
    ensures SizesNumber(DynLens, k) == SizesNumber(DynLens, 3)
  {
    hide Pow2, DynLens, SizesNumber, Dezigzag;
    if k > 3 {
      ZerosBetween(k - 1);
      ZeroAt(k - 1);
      NextSize(k - 1, 0);
    }
  }

  lemma SizesAre()
    ensures SizesNumber(DynLens, 18) == 9079767022174355
  {
    hide SizesNumber, Pow2;
    Pow2Values();
    SmallPowers();
    BigPowers();
    Pow2Add(39, 6);
    Pow2Add(46, 5);
    NothingSent();
    NextSize(0, 3);
    NextSize(1, 2);
    NextSize(2, 2);
    ZerosBetween(13);
    NextSize(13, 4);
    NextSize(14, 0);
    NextSize(15, 2);
    NextSize(16, 0);
    NextSize(17, 4);
  }

  lemma NothingSent()
    ensures SizesNumber(DynLens, 0) == 0
  {
  }

  lemma CountsNumber()
    ensures Denotes(CountsBits(DynHeader), 14433, 14, 0x4000)
  {
    hide ToBits, Value;
    var five, four := 5, 4;
    Pow2Values();
    NumberBits(1, five, 32);
    NumberBits(3, five, 32);
    NumberBits(14, four, 16);
    Joined(ToBits(1, five), 1, five, 32, ToBits(3, five), 3, five, 32);
    Joined(ToBits(1, five) + ToBits(3, five), 97, 10, 1024, ToBits(14, four), 14, four, 16);
  }

  lemma LensSent()
    ensures |DynLens| == 19 && (forall j :: 0 <= j < 19 ==> DynLens[j] < 8) && DynLens[Dezigzag(18)] == 0
  {
    assert Dezigzag(18) == 15;
  }

  lemma HeaderGood()
    ensures HeaderOk(DynHeader, DynLit + DynDist) && (DynLit + DynDist)[..258] == DynLit && (DynLit + DynDist)[258..] == DynDist
  {
    hide DynLit, DynOps, DynLens, Undo, OpsBits, Denotes, IsTable, Dezigzag;
    LensCodes();
    LensSent();
    OpsNumber();
    LitSizes(0);
    OpsAre();
    assert DynOps[..10] == DynOps;
  }

  lemma SizesNumbered()
    ensures Denotes(SizesBits(DynLens, 18), 9079767022174355, 54, 0x40_0000_0000_0000)
  {
    hide Value, SizesBits, SizesNumber;
    SizesDenote(18);
    SizesAre();
    BigPowers();
    Pow2Values();
    Pow2Add(50, 4);
  }

  lemma HeaderNumber()
    requires OpsCoded(DynLens, DynOps)
    ensures Denotes(DynamicHead(true, DynHeader), 1173651454227523743888738665009496845, 121, 0x200_0000_0000_0000_0000_0000_0000_0000)
  {
    hide Denotes, HeadBits, CountsBits, SizesBits, OpsBits, DynLens, DynOps;
    HeadNumber(2);
    CountsNumber();
    SizesNumbered();
    OpsSent();
    var a, b := HeadBits(true, 2), CountsBits(DynHeader);
    var c, d := SizesBits(DynLens, 18), OpsBits(DynLens, DynOps);
    Joined(a, 5, 3, 8, b, 14433, 14, 0x4000);
    Joined(a + b, 115469, 17, 0x2_0000, c, 9079767022174355, 54, 0x40_0000_0000_0000);
    Joined(a + b + c, 1190103223130437174029, 71, 0x80_0000_0000_0000_0000, d, 497060725161817, 50, 0x4_0000_0000_0000);
  }

  lemma OpsSent()
    ensures OpsCoded(DynLens, DynOps) && Denotes(OpsBits(DynLens, DynOps), 497060725161817, 50, 0x4_0000_0000_0000)
  {
    hide OpsBits, Value, DynLens;
    OpsNumber();
    BigPowers();
    assert DynOps[..10] == DynOps;
  }

  // ----- the stream

  lemma MatchCopied()
    ensures CopyOut([97, 98, 99, 100], 3, 4) == [97, 98, 99, 100, 97, 98, 99]
  {
    var abcd: seq<byte> := [97, 98, 99, 100];
    assert CopyOut(abcd + [97] + [98], 1, 4) == CopyOut(abcd + [97] + [98] + [99], 0, 4);
    assert CopyOut(abcd + [97], 2, 4) == CopyOut(abcd + [97] + [98], 1, 4);
    assert CopyOut(abcd, 3, 4) == CopyOut(abcd + [97], 2, 4);
  }

  lemma Expanded()
    ensures Expand([], DynTokens) == Some([97, 98, 99, 100, 97, 98, 99])
  {
    hide DynTokens, CopyOut;
    TokensAre();
    assert Expand([], DynTokens[..0]) == Some([]);
    assert [] + [97] == [97] && [97] + [98] == [97, 98] && [97, 98] + [99] == [97, 98, 99];
    assert [97, 98, 99] + [100] == [97, 98, 99, 100];
    OneMore(DynTokens, 0, []);
    OneMore(DynTokens, 1, [97]);
    OneMore(DynTokens, 2, [97, 98]);
    OneMore(DynTokens, 3, [97, 98, 99]);
    OneMore(DynTokens, 4, [97, 98, 99, 100]);
    MatchCopied();
    assert DynTokens[..5] == DynTokens;
  }

  lemma BytesNumber()
    ensures Denotes(BytesToBits(DynBytes), 31926571654216336959147526712478325523213, 144, 0x1_0000_0000_0000_0000_0000_0000_0000_0000_0000)
  {
    hide BytesToBits, Value, Denotes;
    var a, b, c: seq<byte> := [13, 195, 39, 1, 0, 0], [0, 132, 192, 172, 63, 250], [123, 9, 226, 210, 93, 0];
    SixBytes(13, 195, 39, 1, 0, 0);
    SixBytes(0, 132, 192, 172, 63, 250);
    SixBytes(123, 9, 226, 210, 93, 0);
    assert DynBytes == a + b + c;
    BytesToBitsAppend(a + b, c);
    BytesToBitsAppend(a, b);
    Joined(BytesToBits(a), 19383053, 48, 0x1_0000_0000_0000, BytesToBits(b), 275151388181504, 48, 0x1_0000_0000_0000);
    Joined(BytesToBits(a) + BytesToBits(b), 77448230580293506963438289677, 96, 0x1_0000_0000_0000_0000_0000_0000,
      BytesToBits(c), 402969987451, 48, 0x1_0000_0000_0000);
  }

  /** These 18 bytes, one dynamic block, are the text abcdabc. */
  lemma Inflated()
    ensures exists end :: Deflated(DynBytes, end) && end.out == [97, 98, 99, 100, 97, 98, 99] && end.rest == []
  {
    hide DynLit, DynDist, DynLens, DynOps, DynTokens, Deflated, BytesToBits, ToBits, Denotes, HeaderOk, Expand, BlockData, DynamicHead;
    var six, sizes := 6, DynLit + DynDist;
    HeaderGood();
    LitCodes();
    LitSizes(256);
    DistCode();
    DataNumber();
    Expanded();
    DynamicRead(Start, true, DynHeader, sizes, DynTokens, []);
    OpsSent();
    HeaderNumber();
    var a, b, pad := DynamicHead(true, DynHeader), BlockData(DynLit, DynDist, DynTokens), ToBits(0, six);
    Joined(a, 1173651454227523743888738665009496845, 121, 0x200_0000_0000_0000_0000_0000_0000_0000, b, 12009, 17, 0x2_0000);
    ZeroBits(six);
    SmallPowers();
    Joined(a + b, 31926571654216336959147526712478325523213, 138, 0x400_0000_0000_0000_0000_0000_0000_0000_0000, pad, 0, six, 64);
    BytesNumber();
    SameNumber(BytesToBits(DynBytes), a + b + pad, 31926571654216336959147526712478325523213, 144, 0x1_0000_0000_0000_0000_0000_0000_0000_0000_0000);
    var end := Ref(Next(WithTables(Start, true, DynHeader, sizes), true).(ctl := Ctl.Done), [], [97, 98, 99, 100, 97, 98, 99]);
    OneBlock(DynBytes, a + b, pad, Next(WithTables(Start, true, DynHeader, sizes), true), [97, 98, 99, 100, 97, 98, 99]);
    assert Deflated(DynBytes, end);
  }
}
