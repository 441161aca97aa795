/** How long the data of a dynamic block can be. The tables chosen cost little more than any prefix code,
    so a plain code with 9 bits for literals, 6 for lengths and 5 for distances bounds them; measured
    against the code buffer that code spends 232 bits on 25 bytes at most. */
module BlockSize {
  import opened Bits
  import opened Canonical
  import opened Sums
  import opened RankedSymbols
  import opened LimitPenalty
  import opened HuffmanTable
  import opened SymbolTables
  import opened Tokens
  import opened TokenBytes
  import opened TokenBuffer

  // ----- the bits of a token list as the cost of its counts

  function LitCounts(ts: seq<Token>): (c: seq<nat>)
    requires AllOk(ts)
    ensures |c| == 288 && forall s :: 0 <= s < 288 ==> c[s] == LitCount(ts, s)
  {
    seq(288, s requires 0 <= s < 288 => LitCount(ts, s))
  }

  function DistCounts(ts: seq<Token>): (c: seq<nat>)
    requires AllOk(ts)
    ensures |c| == 32 && forall s :: 0 <= s < 32 ==> c[s] == DistCount(ts, s)
  {
    seq(32, s requires 0 <= s < 32 => DistCount(ts, s))
  }

  /** Extra bits of the lengths and distances, which no table changes. */
  function ExtraOf(t: Token): nat
    requires TokenOk(t)
  {
    if t.Lit? then 0 else LenSymExtra(t.len - 3) + DistSymExtra(t.dist - 1)
  }

  function ExtraBits(ts: seq<Token>): nat
    requires AllOk(ts)
  {
    if ts == [] then 0 else ExtraBits(ts[..|ts| - 1]) + ExtraOf(ts[|ts| - 1])
  }

  lemma {:induction false} CostSwapped(w: seq<nat>, l: seq<nat>)
    requires |w| == |l|
    ensures Cost(w, l) == Cost(l, w)
    decreases |w|
  {
    if w != [] {
      CostSwapped(w[1..], l[1..]);
      assert w[0] * l[0] == l[0] * w[0];
    }
  }

  lemma CountedOnce(w: seq<nat>, l: seq<nat>, i: nat)
    requires |w| == |l| && i < |w|
    ensures Cost(w[i := w[i] + 1], l) == Cost(w, l) + l[i]
  {
    CostSwapped(w, l);
    CostSwapped(w[i := w[i] + 1], l);
    CostUpdate(l, w, i, w[i] + 1);
    assert l[i] * (w[i] + 1) == l[i] * w[i] + l[i];
  }

  lemma {:induction false} NothingCounted(w: seq<nat>, l: seq<nat>)
    requires |w| == |l| && forall i :: 0 <= i < |w| ==> w[i] == 0
    ensures Cost(w, l) == 0
    decreases |w|
  {
    if w != [] {
      NothingCounted(w[1..], l[1..]);
    }
  }

  lemma CountsStep(ts: seq<Token>)
    requires AllOk(ts) && ts != []
    ensures var a, t, c := ts[..|ts| - 1], ts[|ts| - 1], LitCounts(ts[..|ts| - 1]);
      LitCounts(ts) == c[LitSymOf(t) := c[LitSymOf(t)] + 1]
    ensures var a, t, c := ts[..|ts| - 1], ts[|ts| - 1], DistCounts(ts[..|ts| - 1]);
      DistCounts(ts) == if t.Lit? then c else c[DistSymbolOf(t) := c[DistSymbolOf(t)] + 1]
  {
  }

  lemma TokenCost(lit: Sizes, dist: Sizes, t: Token)
    requires |lit| == 288 && |dist| == 32 && TokenOk(t) && Coded(lit, dist, t)
    ensures |TokenBits(lit, dist, t)| == lit[LitSymOf(t)] + (if t.Lit? then 0 else dist[DistSymbolOf(t)]) + ExtraOf(t)
  {
  }

  lemma {:induction false} TokensCost(lit: Sizes, dist: Sizes, ts: seq<Token>)
    requires |lit| == 288 && |dist| == 32 && AllOk(ts) && AllCoded(lit, dist, ts)
    ensures |TokensBits(lit, dist, ts)| == Cost(LitCounts(ts), lit) + Cost(DistCounts(ts), dist) + ExtraBits(ts)
    decreases |ts|
  {
    hide Cost, LitCounts, DistCounts, LitSymOf, DistSymbolOf, Coded, TokenBits;
    if ts == [] {
      NoTokens(ts);
      NothingCounted(LitCounts(ts), lit);
      NothingCounted(DistCounts(ts), dist);
    } else {
      var init, t := ts[..|ts| - 1], ts[|ts| - 1];
      TokensCost(lit, dist, init);
      TokenCost(lit, dist, t);
      CountsStep(ts);
      CountedOnce(LitCounts(init), lit, LitSymOf(t));
      if t.Match? {
        CountedOnce(DistCounts(init), dist, DistSymbolOf(t));
      }
    }
  }

  lemma NoTokens(ts: seq<Token>)
    requires ts == []
    ensures forall i :: 0 <= i < 288 ==> LitCounts(ts)[i] == 0
    ensures forall i :: 0 <= i < 32 ==> DistCounts(ts)[i] == 0
  {
  }

  // ----- a plain code

  const PlainLit: Sizes := seq(288, s => if s <= 256 then 9 else 6)
  const PlainDist: Sizes := seq(32, s => 5)

  lemma {:induction false} NoHighSymbols(ts: seq<Token>, s: nat)
    requires AllOk(ts)
    ensures s >= 286 ==> LitCount(ts, s) == 0
    ensures s >= 30 ==> DistCount(ts, s) == 0
    decreases |ts|
  {
    if ts != [] {
      NoHighSymbols(ts[..|ts| - 1], s);
    }
  }

  /** Room the plain code takes for the first `n` literal/length symbols, in units of nine bits. */
  function PlainRoom(n: nat): nat {
    if n <= 257 then n else 257 + 8 * (n - 257)
  }

  lemma {:induction false} PlainLitRoom(count: seq<nat>, n: nat)
    requires |count| == 288 && n <= 288
    ensures SumBy(UsedSyms(count[..n]), KraftOf(PlainLit, 9)) <= PlainRoom(n)
    decreases n
  {
    hide UsedSyms;
    if n == 0 {
      assert count[..0] == [];
    } else {
      PlainLitRoom(count, n - 1);
      assert count[..n][..n - 1] == count[..n - 1];
      UsedStep(count[..n], n - 1, KraftOf(PlainLit, 9));
      assert Pow2(0) == 1 && Pow2(3) == 8;
    }
  }

  lemma {:induction false} PlainDistRoom(count: seq<nat>, n: nat)
    requires |count| == 32 && n <= 32
    ensures SumBy(UsedSyms(count[..n]), KraftOf(PlainDist, 5)) <= n
    decreases n
  {
    hide UsedSyms;
    if n == 0 {
      assert count[..0] == [];
    } else {
      PlainDistRoom(count, n - 1);
      assert count[..n][..n - 1] == count[..n - 1];
      UsedStep(count[..n], n - 1, KraftOf(PlainDist, 5));
      assert Pow2(0) == 1;
    }
  }

  /** The plain code is a prefix code for the symbols that occur. */
  lemma PlainIsCode(lits: seq<nat>, dists: seq<nat>)
    requires |lits| == 288 && lits[286] == lits[287] == 0 && |dists| == 32
    ensures IsCodeFor(lits, PlainLit, 9) && IsCodeFor(dists, PlainDist, 5)
  {
    hide UsedSyms, KraftOf;
    var f := KraftOf(PlainLit, 9);
    PlainLitRoom(lits, 286);
    assert lits[..287][..286] == lits[..286] && lits[..288] == lits && lits[..288][..287] == lits[..287] && dists[..32] == dists;
    UsedStep(lits[..287], 286, f);
    UsedStep(lits, 287, f);
    PlainDistRoom(dists, 32);
    Pow2Values();
    assert Pow2(9) == 2 * Pow2(8);
  }

  lemma PlainCoded(ts: seq<Token>)
    requires AllOk(ts)
    ensures AllCoded(PlainLit, PlainDist, ts)
  {
    forall i | 0 <= i < |ts|
      ensures Coded(PlainLit, PlainDist, ts[i])
    {
      var s := LitSymOf(ts[i]);
      if ts[i].Match? {
        LengthsAgree(ts[i].len - 3);
        DistancesAgree(ts[i].dist - 1);
      }
    }
  }

  lemma PlainTokenSize(t: Token)
    requires TokenOk(t) && Coded(PlainLit, PlainDist, t)
    ensures 25 * |TokenBits(PlainLit, PlainDist, t)| <= 232 * |Data(t)| + 29
  {
    match t
    case Lit(b) =>
    case Match(len, d) =>
      LengthsAgree(len - 3);
      DistancesAgree(d - 1);
  }

  lemma {:induction false} PlainTokensSize(ts: seq<Token>)
    requires AllOk(ts) && AllCoded(PlainLit, PlainDist, ts)
    ensures 25 * |TokensBits(PlainLit, PlainDist, ts)| <= 232 * |AllData(ts)| + 29 * |ts|
    decreases |ts|
  {
    if ts != [] {
      PlainTokensSize(ts[..|ts| - 1]);
      PlainTokenSize(ts[|ts| - 1]);
    }
  }

  lemma AllOkAppend(a: seq<Token>, b: seq<Token>)
    requires AllOk(a) && AllOk(b)
    ensures AllOk(a + b)
  {
  }

  lemma {:induction false} AllDataAppend(a: seq<Token>, b: seq<Token>)
    requires AllOk(a) && AllOk(b) && AllOk(a + b)
    ensures |AllData(a + b)| == |AllData(a)| + |AllData(b)|
    decreases |b|
  {
    hide Data;
    if b == [] {
      assert a + b == a;
    } else {
      var n := |b| - 1;
      var init := a + b[..n];
      assert (a + b)[..|a + b| - 1] == init;
      AllDataAppend(a, b[..n]);
    }
  }

  lemma {:induction false} PackedSize(all: seq<seq<Token>>)
    requires forall j :: 0 <= j < |all| ==> GroupOk(all[j])
    ensures AllOk(Join(all)) && |Join(all)| <= 8 * |all| && |Pack(all)| == |all| + |AllData(Join(all))|
    decreases |all|
  {
    if all != [] {
      var n := |all| - 1;
      PackedSize(all[..n]);
      AllOkAppend(Join(all[..n]), all[n]);
      AllDataAppend(Join(all[..n]), all[n]);
    }
  }

  /** In the plain code, the tokens of a code buffer take at most 232 bits for 25 of its bytes. */
  lemma PlainSize(bytes: seq<byte>, all: seq<seq<Token>>, ts: seq<Token>)
    requires Closed(bytes, all, ts) && AllOk(ts) && AllCoded(PlainLit, PlainDist, ts)
    ensures 25 * |TokensBits(PlainLit, PlainDist, ts)| <= 232 * |bytes|
  {
    PackedSize(all);
    PlainTokensSize(ts);
  }

  // ----- the tables chosen

  /** A good table costs little more than a code with sizes of at least one. */
  lemma TableNear(count: seq<nat>, sizes: Sizes, plain: Sizes, m: nat)
    requires GoodTable(count, sizes, 15) && Sum(count) < 0x1_0000 && |count| <= 288 && IsCodeFor(count, plain, m)
    requires |plain| == |count| && forall i :: 0 <= i < |plain| ==> plain[i] >= 1
    ensures Cost(count, sizes) <= Cost(count, plain) + Extra(|count|)
  {
    hide UsedSyms, IsCodeFor, Cost, Sum, IsTable, Complete;
    var n := |UsedSyms(count)|;
    if n >= 2 {
      assert CheapWithin(count, sizes, Extra(n));
    } else {
      CostMonotone(count, sizes, plain);
    }
  }

  /** What the tables of a dynamic block can cost beyond the plain code: 60096 bits and 5724 bits. */
  const TABLE_LOSS: nat := 65820

  /** The data of a dynamic block is not much longer than in the plain code. */
  lemma DynamicDataSize(bytes: seq<byte>, all: seq<seq<Token>>, ts: seq<Token>, lits: seq<nat>, dists: seq<nat>, lit: Sizes, dist: Sizes)
    requires Closed(bytes, all, ts) && LitsCounted(lits, ts) && DistsCounted(dists, ts) && |ts| <= 58254
    requires GoodTable(lits[256 := 1], lit, 15) && GoodTable(dists, dist, 15) && AllCoded(lit, dist, ts)
    ensures 25 * |BlockData(lit, dist, ts)| <= 232 * |bytes| + 25 * (9 + TABLE_LOSS)
  {
    hide GoodTable, IsCodeFor, Cost, AllCoded, TokensBits, Closed, LitCounts, DistCounts, LitCount, DistCount, ExtraBits;
    Counted256(ts, lits, dists);
    var lc := lits[256 := 1];
    SumUpdate(lits, 256, 1);
    assert lits == LitCounts(ts) && dists == DistCounts(ts) && lc == lits[256 := lits[256] + 1];
    PlainCoded(ts);
    PlainIsCode(lc, dists);
    GoodLengths(lc, lit);
    GoodLengths(dists, dist);
    TableNear(lc, lit, PlainLit, 9);
    TableNear(dists, dist, PlainDist, 5);
    CountedOnce(lits, lit, 256);
    CountedOnce(lits, PlainLit, 256);
    TokensCost(lit, dist, ts);
    TokensCost(PlainLit, PlainDist, ts);
    PlainSize(bytes, all, ts);
    assert Extra(288) + Extra(32) == TABLE_LOSS;
  }

  lemma GoodLengths(count: seq<nat>, sizes: Sizes)
    requires GoodTable(count, sizes, 15)
    ensures |sizes| == |count|
  {
  }

  lemma Counted256(ts: seq<Token>, lits: seq<nat>, dists: seq<nat>)
    requires LitsCounted(lits, ts) && DistsCounted(dists, ts)
    ensures lits[256] == 0 && lits[286] == 0 && lits[287] == 0
    ensures lits == LitCounts(ts) && dists == DistCounts(ts)
  {
    NoHighSymbols(ts, 286);
    NoHighSymbols(ts, 287);
    NoEndSymbol(ts);
  }

  lemma {:induction false} NoEndSymbol(ts: seq<Token>)
    requires AllOk(ts)
    ensures LitCount(ts, 256) == 0
    decreases |ts|
  {
    if ts != [] {
      NoEndSymbol(ts[..|ts| - 1]);
    }
  }
}
