/** Writing the recorded tokens as a static or dynamic block. */
module BlockWriter {
  import opened Bits
  import opened Canonical
  import opened HuffmanBuilder
  import opened HuffmanTable
  import opened Sums
  import opened InflateSpec
  import opened Blocks
  import opened SymbolTables
  import opened Tokens
  import opened TokenBytes
  import opened TokenBuffer
  import opened TableTrim
  import opened TokenWriter
  import opened HeaderWriter
  import opened BitSink
  import opened BlockSize

  // ----- the tables of a dynamic block

  lemma {:induction false} CountedLit(ts: seq<Token>, i: nat)
    requires AllOk(ts) && i < |ts|
    ensures LitCount(ts, LitSymOf(ts[i])) > 0
    ensures ts[i].Match? ==> DistCount(ts, DistSymbolOf(ts[i])) > 0
    decreases |ts|
  {
    if i < |ts| - 1 {
      CountedLit(ts[..|ts| - 1], i);
    }
  }

  lemma TokenCoded(ts: seq<Token>, i: nat, litCount: seq<nat>, distCount: seq<nat>, lit: Sizes, dist: Sizes)
    requires LitsCounted(litCount, ts) && DistsCounted(distCount, ts) && i < |ts|
    requires |lit| == 288 && forall s :: 0 <= s < 288 && litCount[s] > 0 ==> lit[s] > 0
    requires |dist| == 32 && forall s :: 0 <= s < 32 && distCount[s] > 0 ==> dist[s] > 0
    ensures Coded(lit, dist, ts[i])
  {
    CountedLit(ts, i);
    var s: nat := LitSymOf(ts[i]);
    assert litCount[s] == LitCount(ts, s) && lit[s] > 0;
    if ts[i].Match? {
      var d: nat := DistSymbolOf(ts[i]);
      assert distCount[d] == DistCount(ts, d) && dist[d] > 0;
    }
  }

  /** The tables give every symbol in use a code. */
  lemma TablesCover(ts: seq<Token>, litCount: seq<nat>, distCount: seq<nat>, lit: Sizes, dist: Sizes)
    requires LitsCounted(litCount, ts) && DistsCounted(distCount, ts)
    requires GoodTable(litCount[256 := 1], lit, MAX_SIZE) && GoodTable(distCount, dist, MAX_SIZE)
    ensures Alphabets(lit, dist) && lit[256] > 0 && AllCoded(lit, dist, ts)
  {
    forall s | 286 <= s < 288
      ensures lit[s] == 0
    {
      NoHighSymbols(ts, s);
    }
    forall s | 30 <= s < 32
      ensures dist[s] == 0
    {
      NoHighSymbols(ts, s);
    }
    assert forall s :: 0 <= s < 288 && litCount[s] > 0 ==> lit[s] > 0;
    forall i | 0 <= i < |ts|
      ensures Coded(lit, dist, ts[i])
    {
      TokenCoded(ts, i, litCount, distCount, lit, dist);
    }
  }

  method DynamicTables(litCount: array<u16>, distCount: array<u16>, ghost ts: seq<Token>) returns (lit: Table, dist: Table)
    requires litCount != distCount && LitsCounted(litCount[..], ts) && DistsCounted(distCount[..], ts) && |ts| <= 58254
    modifies litCount
    ensures TableOk(lit) && TableOk(dist) && IsTable(lit.sizes) && IsTable(dist.sizes)
    ensures Alphabets(lit.sizes, dist.sizes) && lit.sizes[256] > 0 && AllCoded(lit.sizes, dist.sizes, ts)
    ensures GoodTable(old(litCount[..])[256 := 1], lit.sizes, 15) && GoodTable(distCount[..], dist.sizes, 15)
  {
    ghost var lc: seq<nat>, dc: seq<nat> := litCount[..], distCount[..];
    SumUpdate(lc, 256, 1);
    Pow2Values();
    litCount[256] := 1;
    assert litCount[..] == lc[256 := 1] && distCount[..] == dc;
    lit := BuildTable(litCount, MAX_SIZE);
    dist := BuildTable(distCount, MAX_SIZE);
    TablesCover(ts, lc, dc, lit.sizes, dist.sizes);
  }

  // ----- blocks

  /** The bits put for a block after its first bit, and where they lead. */
  ghost predicate BlockPut(final: bool, bits: Stream, ts: seq<Token>, r: Regs, out: seq<byte>, r2: Regs) {
    && Expand(out, ts).Some? && r2.ctl == (if final then LastAlign else BlockHead)
    && Always(r, [final] + bits, out, r2, Expand(out, ts).value)
  }

  method PutData(sink: Sink, codes: array<byte>, end: nat, lit: Table, dist: Table, ghost all: seq<seq<Token>>, ghost ts: seq<Token>)
    requires sink.Valid() && TableOk(lit) && TableOk(dist) && AllCoded(lit.sizes, dist.sizes, ts)
    requires |lit.sizes| > 256 && lit.sizes[256] > 0
    requires end <= codes.Length && Closed(codes[..end], all, ts)
    modifies sink
    ensures sink.Valid() && sink.sent == old(sink.sent) + BlockData(lit.sizes, dist.sizes, ts)
    ensures sink.before == old(sink.before) && old(sink.full) <= sink.full
  {
    PutTokens(sink, codes, end, lit, dist, all, ts);
    PutSymbol(sink, lit, 256);
    Assoc(old(sink.sent), TokensBits(lit.sizes, dist.sizes, ts), SymbolBits(lit.sizes, 256));
  }

  lemma StaticCoded(ts: seq<Token>, i: nat)
    requires AllOk(ts) && i < |ts|
    ensures Coded(StaticLit, StaticDist, ts[i])
  {
    var s, t := LitSymOf(ts[i]), ts[i];
    if t.Match? {
      LengthsAgree(t.len - 3);
      DistancesAgree(t.dist - 1);
    }
  }

  lemma AllStaticCoded(ts: seq<Token>)
    requires AllOk(ts)
    ensures AllCoded(StaticLit, StaticDist, ts)
  {
    forall i | 0 <= i < |ts|
      ensures Coded(StaticLit, StaticDist, ts[i])
    {
      StaticCoded(ts, i);
    }
  }

  // ----- how long a static block can be

  lemma StaticSizes(s: nat)
    requires s < 288
    ensures StaticLit[s] <= 9 && (s >= 256 ==> StaticLit[s] <= 8)
    ensures s < 32 ==> StaticDist[s] == 5
  {
  }

  lemma StaticTokenSize(t: Token)
    requires TokenOk(t) && Coded(StaticLit, StaticDist, t)
    ensures |TokenBits(StaticLit, StaticDist, t)| <= 10 * |Data(t)| + 1
  {
    match t
    case Lit(b) => StaticSizes(b);
    case Match(len, d) =>
      LengthsAgree(len - 3);
      DistancesAgree(d - 1);
      StaticSizes(LenSym(len - 3));
      StaticSizes(DistSymOf(d - 1));
  }

  lemma {:induction false} StaticTokensSize(ts: seq<Token>)
    requires AllOk(ts) && AllCoded(StaticLit, StaticDist, ts)
    ensures |TokensBits(StaticLit, StaticDist, ts)| <= 10 * |AllData(ts)| + |ts|
    decreases |ts|
  {
    if ts != [] {
      StaticTokensSize(ts[..|ts| - 1]);
      StaticTokenSize(ts[|ts| - 1]);
    }
  }

  /** Ten bits for every byte of the code buffer are enough. */
  lemma StaticSize(bytes: seq<byte>, all: seq<seq<Token>>, ts: seq<Token>)
    requires Closed(bytes, all, ts) && AllCoded(StaticLit, StaticDist, ts)
    ensures |BlockData(StaticLit, StaticDist, ts)| <= 10 * |bytes| + 7
  {
    PackedSize(all);
    StaticTokensSize(ts);
  }

  lemma StaticPut(final: bool, ts: seq<Token>, r: Regs, out: seq<byte>) returns (r2: Regs)
    requires r.ctl.BlockHead? && Expand(out, ts).Some? && AllCoded(StaticLit, StaticDist, ts)
    ensures BlockPut(final, ToBits(1, 2) + BlockData(StaticLit, StaticDist, ts), ts, r, out, r2)
  {
    hide Always, ToBits, BlockData, Expand, AllCoded, HeadBits;
    var data, out2 := BlockData(StaticLit, StaticDist, ts), Expand(out, ts).value;
    StaticRead(r, final, ts, out);
    r2 := Next(r.(lit := StaticLit, dist := StaticDist), final);
    HeadIs(final, 1);
    Assoc([final], ToBits(1, 2), data);
    SameBits(r, StaticBits(final, ts), [final] + (ToBits(1, 2) + data), out, r2, out2);
  }

  lemma HeadIs(final: bool, kind: nat)
    ensures HeadBits(final, kind) == [final] + ToBits(kind, 2)
  {
  }

  method PutStaticBits(sink: Sink, codes: array<byte>, end: nat, ghost all: seq<seq<Token>>, ghost ts: seq<Token>)
    requires sink.Valid() && end <= codes.Length && Closed(codes[..end], all, ts) && AllCoded(StaticLit, StaticDist, ts)
    modifies sink
    ensures sink.Valid() && sink.sent == old(sink.sent) + (ToBits(1, 2) + BlockData(StaticLit, StaticDist, ts))
    ensures sink.before == old(sink.before) && old(sink.full) <= sink.full
  {
    StaticTables();
    ghost var data := BlockData(StaticLit, StaticDist, ts);
    var lit := FixedTable(StaticLit);
    var dist := FixedTable(StaticDist);
    PutKind(sink, 1);
    PutData(sink, codes, end, lit, dist, all, ts);
    Assoc(old(sink.sent), ToBits(1, 2), data);
  }

  /** A static block. */
  method PutStatic(sink: Sink, codes: array<byte>, end: nat, ghost final: bool, ghost all: seq<seq<Token>>, ghost ts: seq<Token>,
                   ghost r: Regs, ghost out: seq<byte>) returns (ghost bits: Stream, ghost r2: Regs)
    requires sink.Valid() && end <= codes.Length && Closed(codes[..end], all, ts) && AllOk(ts)
    requires r.ctl.BlockHead? && Expand(out, ts).Some?
    modifies sink
    ensures sink.Valid() && sink.sent == old(sink.sent) + bits && BlockPut(final, bits, ts, r, out, r2)
    ensures |bits| <= 10 * end + 9
    ensures sink.before == old(sink.before) && old(sink.full) <= sink.full
  {
    AllStaticCoded(ts);
    bits := ToBits(1, 2) + BlockData(StaticLit, StaticDist, ts);
    StaticSize(codes[..end], all, ts);
    r2 := StaticPut(final, ts, r, out);
    PutStaticBits(sink, codes, end, all, ts);
  }

  method PutKind(sink: Sink, kind: nat)
    requires sink.Valid() && kind < 4
    modifies sink
    ensures sink.Valid() && sink.sent == old(sink.sent) + ToBits(kind, 2)
    ensures sink.before == old(sink.before) && old(sink.full) <= sink.full
  {
    Pow2Values();
    sink.PutBits(kind, 2);
  }

  lemma DataTrimmed(lit: Sizes, nlit: nat, dist: Sizes, ndist: nat, ts: seq<Token>)
    requires Alphabets(lit, dist) && lit[256] > 0 && AllCoded(lit, dist, ts) && ZeroFrom(lit, nlit) && ZeroFrom(dist, ndist)
    ensures AllCoded(lit[..nlit], dist[..ndist], ts) && nlit > 256
    ensures BlockData(lit[..nlit], dist[..ndist], ts) == BlockData(lit, dist, ts)
  {
    AllCodedTrimmed(lit, nlit, dist, ndist, ts);
    TokensTrimmed(lit, nlit, dist, ndist, ts);
    SymbolTrimmed(lit, nlit, 256);
  }

  /** The dynamic header and data, as put with the full tables, are a block for the decompressor. */
  lemma DynamicPut(h: Header, lit: Sizes, dist: Sizes, final: bool, ts: seq<Token>, r: Regs, out: seq<byte>) returns (r2: Regs)
    requires Alphabets(lit, dist) && lit[256] > 0 && IsTable(lit) && IsTable(dist) && AllCoded(lit, dist, ts)
    requires ZeroFrom(lit, h.nlit) && ZeroFrom(dist, h.ndist) && HeaderOk(h, lit[..h.nlit] + dist[..h.ndist])
    requires r.ctl.BlockHead? && Expand(out, ts).Some?
    ensures BlockPut(final, HeadRest(h) + BlockData(lit, dist, ts), ts, r, out, r2)
  {
    var sizes := lit[..h.nlit] + dist[..h.ndist];
    var a, b := sizes[..h.nlit], sizes[h.nlit..];
    assert a == lit[..h.nlit] && b == dist[..h.ndist];
    TableTrimmed(lit, h.nlit);
    TableTrimmed(dist, h.ndist);
    DataTrimmed(lit, h.nlit, dist, h.ndist, ts);
    r2 := DynamicReads(h, sizes, a, b, final, ts, r, out);
  }

  lemma SameBits(r: Regs, a: Stream, b: Stream, out: seq<byte>, r2: Regs, out2: seq<byte>)
    requires Always(r, a, out, r2, out2) && a == b
    ensures Always(r, b, out, r2, out2)
  {
  }

  lemma DynamicReads(h: Header, sizes: seq<nat>, lit: Sizes, dist: Sizes, final: bool, ts: seq<Token>, r: Regs, out: seq<byte>) returns (r2: Regs)
    requires HeaderOk(h, sizes) && lit == sizes[..h.nlit] && dist == sizes[h.nlit..] && IsTable(lit) && IsTable(dist) && lit[256] > 0
    requires AllCoded(lit, dist, ts) && r.ctl.BlockHead? && Expand(out, ts).Some?
    ensures BlockPut(final, HeadRest(h) + BlockData(lit, dist, ts), ts, r, out, r2)
  {
    var data, out2 := BlockData(lit, dist, ts), Expand(out, ts).value;
    DynamicRead(r, final, h, sizes, ts, out);
    r2 := Next(WithTables(r, final, h, sizes), final);
    HeadRestIsHead(final, h);
    Assoc([final], HeadRest(h), data);
    SameBits(r, DynamicHead(final, h) + data, [final] + (HeadRest(h) + data), out, r2, out2);
  }

  /** The most bits a dynamic block can take after its first one, for so many bytes of the code buffer. */
  function DynamicMax(end: nat): nat {
    HEAD_MAX + 9 + TABLE_LOSS + 232 * end / 25
  }

  lemma DynamicSize(head: nat, data: nat, end: nat)
    requires head <= HEAD_MAX && 25 * data <= 232 * end + 25 * (9 + TABLE_LOSS)
    ensures head + data <= DynamicMax(end)
  {
  }

  /** A dynamic block. */
  method PutDynamic(sink: Sink, codes: array<byte>, end: nat, litCount: array<u16>, distCount: array<u16>,
                    ghost final: bool, ghost all: seq<seq<Token>>, ghost ts: seq<Token>, ghost r: Regs, ghost out: seq<byte>)
    returns (ghost bits: Stream, ghost r2: Regs)
    requires sink.Valid() && end <= codes.Length && Closed(codes[..end], all, ts)
    requires litCount != distCount && LitsCounted(litCount[..], ts) && DistsCounted(distCount[..], ts) && |ts| <= 58254
    requires r.ctl.BlockHead? && Expand(out, ts).Some?
    modifies sink, litCount
    ensures sink.Valid() && sink.sent == old(sink.sent) + bits && BlockPut(final, bits, ts, r, out, r2)
    ensures |bits| <= DynamicMax(end)
    ensures sink.before == old(sink.before) && old(sink.full) <= sink.full
  {
    hide GoodTable, LitsCounted, DistsCounted, Closed, BlockPut, HeadRest, BlockData, DynamicMax;
    ghost var bytes: seq<byte>, lc: seq<nat>, dc: seq<nat> := codes[..end], litCount[..], distCount[..];
    var lit, dist := DynamicTables(litCount, distCount, ts);
    ghost var h := PutDynamicHead(sink, lit, dist);
    assert codes[..end] == bytes;
    PutData(sink, codes, end, lit, dist, all, ts);
    ghost var data := BlockData(lit.sizes, dist.sizes, ts);
    bits := HeadRest(h) + data;
    Assoc(old(sink.sent), HeadRest(h), data);
    r2 := DynamicPut(h, lit.sizes, dist.sizes, final, ts, r, out);
    DynamicDataSize(bytes, all, ts, lc, dc, lit.sizes, dist.sizes);
    DynamicSize(|HeadRest(h)|, |data|, end);
  }
}
