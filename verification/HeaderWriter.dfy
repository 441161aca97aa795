/** Building the tables of a block and writing the header that describes them. */
module HeaderWriter {
  import opened Bits
  import opened Canonical
  import opened CodeAssignment
  import opened HuffmanBuilder
  import opened HuffmanTable
  import opened RankedSymbols
  import opened Sums
  import opened InflateSpec
  import opened CodeLengthRle
  import opened CodeLengthBits
  import opened Blocks
  import opened TableTrim
  import opened TokenWriter
  import opened BitSink

  // ----- tables

  /** A table for the counted symbols. */
  method BuildTable(count: array<u16>, limit: nat) returns (t: Table)
    requires count.Length < 0x1_0000 && 1 <= limit <= MAX_SIZE
    requires Sum(count[..]) < 0x1_0000 && |UsedSyms(count[..])| <= Pow2(limit)
    ensures GoodTable(count[..], t.sizes, limit) && TableOk(t)
  {
    var sizes, codes := new nat[count.Length], new nat[count.Length];
    OptimizeHuffmanTable(count, sizes, codes, limit);
    t := Table(sizes[..], codes[..]);
    TableFits(t.sizes);
  }

  /** The codes of given sizes. */
  method FixedTable(z: Sizes) returns (t: Table)
    requires Fits(z)
    ensures TableOk(t) && t.sizes == z
  {
    var sizes := new nat[|z|](i requires 0 <= i < |z| => z[i]);
    var codes := new nat[|z|](i => 0);
    var num := new nat[33](i => 0);
    assert z[..0] == [];
    for i := 0 to |z|
      invariant sizes[..] == z && forall l :: 0 <= l < 33 ==> num[l] == Count(z[..i], l)
    {
      forall l: nat
        ensures Count(z[..i + 1], l) == Count(z[..i], l) + (if z[i] == l then 1 else 0)
      {
        CountSnoc(z, i, l);
      }
      num[sizes[i]] := num[sizes[i]] + 1;
    }
    assert z[..|z|] == z && sizes[..|z|] == z;
    AssignCodes(num, sizes, codes, |z|, MAX_SIZE);
    t := Table(sizes[..], codes[..]);
    assert sizes[..] == z;
  }

  /** How many sizes must be sent: up to the last one that is used, but at least `lo`. */
  method LastUsed(sizes: Sizes, hi: nat, lo: nat) returns (n: nat)
    requires lo <= hi && ZeroFrom(sizes, hi)
    ensures lo <= n <= hi && ZeroFrom(sizes, n)
  {
    n := hi;
    while n > lo && sizes[n - 1] == 0
      invariant lo <= n <= hi && ZeroFrom(sizes, n)
    {
      n := n - 1;
    }
  }

  // ----- the code sizes

  lemma {:induction false} FlatAt(ops: seq<Op>, k: nat)
    requires k < |ops|
    ensures Flat(ops[..k]) + OpBytes(ops[k]) <= Flat(ops)
    decreases |ops|
  {
    var n := |ops| - 1;
    if k < n {
      FlatAt(ops[..n], k);
      assert ops[..n][..k] == ops[..k];
    }
  }

  /** The packed bytes of code `k` are where the codes before it end. */
  lemma OpAt(ops: seq<Op>, k: nat, packed: seq<nat>, at: nat)
    requires packed == Flat(ops) && k <= |ops| && at == |Flat(ops[..k])|
    ensures k == |ops| ==> at == |packed|
    ensures k < |ops| ==> at + |OpBytes(ops[k])| <= |packed| && packed[at..at + |OpBytes(ops[k])|] == OpBytes(ops[k])
  {
    if k < |ops| {
      FlatAt(ops, k);
      assert packed[..at + |OpBytes(ops[k])|] == Flat(ops[..k]) + OpBytes(ops[k]);
    } else {
      assert ops[..k] == ops;
    }
  }

  lemma OpsBitsSnoc(clens: Sizes, ops: seq<Op>, k: nat)
    requires OpsCoded(clens, ops) && k < |ops|
    ensures OpsCoded(clens, ops[..k]) && OpsCoded(clens, ops[..k + 1])
    ensures OpsBits(clens, ops[..k + 1]) == OpsBits(clens, ops[..k]) + OpBits(clens, ops[k])
    ensures Flat(ops[..k + 1]) == Flat(ops[..k]) + OpBytes(ops[k])
  {
    assert ops[..k + 1][..k] == ops[..k];
  }

  /** One run-length code and its extra bits. */
  method PutOp(sink: Sink, cl: Table, packed: seq<nat>, at: nat, ghost o: Op) returns (next: nat)
    requires sink.Valid() && TableOk(cl) && |cl.sizes| == 19 && OpOk(o) && o.code < 19 && cl.sizes[o.code] > 0
    requires at + |OpBytes(o)| <= |packed| && packed[at..at + |OpBytes(o)|] == OpBytes(o)
    modifies sink
    ensures sink.Valid() && sink.sent == old(sink.sent) + OpBits(cl.sizes, o) && next == at + |OpBytes(o)|
    ensures sink.before == old(sink.before) && old(sink.full) <= sink.full
  {
    var code := packed[at];
    assert packed[at..at + |OpBytes(o)|][0] == OpBytes(o)[0] == o.code;
    PutSymbol(sink, cl, code);
    next := at + 1;
    if code >= 16 {
      assert packed[at..at + 2][1] == OpBytes(o)[1] == o.extra;
      Pow2Values();
      sink.PutBits(packed[next], RepeatBits(code));
      Assoc(old(sink.sent), SymbolBits(cl.sizes, code), ToBits(o.extra, RepeatBits(code)));
      next := next + 1;
    } else {
      assert SymbolBits(cl.sizes, code) + [] == SymbolBits(cl.sizes, code);
    }
  }

  lemma NoOps(clens: Sizes, ops: seq<Op>, sent: Stream)
    requires OpsCoded(clens, ops)
    ensures OpsCoded(clens, ops[..0]) && |Flat(ops[..0])| == 0 && sent + OpsBits(clens, ops[..0]) == sent
  {
  }

  lemma CodedAt(clens: Sizes, ops: seq<Op>, k: nat)
    requires OpsCoded(clens, ops) && k < |ops|
    ensures |clens| == 19 && OpOk(ops[k]) && ops[k].code < 19 && clens[ops[k].code] > 0 && |OpBytes(ops[k])| > 0
  {
  }

  method PutOps(sink: Sink, cl: Table, packed: seq<nat>, ghost ops: seq<Op>)
    requires sink.Valid() && TableOk(cl) && OpsCoded(cl.sizes, ops) && packed == Flat(ops)
    modifies sink
    ensures sink.Valid() && sink.sent == old(sink.sent) + OpsBits(cl.sizes, ops)
    ensures sink.before == old(sink.before) && old(sink.full) <= sink.full
  {
    hide Counted, CodesOk, OpsCoded, Sink.Valid, OpsBits, OpBits, Flat, OpBytes;
    var at: nat := 0;
    ghost var k: nat, sent := 0, sink.sent;
    NoOps(cl.sizes, ops, sent);
    OpAt(ops, 0, packed, at);
    while at < |packed|
      invariant k <= |ops| && at == |Flat(ops[..k])| && OpsCoded(cl.sizes, ops[..k])
      invariant k < |ops| ==> at + |OpBytes(ops[k])| <= |packed| && packed[at..at + |OpBytes(ops[k])|] == OpBytes(ops[k])
      invariant k == |ops| ==> at == |packed|
      invariant sink.Valid() && sink.sent == sent + OpsBits(cl.sizes, ops[..k])
      invariant sink.before == old(sink.before) && old(sink.full) <= sink.full
      decreases |packed| - at
    {
      assert k < |ops|;
      OpsBitsSnoc(cl.sizes, ops, k);
      CodedAt(cl.sizes, ops, k);
      at := PutOp(sink, cl, packed, at, ops[k]);
      Assoc(sent, OpsBits(cl.sizes, ops[..k]), OpBits(cl.sizes, ops[k]));
      k := k + 1;
      OpAt(ops, k, packed, at);
    }
    if k < |ops| {
      CodedAt(cl.sizes, ops, k);
    }
    assert ops[..|ops|] == ops;
  }

  method PutClens(sink: Sink, clens: Sizes, n: nat)
    requires sink.Valid() && |clens| == 19 && n <= 19 && forall j :: 0 <= j < 19 ==> clens[j] < 8
    modifies sink
    ensures sink.Valid() && sink.sent == old(sink.sent) + SizesBits(clens, n)
    ensures sink.before == old(sink.before) && old(sink.full) <= sink.full
  {
    ghost var sent := sink.sent;
    assert sent + [] == sent;
    Pow2Values();
    for i := 0 to n
      invariant sink.Valid() && sink.sent == sent + SizesBits(clens, i)
      invariant sink.before == old(sink.before) && old(sink.full) <= sink.full
    {
      sink.PutBits(clens[Dezigzag(i)], 3);
      Assoc(sent, SizesBits(clens, i), ToBits(clens[Dezigzag(i)], 3));
    }
  }

  /** The number of sizes of the code length code to send. */
  method ClensUsed(clens: Sizes) returns (n: nat)
    requires |clens| == 19
    ensures 4 <= n <= 19 && forall i :: n <= i < 19 ==> clens[Dezigzag(i)] == 0
  {
    n := 19;
    while n > 4 && clens[Dezigzag(n - 1)] == 0
      invariant 4 <= n <= 19 && forall i :: n <= i < 19 ==> clens[Dezigzag(i)] == 0
    {
      n := n - 1;
    }
  }

  lemma {:induction false} CountedUsed(ops: seq<Op>, i: nat)
    requires i < |ops|
    ensures OpCount(ops, ops[i].code) > 0
    decreases |ops|
  {
    var n := |ops| - 1;
    if i < n {
      CountedUsed(ops[..n], i);
    }
  }

  lemma AllOpsCoded(packed: seq<nat>, count: seq<nat>, ops: seq<Op>, sizes: seq<nat>, clens: Sizes)
    requires Packing(packed, count, ops, sizes) && GoodTable(count, clens, 7)
    ensures OpsCoded(clens, ops)
  {
    forall i | 0 <= i < |ops|
      ensures OpOk(ops[i]) && ops[i].code < 19 && clens[ops[i].code] > 0
    {
      CountedUsed(ops, i);
      assert OpOk(ops[i]);
      assert count[ops[i].code] == OpCount(ops, ops[i].code);
    }
  }

  // ----- the whole header

  /** Sizes that fit the alphabets of a dynamic block. */
  ghost predicate Alphabets(lit: Sizes, dist: Sizes) {
    |lit| == 288 && ZeroFrom(lit, 286) && Valid(lit) && |dist| == 32 && ZeroFrom(dist, 30) && Valid(dist)
  }

  /** The packed sizes and the table of the code length code. */
  method PackLens(sizes: seq<nat>) returns (packed: seq<nat>, cl: Table, ghost ops: seq<Op>)
    requires |sizes| <= 320 && Valid(sizes)
    ensures TableOk(cl) && IsTable(cl.sizes) && OpsCoded(cl.sizes, ops) && packed == Flat(ops) && Undo(ops) == Some(sizes)
    ensures (forall j :: 0 <= j < 19 ==> cl.sizes[j] < 8) && |ops| <= |sizes|
  {
    var count := new u16[19](i => 0);
    packed, ops := PackSizes(sizes, count);
    ghost var c: seq<nat> := count[..];
    Pow2Values();
    cl := BuildTable(count, 7);
    AllOpsCoded(packed, c, ops, sizes, cl.sizes);
  }

  /** The header after its first bit, which says whether the block is the last one. */
  function HeadRest(h: Header): Stream
    requires h.nlit >= 257 && h.ndist >= 1 && 4 <= h.nlen <= 19 && OpsCoded(h.clens, h.ops)
  {
    ToBits(2, 2) + CountsBits(h) + SizesBits(h.clens, h.nlen) + OpsBits(h.clens, h.ops)
  }

  /** The most bits a header can take after its first one. */
  const HEAD_MAX: nat := 4497

  lemma {:induction false} OpsSize(clens: Sizes, ops: seq<Op>)
    requires OpsCoded(clens, ops) && forall j :: 0 <= j < 19 ==> clens[j] < 8
    ensures |OpsBits(clens, ops)| <= 14 * |ops|
    decreases |ops|
  {
    if ops != [] {
      OpsSize(clens, ops[..|ops| - 1]);
    }
  }

  lemma {:induction false} SizesSize(clens: Sizes, n: nat)
    requires |clens| == 19 && n <= 19
    ensures |SizesBits(clens, n)| == 3 * n
  {
    if n > 0 {
      SizesSize(clens, n - 1);
    }
  }

  lemma HeadSize(h: Header)
    requires h.nlit >= 257 && h.ndist >= 1 && 4 <= h.nlen <= 19 && OpsCoded(h.clens, h.ops)
    requires |h.ops| <= 316 && forall j :: 0 <= j < 19 ==> h.clens[j] < 8
    ensures |HeadRest(h)| <= HEAD_MAX
  {
    OpsSize(h.clens, h.ops);
    SizesSize(h.clens, h.nlen);
  }

  lemma HeadRestIsHead(final: bool, h: Header)
    requires h.nlit >= 257 && h.ndist >= 1 && 4 <= h.nlen <= 19 && OpsCoded(h.clens, h.ops)
    ensures [final] + HeadRest(h) == DynamicHead(final, h)
  {
  }

  lemma AssocFour(s: Stream, a: Stream, b: Stream, c: Stream, d: Stream)
    ensures s + a + b + c + d == s + (a + b + c + d)
  {
  }

  method PutCounts(sink: Sink, nlit: nat, ndist: nat, nlen: nat, ghost h: Header)
    requires sink.Valid() && 257 <= nlit <= 286 && 1 <= ndist <= 30 && 4 <= nlen <= 19
    requires h.nlit == nlit && h.ndist == ndist && h.nlen == nlen
    modifies sink
    ensures sink.Valid() && sink.sent == old(sink.sent) + CountsBits(h)
    ensures sink.before == old(sink.before) && old(sink.full) <= sink.full
  {
    Pow2Values();
    sink.PutBits(nlit - 257, 5);
    sink.PutBits(ndist - 1, 5);
    sink.PutBits(nlen - 4, 4);
    Assoc(old(sink.sent), ToBits(nlit - 257, 5), ToBits(ndist - 1, 5));
    Assoc(old(sink.sent), ToBits(nlit - 257, 5) + ToBits(ndist - 1, 5), ToBits(nlen - 4, 4));
  }

  lemma PartsSizes(lit: Sizes, nlit: nat, dist: Sizes, ndist: nat)
    requires nlit <= |lit| && ndist <= |dist| && Valid(lit) && Valid(dist)
    ensures var s := lit[..nlit] + dist[..ndist];
      (Valid(s) && |s| == nlit + ndist && s[..nlit] == lit[..nlit] && s[nlit..] == dist[..ndist])
  {
  }

  method PutHeader(sink: Sink, nlit: nat, ndist: nat, nlen: nat, cl: Table, packed: seq<nat>, ghost h: Header)
    requires sink.Valid() && 257 <= nlit <= 286 && 1 <= ndist <= 30 && 4 <= nlen <= 19
    requires h == Header(nlit, ndist, nlen, cl.sizes, h.ops) && TableOk(cl) && OpsCoded(cl.sizes, h.ops) && packed == Flat(h.ops)
    requires forall j :: 0 <= j < 19 ==> cl.sizes[j] < 8
    modifies sink
    ensures sink.Valid() && sink.sent == old(sink.sent) + HeadRest(h)
    ensures sink.before == old(sink.before) && old(sink.full) <= sink.full
  {
    ghost var s := sink.sent;
    Pow2Values();
    sink.PutBits(2, 2);
    PutCounts(sink, nlit, ndist, nlen, h);
    PutClens(sink, cl.sizes, nlen);
    PutOps(sink, cl, packed, h.ops);
    AssocFour(s, ToBits(2, 2), CountsBits(h), SizesBits(h.clens, h.nlen), OpsBits(h.clens, h.ops));
  }

  /** Writes what a dynamic block needs before its data. */
  method PutDynamicHead(sink: Sink, lit: Table, dist: Table) returns (ghost h: Header)
    requires sink.Valid() && Alphabets(lit.sizes, dist.sizes)
    modifies sink
    ensures ZeroFrom(lit.sizes, h.nlit) && ZeroFrom(dist.sizes, h.ndist)
    ensures HeaderOk(h, lit.sizes[..h.nlit] + dist.sizes[..h.ndist])
    ensures sink.Valid() && sink.sent == old(sink.sent) + HeadRest(h) && |HeadRest(h)| <= HEAD_MAX
    ensures sink.before == old(sink.before) && old(sink.full) <= sink.full
  {
    var nlit := LastUsed(lit.sizes, 286, 257);
    var ndist := LastUsed(dist.sizes, 30, 1);
    PartsSizes(lit.sizes, nlit, dist.sizes, ndist);
    var packed, cl;
    ghost var ops;
    packed, cl, ops := PackLens(lit.sizes[..nlit] + dist.sizes[..ndist]);
    var nlen := ClensUsed(cl.sizes);
    h := Header(nlit, ndist, nlen, cl.sizes, ops);
    HeadSize(h);
    PutHeader(sink, nlit, ndist, nlen, cl, packed, h);
  }
}
