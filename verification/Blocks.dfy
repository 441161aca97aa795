/** Whole blocks: what the decompressor makes of the bits of a static, dynamic or stored block. */
module Blocks {
  import opened Bits
  import opened Canonical
  import opened Machine
  import opened InflateSpec
  import opened BitBuffer
  import opened ReferenceRuns
  import opened Tokens
  import opened CodeLengthRle
  import opened CodeLengthBits

  // ----- the static codes are codes

  lemma {:induction false} CountAppend(a: Sizes, b: Sizes, l: nat)
    ensures Count(a + b, l) == Count(a, l) + Count(b, l)
    decreases |b|
  {
    if b == [] {
      assert a + b == a;
    } else {
      var n := |b| - 1;
      assert (a + b)[..|a + b| - 1] == a + b[..n];
      CountAppend(a, b[..n], l);
    }
  }

  lemma {:induction false} CountRepeat(v: nat, n: nat, l: nat)
    ensures Count(Repeat(v, n), l) == if v == l then n else 0
    decreases n
  {
    if n > 0 {
      assert Repeat(v, n)[..n - 1] == Repeat(v, n - 1);
      CountRepeat(v, n - 1, l);
    }
  }

  lemma StaticCount(l: nat)
    ensures Count(StaticLit, l) == if l == 7 then 24 else if l == 8 then 152 else if l == 9 then 112 else 0
    ensures Count(StaticDist, l) == if l == 5 then 32 else 0
  {
    var a, b, c, d := Repeat(8, 144), Repeat(9, 112), Repeat(7, 24), Repeat(8, 8);
    CountAppend(a + b + c, d, l);
    CountAppend(a + b, c, l);
    CountAppend(a, b, l);
    CountRepeat(8, 144, l);
    CountRepeat(9, 112, l);
    CountRepeat(7, 24, l);
    CountRepeat(8, 8, l);
    CountRepeat(5, 32, l);
  }

  lemma {:induction false} StaticFirst(l: nat)
    requires 1 <= l <= 16
    ensures First(StaticLit, l) == if l <= 7 then 0 else if l == 8 then 48 else if l == 9 then 400 else Pow2(l)
    ensures First(StaticDist, l) == if l <= 5 then 0 else Pow2(l)
    decreases l
  {
    Pow2Values();
    assert Pow2(6) == 64 && Pow2(9) == 512;
    if l > 1 {
      StaticFirst(l - 1);
      StaticCount(l - 1);
    }
  }

  lemma StaticTables()
    ensures IsTable(StaticLit) && Fits(StaticLit) && |StaticLit| == 288
    ensures IsTable(StaticDist) && Fits(StaticDist) && |StaticDist| == 32
  {
    Pow2Values();
    StaticFirst(MAX_SIZE + 1);
    TableFits(StaticLit);
    TableFits(StaticDist);
  }

  // ----- what bits carry

  /** Followed by `rest`, the bits take the registers from `r` to `r2` and the output from `out` to `out2`. */
  ghost predicate CarriesTo(r: Regs, bits: Stream, rest: Stream, out: seq<byte>, r2: Regs, out2: seq<byte>) {
    Inflates(Ref(r, bits + rest, out), Ref(r2, rest, out2))
  }

  /** ... whatever comes next, provided the whole stream, of which `pos` bits came before, is whole bytes. */
  ghost predicate Carries(pos: nat, r: Regs, bits: Stream, out: seq<byte>, r2: Regs, out2: seq<byte>) {
    forall rest: Stream :: WholeBytes(pos + |bits| + |rest|) ==> CarriesTo(r, bits, rest, out, r2, out2)
  }

  lemma CarriesBoth(pos: nat, r: Regs, a: Stream, o: seq<byte>, r1: Regs, o1: seq<byte>, b: Stream, r2: Regs, o2: seq<byte>)
    requires Carries(pos, r, a, o, r1, o1) && Carries(pos + |a|, r1, b, o1, r2, o2)
    ensures Carries(pos, r, a + b, o, r2, o2)
  {
    forall rest: Stream | WholeBytes(pos + |a + b| + |rest|)
      ensures CarriesTo(r, a + b, rest, o, r2, o2)
    {
      assert CarriesTo(r, a, b + rest, o, r1, o1);
      assert CarriesTo(r1, b, rest, o1, r2, o2);
      assert a + b + rest == a + (b + rest);
      ReachesTrans(Step, Ref(r, a + b + rest, o), Ref(r1, b + rest, o1), Ref(r2, rest, o2));
    }
  }

  lemma CarriesNothing(pos: nat, r: Regs, out: seq<byte>)
    ensures Carries(pos, r, [], out, r, out)
  {
    forall rest: Stream | WholeBytes(pos + |rest|)
      ensures CarriesTo(r, [], rest, out, r, out)
    {
      assert [] + rest == rest;
      ReachesSelf(Step, Ref(r, rest, out));
    }
  }

  /** Bits that carry whatever the alignment. */
  ghost predicate Always(r: Regs, bits: Stream, out: seq<byte>, r2: Regs, out2: seq<byte>) {
    forall rest: Stream :: CarriesTo(r, bits, rest, out, r2, out2)
  }

  lemma AlwaysBoth(r: Regs, a: Stream, o: seq<byte>, r1: Regs, o1: seq<byte>, b: Stream, r2: Regs, o2: seq<byte>)
    requires Always(r, a, o, r1, o1) && Always(r1, b, o1, r2, o2)
    ensures Always(r, a + b, o, r2, o2)
  {
    forall rest: Stream
      ensures CarriesTo(r, a + b, rest, o, r2, o2)
    {
      assert CarriesTo(r, a, b + rest, o, r1, o1);
      assert CarriesTo(r1, b, rest, o1, r2, o2);
      assert a + b + rest == a + (b + rest);
      ReachesTrans(Step, Ref(r, a + b + rest, o), Ref(r1, b + rest, o1), Ref(r2, rest, o2));
    }
  }

  lemma AlwaysSilent(r: Regs, out: seq<byte>)
    requires Silent(r).Some?
    ensures Always(r, [], out, Silent(r).value, out)
  {
    forall rest: Stream
      ensures CarriesTo(r, [], rest, out, Silent(r).value, out)
    {
      assert [] + rest == rest;
      ReachesStep(Step, Ref(r, rest, out), Ref(Silent(r).value, rest, out));
    }
  }

  lemma AlwaysBits(r: Regs, v: nat, n: nat, out: seq<byte>)
    requires Silent(r).None? && FixedBits(r.ctl) == Some(n) && v < Pow2(n)
    ensures Always(r, ToBits(v, n), out, OnBits(r, v), out)
  {
    LowOfSmall(v, n);
    forall rest: Stream
      ensures CarriesTo(r, ToBits(v, n), rest, out, OnBits(r, v), out)
    {
      BitsRead(r, v, n, rest, out);
    }
  }

  // ----- block heads

  function HeadBits(final: bool, kind: nat): Stream {
    [final] + ToBits(kind, 2)
  }

  lemma HeadRead(r: Regs, final: bool, kind: nat, out: seq<byte>)
    requires r.ctl.BlockHead? && kind < 3
    ensures Always(r, HeadBits(final, kind), out, OnBits(r, (if final then 1 else 0) + 2 * kind), out)
  {
    var v := (if final then 1 else 0) + 2 * kind;
    Pow2Values();
    assert ToBits(v, 3) == [v % 2 == 1] + ToBits(v / 2, 2);
    AlwaysBits(r, v, 3, out);
  }

  /** The registers after a block. */
  function Next(r: Regs, final: bool): Regs {
    r.(final := final, ctl := if final then LastAlign else BlockHead)
  }

  /** From the tables to the end of the block. */
  lemma DataRead(r: Regs, ts: seq<Token>, out: seq<byte>)
    requires r.ctl.BuildBlock? && IsTable(r.lit) && IsTable(r.dist) && |r.lit| > 256 && r.lit[256] > 0
    requires AllCoded(r.lit, r.dist, ts) && Expand(out, ts).Some?
    ensures Always(r, BlockData(r.lit, r.dist, ts), out, Next(r, r.final), Expand(out, ts).value)
  {
    var s, e := r.(ctl := Symbols), r.(ctl := BlockEnd);
    var out2 := Expand(out, ts).value;
    TableFits(r.lit);
    TableFits(r.dist);
    AlwaysSilent(r, out);
    forall rest: Stream
      ensures CarriesTo(s, BlockData(r.lit, r.dist, ts), rest, out, e, out2)
    {
      BlockDataRead(s, ts, rest, out);
    }
    AlwaysSilent(e, out2);
    AlwaysBoth(r, [], out, s, out, BlockData(r.lit, r.dist, ts), e, out2);
    AlwaysBoth(r, [] + BlockData(r.lit, r.dist, ts), out, e, out2, [], Next(r, r.final), out2);
    assert [] + BlockData(r.lit, r.dist, ts) + [] == BlockData(r.lit, r.dist, ts);
  }

  // ----- static blocks

  function StaticBits(final: bool, ts: seq<Token>): Stream
    requires AllCoded(StaticLit, StaticDist, ts)
  {
    HeadBits(final, 1) + BlockData(StaticLit, StaticDist, ts)
  }

  /** A static block gives back its tokens. */
  lemma StaticRead(r: Regs, final: bool, ts: seq<Token>, out: seq<byte>)
    requires r.ctl.BlockHead? && AllCoded(StaticLit, StaticDist, ts) && Expand(out, ts).Some?
    ensures Always(r, StaticBits(final, ts), out, Next(r.(lit := StaticLit, dist := StaticDist), final), Expand(out, ts).value)
  {
    StaticTables();
    var s := r.(final := final, lit := StaticLit, dist := StaticDist, ctl := BuildBlock);
    HeadRead(r, final, 1, out);
    assert OnBits(r, (if final then 1 else 0) + 2) == s;
    DataRead(s, ts, out);
    AlwaysBoth(r, HeadBits(final, 1), out, s, out, BlockData(StaticLit, StaticDist, ts), Next(s, final), Expand(out, ts).value);
  }

  // ----- dynamic blocks

  /** What the header of a dynamic block says. */
  datatype Header = Header(nlit: nat, ndist: nat, nlen: nat, clens: Sizes, ops: seq<Op>)

  /** The header is one the decompressor accepts, and its run-length codes mean `sizes`. */
  ghost predicate HeaderOk(h: Header, sizes: seq<nat>) {
    && 257 <= h.nlit <= 288 && 1 <= h.ndist <= 32 && 4 <= h.nlen <= 19
    && IsTable(h.clens) && OpsCoded(h.clens, h.ops) && Undo(h.ops) == Some(sizes) && |sizes| == h.nlit + h.ndist
    && (forall j :: 0 <= j < 19 ==> h.clens[j] < 8) && (forall i :: h.nlen <= i < 19 ==> h.clens[Dezigzag(i)] == 0)
  }

  function CountsBits(h: Header): Stream
    requires h.nlit >= 257 && h.ndist >= 1 && h.nlen >= 4
  {
    ToBits(h.nlit - 257, 5) + ToBits(h.ndist - 1, 5) + ToBits(h.nlen - 4, 4)
  }

  lemma CountRead(r: Regs, k: nat, n: nat, v: nat, w: nat, out: seq<byte>)
    requires r.ctl == TableSizes(k) && k < 3 && |r.t| == k && n == (if k == 2 then 4 else 5) && v < Pow2(n) && w == v + TableMin(k)
    ensures Always(r, ToBits(v, n), out, OnBits(r, v), out)
    ensures OnBits(r, v) == if k < 2 then r.(t := r.t + [w], ctl := TableSizes(k + 1))
                            else r.(t := r.t + [w], ctl := CodeLens(0), clens := Repeat(0, 19))
  {
    AlwaysBits(r, v, n, out);
  }

  lemma AlwaysThree(r: Regs, a: Stream, r1: Regs, b: Stream, r2: Regs, c: Stream, r3: Regs, out: seq<byte>)
    requires Always(r, a, out, r1, out) && Always(r1, b, out, r2, out) && Always(r2, c, out, r3, out)
    ensures Always(r, a + b + c, out, r3, out)
  {
    AlwaysBoth(r, a, out, r1, out, b, r2, out);
    AlwaysBoth(r, a + b, out, r2, out, c, r3, out);
  }

  lemma CountsRead(r: Regs, h: Header, out: seq<byte>)
    requires r.ctl == TableSizes(0) && r.t == [] && 257 <= h.nlit <= 288 && 1 <= h.ndist <= 32 && 4 <= h.nlen <= 19
    ensures Always(r, CountsBits(h), out, r.(ctl := CodeLens(0), t := [h.nlit, h.ndist, h.nlen], clens := Repeat(0, 19)), out)
  {
    hide Step;
    var r1 := r.(ctl := TableSizes(1), t := [h.nlit]);
    var r2 := r.(ctl := TableSizes(2), t := [h.nlit, h.ndist]);
    var r3 := r.(ctl := CodeLens(0), t := [h.nlit, h.ndist, h.nlen], clens := Repeat(0, 19));
    var five, four := 5, 4;
    Pow2Values();
    assert [] + [h.nlit] == [h.nlit] && [h.nlit] + [h.ndist] == [h.nlit, h.ndist];
    assert [h.nlit, h.ndist] + [h.nlen] == [h.nlit, h.ndist, h.nlen];
    CountRead(r, 0, five, h.nlit - 257, h.nlit, out);
    CountRead(r1, 1, five, h.ndist - 1, h.ndist, out);
    CountRead(r2, 2, four, h.nlen - 4, h.nlen, out);
    AlwaysThree(r, ToBits(h.nlit - 257, five), r1, ToBits(h.ndist - 1, five), r2, ToBits(h.nlen - 4, four), r3, out);
  }

  lemma LensRead(r: Regs, h: Header, sizes: seq<nat>, out: seq<byte>)
    requires HeaderOk(h, sizes) && r.ctl == CodeLens(0) && r.t == [h.nlit, h.ndist, h.nlen] && r.clens == Repeat(0, 19)
    ensures Always(r, SizesBits(h.clens, h.nlen), out, r.(ctl := LenCodes, clens := h.clens, lens := []), out)
  {
    var s, e := r.(ctl := BuildLens, clens := h.clens), r.(ctl := LenCodes, clens := h.clens, lens := []);
    forall rest: Stream
      ensures CarriesTo(r, SizesBits(h.clens, h.nlen), rest, out, s, out)
    {
      SizesRead(r, h.clens, h.nlen, rest, out);
    }
    AlwaysSilent(s, out);
    AlwaysBoth(r, SizesBits(h.clens, h.nlen), out, s, out, [], e, out);
    assert SizesBits(h.clens, h.nlen) + [] == SizesBits(h.clens, h.nlen);
  }

  lemma RunsRead(r: Regs, h: Header, sizes: seq<nat>, out: seq<byte>)
    requires HeaderOk(h, sizes) && r.ctl.LenCodes? && r.t == [h.nlit, h.ndist, h.nlen] && r.clens == h.clens && r.lens == []
    ensures Always(r, OpsBits(h.clens, h.ops), out,
      r.(ctl := BuildBlock, lens := sizes, lit := sizes[..h.nlit], dist := sizes[h.nlit..]), out)
  {
    var s := r.(lens := sizes);
    TableFits(h.clens);
    forall rest: Stream
      ensures CarriesTo(r, OpsBits(h.clens, h.ops), rest, out, s, out)
    {
      OpsRead(r, h.ops, rest, out);
    }
    AlwaysSilent(s, out);
    AlwaysBoth(r, OpsBits(h.clens, h.ops), out, s, out, [], Silent(s).value, out);
    assert OpsBits(h.clens, h.ops) + [] == OpsBits(h.clens, h.ops);
  }

  function DynamicHead(final: bool, h: Header): Stream
    requires h.nlit >= 257 && h.ndist >= 1 && 4 <= h.nlen <= 19 && OpsCoded(h.clens, h.ops)
  {
    HeadBits(final, 2) + CountsBits(h) + SizesBits(h.clens, h.nlen) + OpsBits(h.clens, h.ops)
  }

  /** The registers when the tables of a dynamic block are about to be built. */
  function WithTables(r: Regs, final: bool, h: Header, sizes: seq<nat>): Regs
    requires h.nlit <= |sizes|
  {
    Regs(BuildBlock, final, [h.nlit, h.ndist, h.nlen], h.clens, sizes, sizes[..h.nlit], sizes[h.nlit..])
  }

  lemma DynamicHeadRead(r: Regs, final: bool, h: Header, sizes: seq<nat>, out: seq<byte>)
    requires r.ctl.BlockHead? && HeaderOk(h, sizes)
    ensures Always(r, DynamicHead(final, h), out, WithTables(r, final, h, sizes), out)
  {
    var r1 := r.(final := final, t := [], ctl := TableSizes(0));
    var r2 := r1.(ctl := CodeLens(0), t := [h.nlit, h.ndist, h.nlen], clens := Repeat(0, 19));
    var r3 := r2.(ctl := LenCodes, clens := h.clens, lens := []);
    HeadRead(r, final, 2, out);
    assert OnBits(r, (if final then 1 else 0) + 4) == r1;
    CountsRead(r1, h, out);
    LensRead(r2, h, sizes, out);
    RunsRead(r3, h, sizes, out);
    AlwaysBoth(r, HeadBits(final, 2), out, r1, out, CountsBits(h), r2, out);
    AlwaysBoth(r, HeadBits(final, 2) + CountsBits(h), out, r2, out, SizesBits(h.clens, h.nlen), r3, out);
    AlwaysBoth(r, HeadBits(final, 2) + CountsBits(h) + SizesBits(h.clens, h.nlen), out, r3, out,
      OpsBits(h.clens, h.ops), WithTables(r, final, h, sizes), out);
  }

  /** A dynamic block gives back its tokens. */
  lemma DynamicRead(r: Regs, final: bool, h: Header, sizes: seq<nat>, ts: seq<Token>, out: seq<byte>)
    requires r.ctl.BlockHead? && HeaderOk(h, sizes) && IsTable(sizes[..h.nlit]) && IsTable(sizes[h.nlit..]) && sizes[256] > 0
    requires AllCoded(sizes[..h.nlit], sizes[h.nlit..], ts) && Expand(out, ts).Some?
    ensures Always(r, DynamicHead(final, h) + BlockData(sizes[..h.nlit], sizes[h.nlit..], ts), out,
      Next(WithTables(r, final, h, sizes), final), Expand(out, ts).value)
  {
    var s := WithTables(r, final, h, sizes);
    DynamicHeadRead(r, final, h, sizes, out);
    DataRead(s, ts, out);
    AlwaysBoth(r, DynamicHead(final, h), out, s, out, BlockData(s.lit, s.dist, ts), Next(s, final), Expand(out, ts).value);
  }

  // ----- stored blocks

  /** The header bits, zeros up to a byte boundary, the length, its complement and the bytes. */
  function StoredBits(final: bool, pad: Stream, bytes: seq<byte>): Stream
    requires |bytes| < 0x1_0000
  {
    HeadBits(final, 0) + pad + StoredTail(bytes)
  }

  lemma WholeAppend(a: nat, b: nat)
    requires WholeBytes(a)
    ensures WholeBytes(a + b) <==> WholeBytes(b)
    decreases a
  {
    if a > 0 {
      WholeAppend(a - 8, b);
    }
  }

  lemma PadLength(pad: nat, after: nat)
    requires pad < 8 && WholeBytes(after)
    ensures (pad + after) % 8 == pad
    decreases after
  {
    if after > 0 {
      PadLength(pad, after - 8);
    }
  }

  lemma AlignRead(r: Regs, pad: Stream, rest: Stream, out: seq<byte>)
    requires r.ctl.RawAlign? && |pad| < 8 && WholeBytes(|rest|)
    ensures CarriesTo(r, pad, rest, out, r.(ctl := RawHeader([])), out)
  {
    PadLength(|pad|, |rest|);
    assert (pad + rest)[|pad|..] == rest;
    ReachesStep(Step, Ref(r, pad + rest, out), Ref(r.(ctl := RawHeader([])), rest, out));
  }

  lemma SixteenBits(v: nat)
    requires v < 0x1_0000
    ensures ToBits(v, 16) == ToBits(v % 256, 8) + ToBits(v / 256, 8)
  {
    Pow2Values();
    ToBitsAppend(v % 256, 8, v / 256, 8);
  }

  lemma HeaderByteRead(r: Regs, got: seq<nat>, v: nat, out: seq<byte>)
    requires r.ctl == RawHeader(got) && |got| < 3 && v < 256
    ensures Always(r, ToBits(v, 8), out, r.(ctl := RawHeader(got + [v])), out)
  {
    Pow2Values();
    AlwaysBits(r, v, 8, out);
  }

  lemma LastByteRead(r: Regs, got: seq<nat>, v: nat, n: nat, out: seq<byte>)
    requires r.ctl == RawHeader(got) && |got| == 3 && v < 256 && n == got[0] + 256 * got[1] && n + got[2] + 256 * v == 65535
    ensures Always(r, ToBits(v, 8), out, r.(ctl := RawData(n)), out)
  {
    Pow2Values();
    AlwaysBits(r, v, 8, out);
  }

  lemma RawHeaderRead(r: Regs, n: nat, out: seq<byte>)
    requires r.ctl == RawHeader([]) && n < 0x1_0000
    ensures Always(r, ToBits(n, 16) + ToBits(0xFFFF - n, 16), out, r.(ctl := RawData(n)), out)
  {
    hide ToBits;
    var m: nat := 0xFFFF - n;
    var a, b, c, d: nat := n % 256, n / 256, m % 256, m / 256;
    var r1, r2, r3 := r.(ctl := RawHeader([a])), r.(ctl := RawHeader([a, b])), r.(ctl := RawHeader([a, b, c]));
    assert [] + [a] == [a] && [a] + [b] == [a, b] && [a, b] + [c] == [a, b, c];
    SixteenBits(n);
    SixteenBits(m);
    HeaderByteRead(r, [], a, out);
    HeaderByteRead(r1, [a], b, out);
    HeaderByteRead(r2, [a, b], c, out);
    LastByteRead(r3, [a, b, c], d, n, out);
    AlwaysBoth(r, ToBits(a, 8), out, r1, out, ToBits(b, 8), r2, out);
    AlwaysBoth(r2, ToBits(c, 8), out, r3, out, ToBits(d, 8), r.(ctl := RawData(n)), out);
    AlwaysBoth(r, ToBits(n, 16), out, r2, out, ToBits(m, 16), r.(ctl := RawData(n)), out);
  }

  lemma RawDoneRead(r: Regs, out: seq<byte>)
    requires r.ctl == RawData(0)
    ensures Always(r, [], out, Next(r, r.final), out)
  {
    var e := r.(ctl := BlockEnd);
    AlwaysSilent(r, out);
    AlwaysSilent(e, out);
    assert Silent(r) == Some(e) && Silent(e) == Some(Next(r, r.final));
    var none: Stream := [];
    assert none + none == none;
    AlwaysBoth(r, none, out, e, out, none, Next(r, r.final), out);
  }

  lemma RawBytesRead(r: Regs, bytes: seq<byte>, out: seq<byte>)
    requires r.ctl == RawData(|bytes|)
    ensures Always(r, BytesToBits(bytes), out, r.(ctl := RawData(0)), out + bytes)
  {
    forall rest: Stream
      ensures CarriesTo(r, BytesToBits(bytes), rest, out, r.(ctl := RawData(0)), out + bytes)
    {
      StoredRun(r, |bytes|, bytes, rest, out);
    }
  }

  lemma RawDataRead(r: Regs, bytes: seq<byte>, out: seq<byte>)
    requires r.ctl == RawData(|bytes|)
    ensures Always(r, BytesToBits(bytes), out, Next(r, r.final), out + bytes)
  {
    var s := r.(ctl := RawData(0));
    RawBytesRead(r, bytes, out);
    RawDoneRead(s, out + bytes);
    AlwaysBoth(r, BytesToBits(bytes), out, s, out + bytes, [], Next(r, r.final), out + bytes);
    assert BytesToBits(bytes) + [] == BytesToBits(bytes);
  }

  function StoredTail(bytes: seq<byte>): (t: Stream)
    requires |bytes| < 0x1_0000
    ensures WholeBytes(|t|)
  {
    WholeOfBytes(|bytes|);
    WholeAppend(32, 8 * |bytes|);
    ToBits(|bytes|, 16) + ToBits(0xFFFF - |bytes|, 16) + BytesToBits(bytes)
  }

  lemma StoredTailRead(r: Regs, bytes: seq<byte>, out: seq<byte>)
    requires r.ctl == RawHeader([]) && |bytes| < 0x1_0000
    ensures Always(r, StoredTail(bytes), out, Next(r, r.final), out + bytes)
  {
    var s := r.(ctl := RawData(|bytes|));
    RawHeaderRead(r, |bytes|, out);
    RawDataRead(s, bytes, out);
    AlwaysBoth(r, ToBits(|bytes|, 16) + ToBits(0xFFFF - |bytes|, 16), out, s, out, BytesToBits(bytes), Next(r, r.final), out + bytes);
  }

  lemma StoredParts(final: bool, pad: Stream, bytes: seq<byte>, rest: Stream)
    requires |bytes| < 0x1_0000
    ensures StoredBits(final, pad, bytes) + rest == HeadBits(final, 0) + (pad + (StoredTail(bytes) + rest))
    ensures |StoredBits(final, pad, bytes)| == 3 + |pad| + |StoredTail(bytes)|
  {
    hide StoredTail;
  }

  /** A stored block gives back its bytes. */
  lemma StoredRead(pos: nat, r: Regs, final: bool, pad: Stream, bytes: seq<byte>, out: seq<byte>)
    requires r.ctl.BlockHead? && |bytes| < 0x1_0000 && |pad| < 8 && WholeBytes(pos + 3 + |pad|)
    ensures Carries(pos, r, StoredBits(final, pad, bytes), out, Next(r, final), out + bytes)
  {
    var r1, r2 := r.(final := final, ctl := RawAlign), r.(final := final, ctl := RawHeader([]));
    HeadRead(r, final, 0, out);
    assert OnBits(r, (if final then 1 else 0)) == r1;
    StoredTailRead(r2, bytes, out);
    var tail := StoredTail(bytes);
    forall rest: Stream | WholeBytes(pos + |StoredBits(final, pad, bytes)| + |rest|)
      ensures CarriesTo(r, StoredBits(final, pad, bytes), rest, out, Next(r, final), out + bytes)
    {
      StoredParts(final, pad, bytes, rest);
      StoredReadAt(r, r1, r2, final, pad, tail, rest, out, Next(r, final), out + bytes, pos);
    }
  }

  lemma StoredReadAt(r: Regs, r1: Regs, r2: Regs, final: bool, pad: Stream, tail: Stream, rest: Stream, out: seq<byte>,
                     e: Regs, out2: seq<byte>, pos: nat)
    requires Always(r, HeadBits(final, 0), out, r1, out) && r1.ctl.RawAlign? && r2 == r1.(ctl := RawHeader([]))
    requires Always(r2, tail, out, e, out2) && |pad| < 8 && WholeBytes(pos + 3 + |pad|) && WholeBytes(pos + (3 + |pad| + |tail|) + |rest|)
    ensures Inflates(Ref(r, HeadBits(final, 0) + (pad + (tail + rest)), out), Ref(e, rest, out2))
  {
    var body := tail + rest;
    WholeAppend(pos + 3 + |pad|, |body|);
    AlignRead(r1, pad, body, out);
    assert CarriesTo(r, HeadBits(final, 0), pad + body, out, r1, out);
    assert CarriesTo(r2, tail, rest, out, e, out2);
    var a := Ref(r, HeadBits(final, 0) + (pad + body), out);
    ReachesTrans(Step, a, Ref(r1, pad + body, out), Ref(r2, body, out));
    ReachesTrans(Step, a, Ref(r2, body, out), Ref(e, rest, out2));
  }
}
