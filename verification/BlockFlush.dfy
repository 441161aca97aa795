/** Flushing a block: compressed if that pays off, stored if not, static if the dynamic form does not
    fit; then the marker of a flush or the end of the stream. */
module BlockFlush {
  import opened Bits
  import opened Machine
  import opened InflateSpec
  import opened Canonical
  import opened BitBuffer
  import opened Blocks
  import opened Tokens
  import opened TokenBuffer
  import opened TokenWriter
  import opened BlockWriter
  import opened BitSink

  datatype Flush = NoFlush | SyncFlush | FullFlush | Finish

  /** Room in the output buffer before bytes are dropped. */
  const OUT_CAP: nat := 85196 - 16

  /** `n` bytes of the circular dictionary from position `pos` on. */
  function Ring(dict: seq<byte>, pos: nat, n: nat): (s: seq<byte>)
    requires |dict| >= WINDOW
    ensures |s| == n
  {
    seq(n, i requires 0 <= i < n => dict[(pos + i) % WINDOW])
  }

  lemma RingSnoc(dict: seq<byte>, pos: nat, n: nat)
    requires |dict| >= WINDOW
    ensures Ring(dict, pos, n + 1) == Ring(dict, pos, n) + [dict[(pos + n) % WINDOW]]
  {
  }

  // ----- what the parts carry

  lemma AlwaysCarries(pos: nat, r: Regs, bits: Stream, out: seq<byte>, r2: Regs, out2: seq<byte>)
    requires Always(r, bits, out, r2, out2)
    ensures Carries(pos, r, bits, out, r2, out2)
  {
  }

  /** Zeros up to the byte boundary end the stream. */
  lemma FinishRead(pos: nat, r: Regs, pad: Stream, out: seq<byte>)
    requires r.ctl.LastAlign? && |pad| < 8 && WholeBytes(pos + |pad|)
    ensures Carries(pos, r, pad, out, r.(ctl := Ctl.Done), out)
  {
    forall rest: Stream | WholeBytes(pos + |pad| + |rest|)
      ensures CarriesTo(r, pad, rest, out, r.(ctl := Ctl.Done), out)
    {
      WholeAppend(pos + |pad|, |rest|);
      PadLength(|pad|, |rest|);
      assert (pad + rest)[|pad|..] == rest;
      ReachesStep(Step, Ref(r, pad + rest, out), Ref(r.(ctl := Ctl.Done), rest, out));
    }
  }

  /** An empty stored block changes nothing. */
  lemma MarkerRead(pos: nat, r: Regs, pad: Stream, out: seq<byte>)
    requires r.ctl.BlockHead? && |pad| < 8 && WholeBytes(pos + 3 + |pad|)
    ensures Carries(pos, r, StoredBits(false, pad, []), out, Next(r, false), out)
  {
    StoredRead(pos, r, false, pad, [], out);
    assert out + [] == out;
  }

  // ----- stored blocks

  method PutSixteen(sink: Sink, v: nat)
    requires sink.Valid() && v < 0x1_0000
    modifies sink
    ensures sink.Valid() && sink.sent == old(sink.sent) + ToBits(v, 16)
    ensures sink.before == old(sink.before) && old(sink.full) <= sink.full
  {
    Pow2Values();
    sink.PutBits(v, 16);
  }

  method PutByteBits(sink: Sink, b: byte)
    requires sink.Valid()
    modifies sink
    ensures sink.Valid() && sink.sent == old(sink.sent) + ToBits(b, 8)
    ensures sink.before == old(sink.before) && old(sink.full) <= sink.full
  {
    Pow2Values();
    sink.PutBits(b, 8);
  }

  method PutRing(sink: Sink, dict: array<byte>, pos: nat, n: nat)
    requires sink.Valid() && dict.Length >= WINDOW
    modifies sink
    ensures sink.Valid() && sink.sent == old(sink.sent) + BytesToBits(Ring(dict[..], pos, n))
    ensures sink.before == old(sink.before) && old(sink.full) <= sink.full
  {
    ghost var sent, d: seq<byte> := sink.sent, dict[..];
    assert Ring(d, pos, 0) == [] && sent + [] == sent;
    for i := 0 to n
      invariant dict[..] == d
      invariant sink.Valid() && sink.sent == sent + BytesToBits(Ring(d, pos, i))
      invariant sink.before == old(sink.before) && old(sink.full) <= sink.full
    {
      var b := dict[(pos + i) % WINDOW];
      PutByteBits(sink, b);
      RingSnoc(d, pos, i);
      BytesToBitsAppend(Ring(d, pos, i), [b]);
      BytesToBitsOne(b);
      Assoc(sent, BytesToBits(Ring(d, pos, i)), ToBits(b, 8));
    }
  }

  lemma AssocStored(s: Stream, k: Stream, pad: Stream, a: Stream, b: Stream, c: Stream)
    ensures s + k + pad + a + b + c == s + (k + pad + (a + b + c))
  {
  }

  lemma AssocHead(f: Stream, k: Stream, pad: Stream, t: Stream)
    ensures f + (k + pad + t) == f + k + pad + t
  {
  }

  lemma StoredOrder(s: Stream, final: bool, pad: Stream, bytes: seq<byte>)
    requires |bytes| < 0x1_0000
    ensures s + ToBits(0, 2) + pad + ToBits(|bytes|, 16) + ToBits(0xFFFF - |bytes|, 16) + BytesToBits(bytes)
         == s + (ToBits(0, 2) + pad + StoredTail(bytes))
    ensures [final] + (ToBits(0, 2) + pad + StoredTail(bytes)) == StoredBits(final, pad, bytes)
  {
    AssocStored(s, ToBits(0, 2), pad, ToBits(|bytes|, 16), ToBits(0xFFFF - |bytes|, 16), BytesToBits(bytes));
    AssocHead([final], ToBits(0, 2), pad, StoredTail(bytes));
  }

  /** A stored block, after its first bit: the bytes come from the dictionary. */
  method PutStored(sink: Sink, dict: array<byte>, dictPos: nat, total: nat, ghost final: bool, ghost pos: nat)
    returns (ghost bits: Stream, ghost pad: Stream)
    requires sink.Valid() && |sink.sent| == pos + 1 && dict.Length >= WINDOW && total <= WINDOW
    modifies sink
    ensures sink.Valid() && sink.sent == old(sink.sent) + bits
    ensures [final] + bits == StoredBits(final, pad, Ring(dict[..], dictPos, total)) && |pad| < 8
    ensures WholeBytes(pos + 3 + |pad|) && |bits| <= 41 + 8 * total
    ensures sink.before == old(sink.before) && old(sink.full) <= sink.full
  {
    hide Sink.Valid, WholeBytes, StoredBits, StoredTail, ToBits, BytesToBits, Ring;
    ghost var s, bytes := sink.sent, Ring(dict[..], dictPos, total);
    RingLength(dict[..], dictPos, total);
    PutKind(sink, 0);
    pad := sink.PadToByte();
    ghost var sofar := sink.sent;
    assert |sofar| == pos + 3 + |pad| by { TwoBits(s, pad); }
    PutSixteen(sink, total);
    PutSixteen(sink, 0xFFFF - total);
    assert Ring(dict[..], dictPos, total) == bytes;
    PutRing(sink, dict, dictPos, total);
    bits := ToBits(0, 2) + pad + StoredTail(bytes);
    StoredOrder(s, final, pad, bytes);
    StoredSize(pad, bytes);
  }

  lemma RingLength(dict: seq<byte>, pos: nat, n: nat)
    requires |dict| >= WINDOW
    ensures |Ring(dict, pos, n)| == n
  {
  }

  lemma TwoBits(s: Stream, pad: Stream)
    ensures |s + ToBits(0, 2) + pad| == |s| + 2 + |pad|
  {
  }

  lemma StoredSize(pad: Stream, bytes: seq<byte>)
    requires |bytes| < 0x1_0000
    ensures |ToBits(0, 2) + pad + StoredTail(bytes)| == 2 + |pad| + 32 + 8 * |bytes|
  {
  }

  // ----- the body of a block

  /** The bits put after the first bit of a block, and where the decompressor is after them. */
  ghost predicate BodyPut(pos: nat, final: bool, bits: Stream, r: Regs, out: seq<byte>, r2: Regs, out2: seq<byte>) {
    r2.ctl == (if final then LastAlign else BlockHead) && Carries(pos, r, [final] + bits, out, r2, out2)
  }

  lemma StoredBody(pos: nat, final: bool, pad: Stream, bits: Stream, bytes: seq<byte>, r: Regs, out: seq<byte>)
    requires r.ctl.BlockHead? && |bytes| < 0x1_0000 && |pad| < 8 && WholeBytes(pos + 3 + |pad|)
    requires [final] + bits == StoredBits(final, pad, bytes)
    ensures BodyPut(pos, final, bits, r, out, Next(r, final), out + bytes)
  {
    StoredRead(pos, r, final, pad, bytes, out);
  }

  lemma TokensBody(pos: nat, final: bool, bits: Stream, ts: seq<Token>, r: Regs, out: seq<byte>, r2: Regs)
    requires BlockPut(final, bits, ts, r, out, r2)
    ensures BodyPut(pos, final, bits, r, out, r2, Expand(out, ts).value)
  {
    AlwaysCarries(pos, r, [final] + bits, out, r2, Expand(out, ts).value);
  }

  /** What the block being flushed is: its tokens, and the input they stand for when that is still in
      the dictionary. */
  ghost predicate BlockState(buf: Buffer, all: seq<seq<Token>>, ts: seq<Token>, end: nat)
    reads buf, buf.codes, buf.litCount, buf.distCount
  {
    && end <= buf.codes.Length && Closed(buf.codes[..end], all, ts) && AllOk(ts) && |ts| <= 58254
    && buf.litCount != buf.distCount && LitsCounted(buf.litCount[..], ts) && DistsCounted(buf.distCount[..], ts)
  }

  /** How many bits a block may take after its first one: static, stored or dynamic. */
  predicate BitsFit(bits: nat, end: nat) {
    bits <= 10 * end + 9 || bits <= 41 + 8 * WINDOW || bits <= DynamicMax(end)
  }

  /** compress_block: the tokens as a static or dynamic block. */
  method PutTokensBlock(sink: Sink, buf: Buffer, end: nat, useStatic: bool,
                        ghost final: bool, ghost all: seq<seq<Token>>, ghost ts: seq<Token>, ghost r: Regs, ghost out: seq<byte>)
    returns (ok: bool, ghost bits: Stream, ghost r2: Regs)
    requires sink.Valid() && BlockState(buf, all, ts, end) && r.ctl.BlockHead? && Expand(out, ts).Some?
    modifies sink, buf.litCount
    ensures sink.Valid() && sink.sent == old(sink.sent) + bits && BlockPut(final, bits, ts, r, out, r2)
    ensures sink.before == old(sink.before) && old(sink.full) <= sink.full && ok == (|sink.out| < sink.cap)
    ensures BitsFit(|bits|, end)
  {
    if useStatic {
      bits, r2 := PutStatic(sink, buf.codes, end, final, all, ts, r, out);
    } else {
      bits, r2 := PutDynamic(sink, buf.codes, end, buf.litCount, buf.distCount, final, all, ts, r, out);
    }
    ok := |sink.out| < sink.cap;
  }

  /** The block being flushed can be read back from the dictionary. */
  ghost predicate InDictionary(dict: seq<byte>, dictPos: nat, total: nat, ts: seq<Token>, out: seq<byte>) {
    |dict| >= WINDOW && total <= WINDOW && Expand(out, ts) == Some(out + Ring(dict, dictPos, total))
  }

  method StoreInstead(sink: Sink, dict: array<byte>, dictPos: nat, total: nat, ghost final: bool, ghost pos: nat, ghost ts: seq<Token>,
                      ghost r: Regs, ghost out: seq<byte>)
    returns (ghost bits: Stream, ghost r2: Regs)
    requires sink.Valid() && |sink.sent| == pos + 1 && r.ctl.BlockHead? && InDictionary(dict[..], dictPos, total, ts, out)
    modifies sink
    ensures sink.Valid() && sink.sent == old(sink.sent) + bits && |bits| <= 41 + 8 * total <= 41 + 8 * WINDOW
    ensures BodyPut(pos, final, bits, r, out, r2, Expand(out, ts).value)
    ensures sink.before == old(sink.before) && old(sink.full) <= sink.full
  {
    ghost var pad, bytes := [], Ring(dict[..], dictPos, total);
    ghost var out2 := Expand(out, ts).value;
    assert out2 == out + bytes;
    bits, pad := PutStored(sink, dict, dictPos, total, final, pos);
    StoredBody(pos, final, pad, bits, bytes, r, out);
    r2 := Next(r, final);
  }

  /** Writes the block in the form that is chosen for it. `span` is how far the block reaches back from
      the current position; only while that is within the dictionary can the block be stored. */
  method PutBody(sink: Sink, buf: Buffer, end: nat, dict: array<byte>, dictPos: nat, span: nat, dictSize: nat,
                 forceRaw: bool, forceStatic: bool,
                 ghost final: bool, ghost all: seq<seq<Token>>, ghost ts: seq<Token>, ghost r: Regs, ghost out: seq<byte>)
    returns (ghost bits: Stream, ghost r2: Regs)
    requires sink.Valid() && |sink.sent| > 0 && |sink.full| <= 1 <= sink.cap && dict.Length >= WINDOW
    requires BlockState(buf, all, ts, end) && r.ctl.BlockHead? && Expand(out, ts).Some?
    requires span <= dictSize ==> InDictionary(dict[..], dictPos, buf.total, ts, out)
    modifies sink, buf.litCount
    ensures sink.Valid() && sink.sent == old(sink.sent) + bits
    ensures BodyPut(|old(sink.sent)| - 1, final, bits, r, out, r2, Expand(out, ts).value)
    ensures sink.before == old(sink.before) && old(sink.full) <= sink.full
    ensures BitsFit(|bits|, end)
    ensures span <= dictSize && buf.total > 0 && sink.cap >= OUT_CAP ==> |bits| <= 41 + 8 * buf.total
  {
    hide LitsCounted, DistsCounted, Closed, AllOk, Expand, Carries, DynamicMax;
    ghost var pos := |sink.sent| - 1;
    if forceRaw && span <= dictSize {
      bits, r2 := StoreInstead(sink, dict, dictPos, buf.total, final, pos, ts, r, out);
      return;
    }
    var size0, buffer0, in0 := |sink.out|, sink.bitBuffer, sink.bitsIn;
    ghost var sent0, full0, d: seq<byte> := sink.sent, sink.full, dict[..];
    var ok;
    ok, bits, r2 := PutTokensBlock(sink, buf, end, forceStatic || buf.total < 48, final, all, ts, r, out);
    assert dict[..] == d;
    if span <= dictSize && buf.total > 0 && |sink.out| - size0 + 1 >= buf.total {
      sink.Rewind(size0, buffer0, in0, sent0, full0);
      bits, r2 := StoreInstead(sink, dict, dictPos, buf.total, final, pos, ts, r, out);
    } else if !ok {
      sink.Rewind(size0, buffer0, in0, sent0, full0);
      bits, r2 := PutStatic(sink, buf.codes, end, final, all, ts, r, out);
      TokensBody(pos, final, bits, ts, r, out, r2);
    } else {
      TokensBody(pos, final, bits, ts, r, out, r2);
    }
  }

  // ----- after the block

  /** Where the decompressor is after the flush. */
  function AfterFlush(r: Regs, flush: Flush): Regs {
    match flush
    case NoFlush => r
    case Finish => r.(ctl := Ctl.Done)
    case _ => Next(r, false)
  }

  /** An empty stored block after a flush, zeros to the byte boundary after the last block. */
  method PutMarker(sink: Sink, flush: Flush, ghost r: Regs, ghost out: seq<byte>) returns (ghost bits: Stream)
    requires sink.Valid() && r.ctl == (if flush == Finish then LastAlign else BlockHead)
    modifies sink
    ensures sink.Valid() && sink.sent == old(sink.sent) + bits && Carries(|old(sink.sent)|, r, bits, out, AfterFlush(r, flush), out)
    ensures flush != NoFlush ==> WholeBytes(|sink.sent|)
    ensures sink.before == old(sink.before) && old(sink.full) <= sink.full && (flush == NoFlush ==> sink.full == old(sink.full))
    ensures |bits| <= 42
  {
    hide Carries, StoredBits, StoredTail, WholeBytes;
    ghost var s, pos := sink.sent, |sink.sent|;
    if flush == NoFlush {
      bits := [];
      assert s + [] == s;
      CarriesNothing(pos, r, out);
    } else if flush == Finish {
      bits := sink.PadToByte();
      FinishRead(pos, r, bits, out);
    } else {
      ghost var pad;
      bits, pad := PutEmptyBlock(sink);
      MarkerRead(pos, r, pad, out);
      WholeTail(pos, pad, StoredTail([]));
    }
  }

  lemma WholeTail(pos: nat, pad: Stream, t: Stream)
    requires WholeBytes(pos + 3 + |pad|) && WholeBytes(|t|)
    ensures WholeBytes(pos + (3 + |pad| + |t|))
  {
    WholeAppend(pos + 3 + |pad|, |t|);
  }

  /** PUT_BITS(0, 3) and on: the marker of a sync or full flush. */
  method PutEmptyBlock(sink: Sink) returns (ghost bits: Stream, ghost pad: Stream)
    requires sink.Valid()
    modifies sink
    ensures sink.Valid() && sink.sent == old(sink.sent) + bits && bits == StoredBits(false, pad, []) && |pad| < 8
    ensures WholeBytes(|old(sink.sent)| + 3 + |pad|) && |bits| == 3 + |pad| + |StoredTail([])| <= 42
    ensures sink.before == old(sink.before) && old(sink.full) <= sink.full
  {
    ghost var s := sink.sent;
    PutZeros(sink);
    pad := sink.PadToByte();
    PutSixteen(sink, 0);
    PutSixteen(sink, 0xFFFF);
    bits := StoredBits(false, pad, []);
    EmptyOrder(s, pad);
  }

  method PutZeros(sink: Sink)
    requires sink.Valid()
    modifies sink
    ensures sink.Valid() && sink.sent == old(sink.sent) + HeadBits(false, 0) && |sink.sent| == |old(sink.sent)| + 3
    ensures sink.before == old(sink.before) && old(sink.full) <= sink.full
  {
    var three, two := 3, 2;
    assert ToBits(0, three) == [false] + ToBits(0, two);
    sink.PutBits(0, three);
  }

  lemma EmptyOrder(s: Stream, pad: Stream)
    ensures s + HeadBits(false, 0) + pad + ToBits(0, 16) + ToBits(0xFFFF, 16) == s + StoredBits(false, pad, [])
  {
    var none: Stream := BytesToBits([]);
    AssocStored(s, HeadBits(false, 0), pad, ToBits(0, 16), ToBits(0xFFFF, 16), none);
    assert s + HeadBits(false, 0) + pad + ToBits(0, 16) + ToBits(0xFFFF, 16) + none
        == s + HeadBits(false, 0) + pad + ToBits(0, 16) + ToBits(0xFFFF, 16);
  }

  // ----- flushing

  /** A block in any form leaves room in the output buffer, for a marker as well. */
  lemma StillRoom(bits: nat, end: nat, in0: nat, in1: nat, before: nat, full: nat)
    requires 8 * before + in0 + 1 + bits == 8 * before + 8 * full + in1 && in0 < 8 && end <= CODE_BUF_SIZE
    requires BitsFit(bits, end)
    ensures full < OUT_CAP - 8
  {
    assert 232 * end / 25 <= 608174;
  }

  lemma CountedIsOk(count: seq<nat>, ts: seq<Token>)
    requires LitsCounted(count, ts)
    ensures AllOk(ts)
  {
  }

  /** Closes the block and writes it after its first bit. */
  method PutBlock(sink: Sink, buf: Buffer, dict: array<byte>, dictPos: nat, span: nat, dictSize: nat,
                  forceRaw: bool, forceStatic: bool, final: bool, ghost r: Regs, ghost out: seq<byte>)
    returns (ghost bits: Stream, ghost r2: Regs)
    requires sink.Valid() && sink.full == [] && sink.cap == OUT_CAP && buf.Valid() && dict.Length >= WINDOW && dict != buf.codes
    requires r.ctl.BlockHead? && Expand(out, buf.Tokens()).Some?
    requires span <= dictSize ==> InDictionary(dict[..], dictPos, buf.total, buf.Tokens(), out)
    modifies sink, buf`ptr, buf.codes, buf.litCount
    ensures sink.Valid() && sink.sent == old(sink.sent) + bits && sink.before == old(sink.before) && |sink.full| < OUT_CAP - 8
    ensures Carries(|old(sink.sent)|, r, bits, out, r2, Expand(out, old(buf.Tokens())).value)
    ensures r2.ctl == if final then LastAlign else BlockHead
    ensures span <= dictSize && old(buf.total) > 0 ==> |bits| <= 42 + 8 * old(buf.total)
  {
    hide LitsCounted, DistsCounted, Closed, AllOk, Expand, Carries, Laid, InDictionary;
    ghost var ts, d, s0: Stream, in0 := buf.Tokens(), dict[..], sink.sent, sink.bitsIn;
    ghost var lits, dists := buf.litCount[..], buf.distCount[..];
    FewTokens(buf.codes[..], buf.flags, buf.ptr, buf.gs, buf.cur);
    CountedIsOk(lits, ts);
    ghost var all := buf.Close();
    ghost var bytes := buf.codes[..buf.ptr];
    PutFirstBit(sink, final);
    assert buf.codes[..buf.ptr] == bytes;
    assert buf.litCount[..] == lits && buf.distCount[..] == dists && dict[..] == d;
    bits, r2 := PutBody(sink, buf, buf.ptr, dict, dictPos, span, dictSize, forceRaw, forceStatic, final, all, ts, r, out);
    StillRoom(|bits|, buf.ptr, in0, sink.bitsIn, |sink.before|, |sink.full|);
    Assoc(s0, [final], bits);
    bits := [final] + bits;
  }

  method PutFirstBit(sink: Sink, final: bool)
    requires sink.Valid() && sink.full == []
    modifies sink
    ensures sink.Valid() && sink.sent == old(sink.sent) + [final] && sink.before == old(sink.before) && |sink.full| <= 1
  {
    ghost var n, in0 := |sink.before|, sink.bitsIn;
    var one, v := 1, if final then 1 else 0;
    assert ToBits(v, one) == [final] by {
      assert ToBits(v / 2, 0) == [];
    }
    assert Pow2(one) == 2;
    sink.PutBits(v, one);
  }

  /** Flushes the recorded tokens as one block. The output buffer is never overrun, which the compressor
      asserts at the end. A block whose input is still in the dictionary is never expanded by more than the
      headers of a stored block and a marker. */
  method FlushBlock(sink: Sink, buf: Buffer, dict: array<byte>, dictPos: nat, span: nat, dictSize: nat,
                    forceRaw: bool, forceStatic: bool, flush: Flush, ghost r: Regs, ghost out: seq<byte>)
    returns (bytes: seq<byte>, ghost bits: Stream, ghost r2: Regs)
    requires sink.Valid() && sink.full == [] && sink.cap == OUT_CAP && buf.Valid() && dict.Length >= WINDOW && dict != buf.codes
    requires r.ctl.BlockHead? && Expand(out, buf.Tokens()).Some?
    requires span <= dictSize ==> InDictionary(dict[..], dictPos, buf.total, buf.Tokens(), out)
    modifies sink, buf, buf.codes, buf.litCount, buf.distCount
    ensures buf.Valid() && buf.Tokens() == [] && buf.ptr == 1 && |bytes| < OUT_CAP
    ensures sink.Valid() && sink.full == [] && sink.sent == old(sink.sent) + bits && sink.before == old(sink.before) + bytes
    ensures Carries(|old(sink.sent)|, r, bits, out, r2, Expand(out, old(buf.Tokens())).value)
    ensures r2.ctl == if flush == Finish then Ctl.Done else BlockHead
    ensures flush != NoFlush ==> WholeBytes(|sink.sent|)
    ensures span <= dictSize && old(buf.total) > 0 ==> |bits| <= 84 + 8 * old(buf.total)
  {
    hide LitsCounted, DistsCounted, Closed, Expand, Carries, Laid, InDictionary;
    ghost var out2, s0 := Expand(out, buf.Tokens()).value, sink.sent;
    ghost var a, b, r1;
    a, r1 := PutBlock(sink, buf, dict, dictPos, span, dictSize, forceRaw, forceStatic, flush == Finish, r, out);
    ghost var before, full, in1 := |sink.before|, |sink.full|, sink.bitsIn;
    b := PutMarker(sink, flush, r1, out2);
    assert 8 * before + 8 * |sink.full| + sink.bitsIn == 8 * before + 8 * full + in1 + |b|;
    bits, r2 := a + b, AfterFlush(r1, flush);
    CarriesBoth(|s0|, r, a, out, r1, out2, b, r2, out2);
    Assoc(s0, a, b);
    assert |sink.out| < sink.cap;
    bytes := sink.Take();
    buf.Reset();
  }
}
