/** What DEFLATE streams of other writers inflate to: every stored block, and a static and a dynamic block
    byte by byte. Nothing here depends on what the compressor of this project sends. */
module KnownStreams {
  import opened Bits
  import opened Canonical
  import opened Machine
  import opened InflateSpec
  import opened BitBuffer
  import opened LzCopy
  import opened ReferenceRuns
  import opened SymbolTables
  import opened Tokens
  import opened Blocks
  import opened StaticCode
  import opened Chunking

  // ----- stored blocks

  const Last: Regs := Start.(final := true)

  lemma ByteFront(h: byte, t: seq<byte>)
    ensures BytesToBits([h] + t) == ToBits(h, 8) + BytesToBits(t)
  {
    BytesToBitsAppend([h], t);
    BytesToBitsOne(h);
  }

  lemma BitFront(v: nat, n: nat)
    ensures ToBits(v, n + 1) == [v % 2 == 1] + ToBits(v / 2, n)
  {
  }

  lemma StoredKind(h: byte)
    requires h % 8 == 1
    ensures ToBits(h, 8) == HeadBits(true, 0) + ToBits(h / 8, 5)
  {
    hide ToBits;
    BitFront(h, 7);
    BitFront(h / 2, 6);
    BitFront(h / 4, 5);
    BitFront(0, 1);
    BitFront(0, 0);
    assert ToBits(0, 0) == [];
    assert ToBits(0, 2) == [false, false];
    assert h / 2 / 2 == h / 4 && h / 4 / 2 == h / 8 && h % 2 == 1 && h / 2 % 2 == 0 && h / 4 % 2 == 0;
  }

  /** The first byte of a stream that is one stored block: a last block, kind 0, and five bits passed over. */
  lemma StoredStart(h: byte, t: seq<byte>)
    requires h % 8 == 1
    ensures Inflates(Ref(Start, BytesToBits([h] + t), []), Ref(Last.(ctl := RawHeader([])), BytesToBits(t), []))
  {
    hide ToBits, BytesToBits, Step, WholeBytes;
    var pad, tail := ToBits(h / 8, 5), BytesToBits(t);
    ByteFront(h, t);
    StoredKind(h);
    HeadRead(Start, true, 0, []);
    assert OnBits(Start, 1) == Last.(ctl := RawAlign);
    WholeOfBytes(|t|);
    AlignRead(Last.(ctl := RawAlign), pad, tail, []);
    assert CarriesTo(Start, HeadBits(true, 0), pad + tail, [], Last.(ctl := RawAlign), []);
    assert HeadBits(true, 0) + pad + tail == HeadBits(true, 0) + (pad + tail);
    ReachesTrans(Step, Ref(Start, BytesToBits([h] + t), []), Ref(Last.(ctl := RawAlign), pad + tail, []),
      Ref(Last.(ctl := RawHeader([])), tail, []));
  }

  /** A byte of the length or of its complement. */
  lemma HeaderByte(got: seq<nat>, v: byte, t: seq<byte>)
    requires |got| < 3
    ensures Inflates(Ref(Last.(ctl := RawHeader(got)), BytesToBits([v] + t), []), Ref(Last.(ctl := RawHeader(got + [v])), BytesToBits(t), []))
  {
    ByteFront(v, t);
    HeaderByteRead(Last.(ctl := RawHeader(got)), got, v, []);
    assert CarriesTo(Last.(ctl := RawHeader(got)), ToBits(v, 8), BytesToBits(t), [], Last.(ctl := RawHeader(got + [v])), []);
  }

  /** After the last of them the block is refused unless the complement is right. */
  function AfterHeader(a: byte, b: byte, c: byte, d: byte): Regs {
    Last.(ctl := if a + c == 255 && b + d == 255 then RawData(a + 256 * b) else Failed)
  }

  lemma LastHeaderByte(a: byte, b: byte, c: byte, d: byte, t: seq<byte>)
    ensures Inflates(Ref(Last.(ctl := RawHeader([a, b, c])), BytesToBits([d] + t), []), Ref(AfterHeader(a, b, c, d), BytesToBits(t), []))
  {
    var r := Last.(ctl := RawHeader([a, b, c]));
    ByteFront(d, t);
    Pow2Values();
    AlwaysBits(r, d, 8, []);
    assert OnBits(r, d) == AfterHeader(a, b, c, d);
    assert CarriesTo(r, ToBits(d, 8), BytesToBits(t), [], AfterHeader(a, b, c, d), []);
  }

  lemma StoredHeader(h: byte, a: byte, b: byte, c: byte, d: byte, t: seq<byte>)
    requires h % 8 == 1
    ensures Inflates(Ref(Start, BytesToBits([h, a, b, c, d] + t), []), Ref(AfterHeader(a, b, c, d), BytesToBits(t), []))
  {
    var t3, t2, t1: seq<byte> := [d] + t, [c, d] + t, [b, c, d] + t;
    var t0: seq<byte> := [a, b, c, d] + t;
    assert [h] + t0 == [h, a, b, c, d] + t && [a] + t1 == t0 && [b] + t2 == t1 && [c] + t3 == t2;
    assert [] + [a] == [a] && [a] + [b] == [a, b] && [a, b] + [c] == [a, b, c];
    var s := Ref(Start, BytesToBits([h] + t0), []);
    StoredStart(h, t0);
    HeaderByte([], a, t1);
    ReachesTrans(Step, s, Ref(Last.(ctl := RawHeader([])), BytesToBits(t0), []), Ref(Last.(ctl := RawHeader([a])), BytesToBits(t1), []));
    HeaderByte([a], b, t2);
    ReachesTrans(Step, s, Ref(Last.(ctl := RawHeader([a])), BytesToBits(t1), []), Ref(Last.(ctl := RawHeader([a, b])), BytesToBits(t2), []));
    HeaderByte([a, b], c, t3);
    ReachesTrans(Step, s, Ref(Last.(ctl := RawHeader([a, b])), BytesToBits(t2), []), Ref(Last.(ctl := RawHeader([a, b, c])), BytesToBits(t3), []));
    LastHeaderByte(a, b, c, d, t);
    ReachesTrans(Step, s, Ref(Last.(ctl := RawHeader([a, b, c])), BytesToBits(t3), []), Ref(AfterHeader(a, b, c, d), BytesToBits(t), []));
  }

  /** Where a stored block of `n` bytes ends. */
  function StoredEnd(t: seq<byte>, n: nat): Ref
    requires n <= |t|
  {
    Ref(Last.(ctl := Ctl.Done), BytesToBits(t[n..]), t[..n])
  }

  lemma LastAligned(rest: seq<byte>, out: seq<byte>)
    ensures Inflates(Ref(Last.(ctl := LastAlign), BytesToBits(rest), out), Ref(Last.(ctl := Ctl.Done), BytesToBits(rest), out))
  {
    var bits := BytesToBits(rest);
    assert |bits| % 8 == 0 && bits[0..] == bits;
    ReachesStep(Step, Ref(Last.(ctl := LastAlign), bits, out), Ref(Last.(ctl := Ctl.Done), bits, out));
  }

  lemma StoredBody(n: nat, t: seq<byte>)
    requires n <= |t|
    ensures Inflates(Ref(Last.(ctl := RawData(n)), BytesToBits(t), []), StoredEnd(t, n))
  {
    hide BytesToBits, Step;
    var r, rest := Last.(ctl := RawData(n)), BytesToBits(t[n..]);
    BytesToBitsAppend(t[..n], t[n..]);
    assert t[..n] + t[n..] == t && [] + t[..n] == t[..n];
    RawDataRead(r, t[..n], []);
    assert CarriesTo(r, BytesToBits(t[..n]), rest, [], Next(r, true), t[..n]);
    LastAligned(t[n..], t[..n]);
    ReachesTrans(Step, Ref(r, BytesToBits(t), []), Ref(Next(r, true), rest, t[..n]), StoredEnd(t, n));
  }

  lemma Stuck(r: Regs, left: nat, out: seq<byte>)
    requires r.ctl == RawData(left) && left > 0
    ensures Step(Ref(r, [], out)).None?
  {
  }

  /** Too few bytes: the reference gets stuck. */
  lemma StoredShort(n: nat, t: seq<byte>)
    requires n > |t|
    ensures Inflates(Ref(Last.(ctl := RawData(n)), BytesToBits(t), []), Ref(Last.(ctl := RawData(n - |t|)), [], t))
    ensures Step(Ref(Last.(ctl := RawData(n - |t|)), [], t)).None?
  {
    hide Step, BytesToBits, Inflates;
    StoredRun(Last.(ctl := RawData(n)), n, t, [], []);
    assert BytesToBits(t) + [] == BytesToBits(t) && [] + t == t;
    Stuck(Last.(ctl := RawData(n - |t|)), n - |t|, t);
  }

  /** A stream that is one stored block inflates just when the second length is the complement of the first
      and there are as many bytes, and then to these bytes. */
  lemma StoredStreams(h: byte, a: byte, b: byte, c: byte, d: byte, t: seq<byte>, end: Ref)
    requires h % 8 == 1
    ensures Deflated([h, a, b, c, d] + t, end) <==>
      a + c == 255 && b + d == 255 && a + 256 * b <= |t| && end == StoredEnd(t, a + 256 * b)
  {
    hide Step, AfterHeader;
    var s, m, n := Ref(Start, BytesToBits([h, a, b, c, d] + t), []), Ref(AfterHeader(a, b, c, d), BytesToBits(t), []), a + 256 * b;
    StoredHeader(h, a, b, c, d, t);
    AfterHeaderIs(a, b, c, d, BytesToBits(t));
    if m.regs.ctl.Failed? {
      if Deflated([h, a, b, c, d] + t, end) {
        DoneStays(end);
        FixedUnique(Step, s, m, end);
      }
    } else if n <= |t| {
      StoredBody(n, t);
      ReachesTrans(Step, s, m, StoredEnd(t, n));
      DoneStays(StoredEnd(t, n));
      if Deflated([h, a, b, c, d] + t, end) {
        DoneStays(end);
        FixedUnique(Step, s, StoredEnd(t, n), end);
      }
    } else {
      var stuck := Ref(Last.(ctl := RawData(n - |t|)), [], t);
      StoredShort(n, t);
      ReachesTrans(Step, s, m, stuck);
      if Deflated([h, a, b, c, d] + t, end) {
        DoneStays(end);
        FixedNotStuck(Step, s, end, stuck);
      }
    }
  }

  lemma AfterHeaderIs(a: byte, b: byte, c: byte, d: byte, rest: Stream)
    ensures var m := Ref(AfterHeader(a, b, c, d), rest, []);
      if a + c == 255 && b + d == 255 then m.regs == Last.(ctl := RawData(a + 256 * b)) else m.regs.ctl.Failed? && Step(m) == Some(m)
  {
  }

  lemma DoneStays(a: Ref)
    requires a.regs.ctl.Done?
    ensures Step(a) == Some(a)
  {
  }

  // ----- bits as numbers

  /** `n` bits that denote `v`, least significant first; `p` is 2 to the power of `n`. */
  predicate Denotes(s: Stream, v: nat, n: nat, p: nat) {
    |s| == n && Value(s) == v && Pow2(n) == p
  }

  lemma Joined(s: Stream, v: nat, n: nat, p: nat, t: Stream, w: nat, m: nat, q: nat)
    requires Denotes(s, v, n, p) && Denotes(t, w, m, q)
    ensures Denotes(s + t, v + p * w, n + m, p * q)
  {
    ValueAppend(s, t);
    Pow2Add(n, m);
  }

  lemma SameNumber(s: Stream, t: Stream, v: nat, n: nat, p: nat)
    requires Denotes(s, v, n, p) && Denotes(t, v, n, p)
    ensures s == t
  {
    ToBitsOfValue(s);
    ToBitsOfValue(t);
  }

  lemma NumberBits(v: nat, n: nat, p: nat)
    requires Pow2(n) == p && v < p
    ensures Denotes(ToBits(v, n), v, n, p)
  {
    ValueOfToBits(v, n);
  }

  /** Six bytes at the front. */
  lemma SixBytes(b0: byte, b1: byte, b2: byte, b3: byte, b4: byte, b5: byte)
    ensures Denotes(BytesToBits([b0, b1, b2, b3, b4, b5]),
      b0 + 0x100 * b1 + 0x1_0000 * b2 + 0x100_0000 * b3 + 0x1_0000_0000 * b4 + 0x100_0000_0000 * b5, 48, 0x1_0000_0000_0000)
  {
    Pow2Values();
    ThreeBytes(b0, b1, b2);
    ThreeBytes(b3, b4, b5);
    var x, y := b0 + 0x100 * b1 + 0x1_0000 * b2, b3 + 0x100 * b4 + 0x1_0000 * b5;
    BytesToBitsAppend([b0, b1, b2], [b3, b4, b5]);
    assert [b0, b1, b2] + [b3, b4, b5] == [b0, b1, b2, b3, b4, b5];
    Joined(BytesToBits([b0, b1, b2]), x, 24, 0x100_0000, BytesToBits([b3, b4, b5]), y, 24, 0x100_0000);
  }

  lemma ThreeBytes(b0: byte, b1: byte, b2: byte)
    ensures Denotes(BytesToBits([b0, b1, b2]), b0 + 0x100 * b1 + 0x1_0000 * b2, 24, 0x100_0000)
  {
    Pow2Values();
    ByteFront(b0, [b1, b2]);
    ByteFront(b1, [b2]);
    BytesToBitsOne(b2);
    assert [b0] + [b1, b2] == [b0, b1, b2] && [b1] + [b2] == [b1, b2];
    NumberBits(b0, 8, 256);
    NumberBits(b1, 8, 256);
    NumberBits(b2, 8, 256);
    Joined(ToBits(b1, 8), b1, 8, 256, ToBits(b2, 8), b2, 8, 256);
    Joined(ToBits(b0, 8), b0, 8, 256, BytesToBits([b1, b2]), b1 + 0x100 * b2, 16, 0x1_0000);
  }

  /** The number the bits of a code denote when read least significant first. */
  function Reversed(c: nat, n: nat): nat {
    if n == 0 then 0 else Reversed(c / 2, n - 1) + Pow2(n - 1) * (c % 2)
  }

  lemma {:induction false} CodeNumber(c: nat, n: nat)
    ensures Denotes(CodeBits(c, n), Reversed(c, n), n, Pow2(n))
    decreases n
  {
    if n > 0 {
      CodeNumber(c / 2, n - 1);
      ValueAppend(CodeBits(c / 2, n - 1), [c % 2 == 1]);
      assert Value([c % 2 == 1]) == c % 2 by {
        assert [c % 2 == 1][1..] == [];
      }
    }
  }

  lemma HeadNumber(kind: nat)
    requires kind < 4
    ensures Denotes(HeadBits(true, kind), 1 + 2 * kind, 3, 8)
  {
    var two, one: Stream := 2, [true];
    Pow2Values();
    NumberBits(kind, two, 4);
    assert Value(one) == 1 by {
      assert one[1..] == [];
    }
    Joined(one, 1, 1, 2, ToBits(kind, two), kind, two, 4);
  }

  lemma BigPowers()
    ensures Pow2(9) == 0x200 && Pow2(11) == 0x800 && Pow2(13) == 0x2000 && Pow2(18) == 0x4_0000 && Pow2(19) == 0x8_0000
    ensures Pow2(27) == 0x800_0000 && Pow2(32) == 0x1_0000_0000 && Pow2(35) == 0x8_0000_0000 && Pow2(37) == 0x20_0000_0000
    ensures Pow2(39) == 0x80_0000_0000 && Pow2(41) == 0x200_0000_0000 && Pow2(43) == 0x800_0000_0000
    ensures Pow2(46) == 0x4000_0000_0000 && Pow2(50) == 0x4_0000_0000_0000 && Pow2(51) == 0x8_0000_0000_0000
  {
    Pow2Values();
    SmallPowers();
    Pow2Add(9, 9);
    Pow2Add(18, 1);
    Pow2Add(18, 9);
    Pow2Add(16, 16);
    Pow2Add(27, 8);
    Pow2Add(32, 5);
    Pow2Add(37, 2);
    Pow2Add(39, 2);
    Pow2Add(41, 2);
    Pow2Add(41, 5);
    Pow2Add(46, 4);
    Pow2Add(50, 1);
  }

  /** The first `k` tokens are sent as this number of `n` bits. */
  ghost predicate Written(lit: Sizes, dist: Sizes, ts: seq<Token>, k: nat, v: nat, n: nat) {
    && k <= |ts| && AllCoded(lit, dist, ts[..k])
    && Denotes(TokensBits(lit, dist, ts[..k]), v, n, Pow2(n))
  }

  lemma OneToken(lit: Sizes, dist: Sizes, ts: seq<Token>, k: nat, v: nat, n: nat, w: nat, m: nat)
    requires k < |ts| && Written(lit, dist, ts, k, v, n) && Coded(lit, dist, ts[k])
    requires Denotes(TokenBits(lit, dist, ts[k]), w, m, Pow2(m))
    ensures Written(lit, dist, ts, k + 1, v + Pow2(n) * w, n + m)
  {
    hide Value, TokenBits, Coded;
    assert ts[..k + 1][..k] == ts[..k];
    Pow2Add(n, m);
    Joined(TokensBits(lit, dist, ts[..k]), v, n, Pow2(n), TokenBits(lit, dist, ts[k]), w, m, Pow2(m));
  }

  lemma OneMore(ts: seq<Token>, k: nat, out: seq<byte>)
    requires k < |ts| && Expand([], ts[..k]) == Some(out) && Applies(out, ts[k])
    ensures Expand([], ts[..k + 1]) == Some(Apply(out, ts[k]))
  {
    assert ts[..k] + [ts[k]] == ts[..k + 1];
    ExpandSnoc([], ts[..k], ts[k]);
  }

  // ----- one block and the zeros behind it

  lemma PadDropped(r: Regs, pad: Stream, out: seq<byte>)
    requires |pad| < 8 && r.ctl.LastAlign?
    ensures Inflates(Ref(r, pad, out), Ref(r.(ctl := Ctl.Done), [], out))
  {
    assert |pad| % 8 == |pad| && pad[|pad|..] == [];
    ReachesStep(Step, Ref(r, pad, out), Ref(r.(ctl := Ctl.Done), [], out));
  }

  lemma OneBlock(bytes: seq<byte>, bits: Stream, pad: Stream, r: Regs, out: seq<byte>)
    requires BytesToBits(bytes) == bits + pad && |pad| < 8 && r.ctl.LastAlign? && Always(Start, bits, [], r, out)
    ensures Deflated(bytes, Ref(r.(ctl := Ctl.Done), [], out))
  {
    hide Step, BytesToBits;
    assert CarriesTo(Start, bits, pad, [], r, out);
    PadDropped(r, pad, out);
    ReachesTrans(Step, Ref(Start, BytesToBits(bytes), []), Ref(r, pad, out), Ref(r.(ctl := Ctl.Done), [], out));
  }

  // ----- a static block

  /** The bytes 4B 04 00 are one static block of the letter a. */
  lemma StaticStream()
    ensures exists end :: Deflated([0x4B, 0x04, 0x00], end) && end.out == [0x61] && end.rest == []
  {
    hide Deflated, StaticLit, StaticDist, BytesToBits, CodeBits, ToBits;
    var ts, six := [Lit(0x61)], 6;
    StaticCodes(0x61);
    StaticCodes(256);
    StaticSizes(0x61);
    StaticSizes(256);
    assert AllCoded(StaticLit, StaticDist, ts);
    var bits, pad := StaticBits(true, ts), ToBits(0, six);
    assert ts[..0] == [] && Expand([], ts[..0]) == Some([]) && Apply([], ts[0]) == [0x61];
    assert Expand([], ts) == Some([0x61]);
    StaticRead(Start, true, ts, []);
    StaticNumberOf(bits, ts);
    ThreeBytes(0x4B, 0x04, 0x00);
    ZeroBits(six);
    Pow2Values();
    SmallPowers();
    Joined(bits, 0x44B, 18, 0x4_0000, pad, 0, six, 64);
    SameNumber(BytesToBits([0x4B, 0x04, 0x00]), bits + pad, 0x44B, 24, 0x100_0000);
    OneBlock([0x4B, 0x04, 0x00], bits, pad, Next(Start.(lit := StaticLit, dist := StaticDist), true), [0x61]);
  }

  lemma ZeroBits(n: nat)
    ensures Denotes(ToBits(0, n), 0, n, Pow2(n))
  {
    ValueOfToBits(0, n);
  }

  /** 1, kind 1, the code 10010001, the code 0000000. */
  lemma StaticNumberOf(bits: Stream, ts: seq<Token>)
    requires ts == [Lit(0x61)] && AllCoded(StaticLit, StaticDist, ts) && bits == StaticBits(true, ts)
    ensures Denotes(bits, 0x44B, 18, 0x4_0000)
  {
    hide StaticLit, StaticDist, Denotes, CodeBits, ToBits, Code, HeadBits;
    StaticSizes(0x61);
    StaticCodes(0x61);
    StaticCodes(256);
    HeadNumber(1);
    TwoCodes();
    assert ts[..0] == [] && TokensBits(StaticLit, StaticDist, ts) == [] + SymbolBits(StaticLit, 0x61);
    assert [] + SymbolBits(StaticLit, 0x61) == CodeBits(145, 8) && SymbolBits(StaticLit, 256) == CodeBits(0, 7);
    Joined(CodeBits(145, 8), 0x89, 8, 256, CodeBits(0, 7), 0, 7, 128);
    Joined(HeadBits(true, 1), 3, 3, 8, CodeBits(145, 8) + CodeBits(0, 7), 0x89, 15, 32768);
  }

  lemma TwoCodes()
    ensures Denotes(CodeBits(145, 8), 0x89, 8, 256) && Denotes(CodeBits(0, 7), 0, 7, 128)
  {
    Pow2Values();
    CodeNumber(145, 8);
    CodeNumber(0, 7);
    assert Reversed(145, 8) == 0x89 && Reversed(0, 7) == 0;
  }

  /** Six letters and a match with extra bits in length and distance. */
  const RepeatTokens: seq<Token> := [Lit(97), Lit(98), Lit(99), Lit(100), Lit(101), Lit(102), Match(12, 6)]

  const RepeatBytes: seq<byte> := [0x4B, 0x4C, 0x4A, 0x4E, 0x49, 0x4D, 0x43, 0x26, 0x01]

  const Six: seq<byte> := [97, 98, 99, 100, 101, 102]

  lemma StaticLetter(b: byte, w: nat)
    requires b < 144 && w == Reversed(48 + b, 8)
    ensures Coded(StaticLit, StaticDist, Lit(b)) && Denotes(TokenBits(StaticLit, StaticDist, Lit(b)), w, 8, Pow2(8))
  {
    hide StaticLit, StaticDist, CodeBits, Reversed, Code;
    StaticSizes(b);
    StaticCodes(b);
    CodeNumber(48 + b, 8);
  }

  lemma SixLetters()
    ensures Reversed(145, 8) == 137 && Reversed(146, 8) == 73 && Reversed(147, 8) == 201
    ensures Reversed(148, 8) == 41 && Reversed(149, 8) == 169 && Reversed(150, 8) == 105
  {
    Pow2Values();
  }

  lemma MatchSymbolsOf12()
    ensures LenSym(9) == 265 && LenSymExtra(9) == 1 && DistSymOf(5) == 4 && DistSymExtra(5) == 1
  {
  }

  /** Length code 0001001 and extra bit 1, distance code 00100 and extra bit 1. */
  lemma StaticMatch()
    ensures Coded(StaticLit, StaticDist, Match(12, 6)) && Denotes(TokenBits(StaticLit, StaticDist, Match(12, 6)), 9416, 14, Pow2(14))
  {
    hide StaticLit, StaticDist, CodeBits, Reversed, Code, LenSym, LenSymExtra, DistSymOf, DistSymExtra, Value;
    var one := 1;
    MatchSymbolsOf12();
    StaticSizes(265);
    StaticCodes(265);
    StaticDistances(4);
    CodeNumber(9, 7);
    CodeNumber(4, 5);
    MatchCodes();
    SmallPowers();
    OneBitOf9And5();
    Joined(CodeBits(9, 7), 72, 7, 128, ToBits(9, one), 1, 1, 2);
    Joined(CodeBits(4, 5), 4, 5, 32, ToBits(5, one), 1, 1, 2);
    Joined(CodeBits(9, 7) + ToBits(9, one), 200, 8, 256, CodeBits(4, 5) + ToBits(5, one), 36, 6, 64);
  }

  lemma MatchCodes()
    ensures Reversed(9, 7) == 72 && Reversed(4, 5) == 4 && Pow2(14) == 16384
  {
    Pow2Values();
    SmallPowers();
  }

  lemma OneBitOf9And5()
    ensures Denotes(ToBits(9, 1), 1, 1, 2) && Denotes(ToBits(5, 1), 1, 1, 2)
  {
    var nine, five, zero: nat := 9, 5, 0;
    BitFront(nine, zero);
    BitFront(five, zero);
    assert Value([true]) == 1 by {
      assert [true][1..] == [];
    }
  }

  lemma RepeatTokensAre()
    ensures |RepeatTokens| == 7 && RepeatTokens[0] == Lit(97) && RepeatTokens[1] == Lit(98) && RepeatTokens[2] == Lit(99)
    ensures RepeatTokens[3] == Lit(100) && RepeatTokens[4] == Lit(101) && RepeatTokens[5] == Lit(102) && RepeatTokens[6] == Match(12, 6)
  {
  }

  lemma RepeatNumber()
    ensures Written(StaticLit, StaticDist, RepeatTokens, 7, 2650484555978983817, 62)
  {
    hide StaticLit, StaticDist, RepeatTokens, Denotes, Coded, TokenBits, TokensBits, Pow2, Reversed;
    RepeatTokensAre();
    SixLetters();
    PowersOf8();
    StaticLetter(97, 137);
    StaticLetter(98, 73);
    StaticLetter(99, 201);
    StaticLetter(100, 41);
    StaticLetter(101, 169);
    StaticLetter(102, 105);
    StaticMatch();
    NoTokensYet(StaticLit, StaticDist, RepeatTokens);
    hide Written;
    OneToken(StaticLit, StaticDist, RepeatTokens, 0, 0, 0, 137, 8);
    OneToken(StaticLit, StaticDist, RepeatTokens, 1, 137, 8, 73, 8);
    OneToken(StaticLit, StaticDist, RepeatTokens, 2, 18825, 16, 201, 8);
    OneToken(StaticLit, StaticDist, RepeatTokens, 3, 13191561, 24, 41, 8);
    OneToken(StaticLit, StaticDist, RepeatTokens, 4, 701057417, 32, 169, 8);
    OneToken(StaticLit, StaticDist, RepeatTokens, 5, 726550530441, 40, 105, 8);
    OneToken(StaticLit, StaticDist, RepeatTokens, 6, 116175271446921, 48, 9416, 14);
  }

  lemma NoTokensYet(lit: Sizes, dist: Sizes, ts: seq<Token>)
    ensures Written(lit, dist, ts, 0, 0, 0)
  {
  }

  lemma PowersOf8()
    ensures Pow2(0) == 1 && Pow2(8) == 0x100 && Pow2(16) == 0x1_0000 && Pow2(24) == 0x100_0000 && Pow2(32) == 0x1_0000_0000
    ensures Pow2(40) == 0x100_0000_0000 && Pow2(48) == 0x1_0000_0000_0000 && Pow2(62) == 0x4000_0000_0000_0000
  {
    Pow2Values();
    SmallPowers();
    Pow2Add(16, 8);
    Pow2Add(16, 16);
    Pow2Add(32, 8);
    Pow2Add(32, 16);
    Pow2Add(48, 14);
  }

  lemma RepeatExpanded()
    ensures Expand([], RepeatTokens) == Some(Six + Six + Six)
  {
    hide RepeatTokens, CopyOut;
    RepeatTokensAre();
    assert Expand([], RepeatTokens[..0]) == Some([]);
    assert [] + [97] == Six[..1] && Six[..1] + [98] == Six[..2] && Six[..2] + [99] == Six[..3];
    assert Six[..3] + [100] == Six[..4] && Six[..4] + [101] == Six[..5] && Six[..5] + [102] == Six;
    OneMore(RepeatTokens, 0, []);
    OneMore(RepeatTokens, 1, Six[..1]);
    OneMore(RepeatTokens, 2, Six[..2]);
    OneMore(RepeatTokens, 3, Six[..3]);
    OneMore(RepeatTokens, 4, Six[..4]);
    OneMore(RepeatTokens, 5, Six[..5]);
    OneMore(RepeatTokens, 6, Six);
    SixTwice();
    assert RepeatTokens[..7] == RepeatTokens;
  }

  /** Twelve bytes from six back are the six bytes twice. */
  lemma SixTwice()
    ensures CopyOut(Six, 12, 6) == Six + Six + Six
  {
    var r := CopyOut(Six, 12, 6);
    forall i | 6 <= i < 18
      ensures r[i] == r[i - 6]
    {
      CopyOutRepeats(Six, 12, 6, i);
    }
    assert r[..6] == Six;
    assert forall i :: 0 <= i < 6 ==> r[i] == r[..6][i];
    assert forall i :: 6 <= i < 12 ==> r[i] == Six[i - 6];
    assert forall i :: 12 <= i < 18 ==> r[i] == r[i - 6];
  }

  lemma RepeatBytesNumber()
    ensures Denotes(BytesToBits(RepeatBytes), 21203876447831870539, 72, 0x100_0000_0000_0000_0000)
  {
    hide BytesToBits, Value, Denotes;
    var a, b: seq<byte> := [0x4B, 0x4C, 0x4A, 0x4E, 0x49, 0x4D], [0x43, 0x26, 0x01];
    SixBytes(0x4B, 0x4C, 0x4A, 0x4E, 0x49, 0x4D);
    ThreeBytes(0x43, 0x26, 0x01);
    assert RepeatBytes == a + b;
    BytesToBitsAppend(a, b);
    Joined(BytesToBits(a), 84977241443403, 48, 0x1_0000_0000_0000, BytesToBits(b), 75331, 24, 0x100_0000);
  }

  lemma RepeatBitsNumber(bits: Stream)
    requires AllCoded(StaticLit, StaticDist, RepeatTokens) && |StaticLit| > 256 && bits == StaticBits(true, RepeatTokens)
    ensures Denotes(bits, 21203876447831870539, 72, 0x100_0000_0000_0000_0000)
  {
    hide StaticLit, StaticDist, RepeatTokens, Denotes, CodeBits, ToBits, Code, HeadBits, TokensBits;
    var t := TokensBits(StaticLit, StaticDist, RepeatTokens);
    StaticSizes(256);
    StaticCodes(256);
    HeadNumber(1);
    TwoCodes();
    PowersOf8();
    RepeatTokensAre();
    RepeatNumber();
    assert RepeatTokens[..7] == RepeatTokens;
    Joined(t, 2650484555978983817, 62, 0x4000_0000_0000_0000, CodeBits(0, 7), 0, 7, 128);
    Joined(HeadBits(true, 1), 3, 3, 8, t + CodeBits(0, 7), 2650484555978983817, 69, 0x20_0000_0000_0000_0000);
  }

  /** These nine bytes, one static block, are the text abcdef three times. */
  lemma RepeatStream()
    ensures exists end :: Deflated(RepeatBytes, end) && end.out == Six + Six + Six && end.rest == []
  {
    hide Deflated, StaticLit, StaticDist, BytesToBits, Denotes, RepeatTokens, Six, RepeatBytes, Expand;
    StaticSizes(0);
    RepeatTokensAre();
    RepeatNumber();
    assert RepeatTokens[..7] == RepeatTokens;
    RepeatExpanded();
    var bits, r := StaticBits(true, RepeatTokens), Next(Start.(lit := StaticLit, dist := StaticDist), true);
    StaticRead(Start, true, RepeatTokens, []);
    RepeatBitsNumber(bits);
    RepeatBytesNumber();
    SameNumber(BytesToBits(RepeatBytes), bits, 21203876447831870539, 72, 0x100_0000_0000_0000_0000);
    assert bits + [] == bits;
    OneBlock(RepeatBytes, bits, [], r, Six + Six + Six);
    assert Deflated(RepeatBytes, Ref(r.(ctl := Ctl.Done), [], Six + Six + Six));
  }
}
