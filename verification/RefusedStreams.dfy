/** What no stream may say: the reference never reaches its end over a block of the fourth kind, a match from
    in front of the output, tables that are no codes, or code sizes repeated with none before or past their number. */
module RefusedStreams {
  import opened Bits
  import opened Canonical
  import opened Machine
  import opened InflateSpec
  import opened Tokens
  import opened Blocks
  import opened Chunking
  import opened KnownStreams

  lemma FailedForGood(a: Ref, b: Ref, end: Ref)
    requires Inflates(a, b) && b.regs.ctl.Failed? && end.regs.ctl.Done?
    ensures !Inflates(a, end)
  {
    assert Step(b) == Some(b) && Step(end) == Some(end);
    if Inflates(a, end) {
      FixedUnique(Step, a, b, end);
    }
  }

  /** A block of kind 3, whatever follows and whether or not it is the last. */
  lemma FourthKind(h: byte, t: seq<byte>, end: Ref)
    requires h % 8 == 6 || h % 8 == 7
    ensures !Deflated([h] + t, end)
  {
    hide ToBits, BytesToBits, Step, OnBits, Deflated;
    var v, rest := h % 8, ToBits(h / 8, 5) + BytesToBits(t);
    ByteFront(h, t);
    LowThree(h);
    Pow2Values();
    assert ToBits(h, 8) + BytesToBits(t) == ToBits(v, 3) + rest;
    AlwaysBits(Start, v, 3, []);
    NoFourth(v);
    assert CarriesTo(Start, ToBits(v, 3), rest, [], OnBits(Start, v), []);
    Refused([h] + t, Ref(OnBits(Start, v), rest, []), end);
  }

  lemma NoFourth(v: nat)
    requires v == 6 || v == 7
    ensures OnBits(Start, v).ctl.Failed?
  {
  }

  lemma LowThree(h: byte)
    ensures ToBits(h, 8) == ToBits(h % 8, 3) + ToBits(h / 8, 5)
  {
    hide ToBits;
    BitFront(h, 7);
    BitFront(h / 2, 6);
    BitFront(h / 4, 5);
    BitFront(h % 8, 2);
    BitFront(h % 8 / 2, 1);
    BitFront(h % 8 / 4, 0);
    NoBits(h % 8 / 4 / 2);
    assert h / 2 / 2 == h / 4 && h / 4 / 2 == h / 8 && h % 8 / 2 / 2 == h % 8 / 4;
    assert h % 8 % 2 == h % 2 && h % 8 / 2 % 2 == h / 2 % 2 && h % 8 / 4 % 2 == h / 4 % 2;
  }

  lemma NoBits(v: nat)
    ensures ToBits(v, 0) == []
  {
  }

  /** A match whose distance is greater than what has been put out. */
  lemma FarMatchFails(r: Regs, len: nat, dist: nat, rest: Stream, out: seq<byte>)
    requires InSymbols(r) && Coded(r.lit, r.dist, Match(len, dist)) && dist > |out|
    ensures Inflates(Ref(r, TokenBits(r.lit, r.dist, Match(len, dist)) + rest, out), Ref(r.(ctl := Failed), rest, out))
  {
    hide Step;
    var x, v := len - 3, dist - 1;
    var a := Ref(r, LengthBits(r.lit, x) + (DistanceBits(r.dist, v) + rest), out);
    var b := Ref(r.(ctl := DistSym(len)), DistanceBits(r.dist, v) + rest, out);
    var c, d := Ref(r.(ctl := Copy(len, dist)), rest, out), Ref(r.(ctl := Failed), rest, out);
    assert LengthBits(r.lit, x) + DistanceBits(r.dist, v) + rest == a.rest;
    LengthRead(r, x, b.rest, out);
    DistanceRead(b.regs, len, v, rest, out);
    ReachesTrans(Step, a, b, c);
    TooFar(c);
    ReachesStep(Step, c, d);
    ReachesTrans(Step, a, c, d);
  }

  lemma TooFar(c: Ref)
    requires c.regs.ctl.Copy? && c.regs.ctl.dist > |c.out|
    ensures Step(c) == Some(c.(regs := c.regs.(ctl := Failed)))
  {
  }

  /** A stream that begins with a static block in which a match reaches back before the start of the output. */
  lemma FarMatch(bytes: seq<byte>, final: bool, ts: seq<Token>, len: nat, dist: nat, rest: Stream, end: Ref)
    requires AllCoded(StaticLit, StaticDist, ts) && Expand([], ts).Some? && dist > |Expand([], ts).value|
    requires Coded(StaticLit, StaticDist, Match(len, dist))
    requires BytesToBits(bytes) == HeadBits(final, 1) + (TokensBits(StaticLit, StaticDist, ts)
      + (TokenBits(StaticLit, StaticDist, Match(len, dist)) + rest))
    ensures !Deflated(bytes, end)
  {
    hide Step, StaticLit, StaticDist, BytesToBits, Deflated, TokenBits, TokensBits, HeadBits;
    StaticTables();
    var out := Expand([], ts).value;
    var far := TokenBits(StaticLit, StaticDist, Match(len, dist)) + rest;
    var data := TokensBits(StaticLit, StaticDist, ts) + far;
    var s := Start.(final := final, lit := StaticLit, dist := StaticDist, ctl := BuildBlock);
    var r := s.(ctl := Symbols);
    HeadRead(Start, final, 1, []);
    StaticHead(final);
    var a, b, c, d := Ref(Start, BytesToBits(bytes), []), Ref(s, data, []), Ref(r, data, []), Ref(r, far, out);
    assert CarriesTo(Start, HeadBits(final, 1), data, [], s, []);
    Built(b);
    ReachesStep(Step, b, c);
    ReachesTrans(Step, a, b, c);
    TokensRead(r, ts, far, []);
    ReachesTrans(Step, a, c, d);
    FarMatchFails(r, len, dist, rest, out);
    ReachesTrans(Step, a, d, Ref(r.(ctl := Failed), rest, out));
    Refused(bytes, Ref(r.(ctl := Failed), rest, out), end);
  }

  lemma Refused(bytes: seq<byte>, b: Ref, end: Ref)
    requires Inflates(Ref(Start, BytesToBits(bytes), []), b) && b.regs.ctl.Failed?
    ensures !Deflated(bytes, end)
  {
    if end.regs.ctl.Done? {
      FailedForGood(Ref(Start, BytesToBits(bytes), []), b, end);
    }
  }

  lemma StaticHead(final: bool)
    ensures OnBits(Start, (if final then 1 else 0) + 2) == Start.(final := final, lit := StaticLit, dist := StaticDist, ctl := BuildBlock)
  {
  }

  lemma Built(b: Ref)
    requires b.regs.ctl.BuildBlock? && IsTable(b.regs.lit) && IsTable(b.regs.dist)
    ensures Step(b) == Some(b.(regs := b.regs.(ctl := Symbols)))
  {
    hide IsTable;
  }

  /** The next symbol of the code length code is 16, to repeat the size before. */
  ghost predicate BeginsWith16(a: Ref) {
    DecodeSymbol(a.regs.clens, a.rest) == Some(16) && |a.regs.clens| > 16 && a.regs.clens[16] <= |a.rest|
  }

  /** Tables that are no codes, too many code sizes, and a repeat code before the first size. */
  lemma DeadEnds(a: Ref, end: Ref)
    requires end.regs.ctl.Done?
    ensures a.regs.ctl.BuildLens? && !IsTable(a.regs.clens) ==> !Inflates(a, end)
    ensures a.regs.ctl.BuildBlock? && !(IsTable(a.regs.lit) && IsTable(a.regs.dist)) ==> !Inflates(a, end)
    ensures a.regs.ctl.LenCodes? && |a.regs.t| == 3 && |a.regs.lens| > a.regs.t[0] + a.regs.t[1] ==> !Inflates(a, end)
    ensures a.regs.ctl.LenCodes? && LensWanted(a.regs) && a.regs.lens == [] && BeginsWith16(a) ==> !Inflates(a, end)
  {
    hide IsTable, DecodeSymbol;
    if Step(a).Some? && Step(a).value.regs.ctl.Failed? {
      ReachesStep(Step, a, Step(a).value);
      FailedForGood(a, Step(a).value, end);
    }
  }
}
