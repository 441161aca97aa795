/** Literals and matches: what they expand to, the bits they are sent as, and that the decompressor
    turns those bits back into the expansion. */
module Tokens {
  import opened Bits
  import opened Canonical
  import opened Machine
  import opened InflateSpec
  import opened LzCopy
  import opened ReferenceRuns
  import opened SymbolTables

  const MIN_MATCH := 3
  const MAX_MATCH := 258
  const WINDOW := 32768

  datatype Token = Lit(b: byte) | Match(len: nat, dist: nat)

  predicate TokenOk(t: Token) {
    t.Match? ==> MIN_MATCH <= t.len <= MAX_MATCH && 1 <= t.dist <= WINDOW
  }

  predicate AllOk(ts: seq<Token>) {
    forall i :: 0 <= i < |ts| ==> TokenOk(ts[i])
  }

  /** A match must lie within the output before it. */
  predicate Applies(out: seq<byte>, t: Token) {
    t.Match? ==> 1 <= t.dist <= |out|
  }

  function Apply(out: seq<byte>, t: Token): (r: seq<byte>)
    requires Applies(out, t)
    ensures |r| == |out| + Length(t) && out <= r
  {
    match t
    case Lit(b) => out + [b]
    case Match(len, dist) => CopyOut(out, len, dist)
  }

  function Length(t: Token): nat {
    if t.Lit? then 1 else t.len
  }

  /** The output after `ts`, or nothing if some match reaches back too far. */
  function Expand(out: seq<byte>, ts: seq<Token>): (r: Option<seq<byte>>)
    ensures r.Some? ==> out <= r.value
  {
    if ts == [] then Some(out)
    else
      var p := Expand(out, ts[..|ts| - 1]);
      if p.Some? && Applies(p.value, ts[|ts| - 1]) then Some(Apply(p.value, ts[|ts| - 1])) else None
  }

  lemma ExpandSnoc(out: seq<byte>, ts: seq<Token>, t: Token)
    requires Expand(out, ts).Some? && Applies(Expand(out, ts).value, t)
    ensures Expand(out, ts + [t]) == Some(Apply(Expand(out, ts).value, t))
  {
    assert (ts + [t])[..|ts|] == ts;
  }

  // ----- the bits of tokens

  /** The codes of the literal/length and distance symbols a token needs are there. */
  predicate Coded(lit: Sizes, dist: Sizes, t: Token) {
    match t
    case Lit(b) => b < |lit| && lit[b] > 0
    case Match(len, d) =>
      && TokenOk(t)
      && LenSym(len - 3) < |lit| && lit[LenSym(len - 3)] > 0
      && DistSymOf(d - 1) < |dist| && dist[DistSymOf(d - 1)] > 0
  }

  predicate AllCoded(lit: Sizes, dist: Sizes, ts: seq<Token>) {
    forall i :: 0 <= i < |ts| ==> Coded(lit, dist, ts[i])
  }

  function LengthBits(lit: Sizes, x: nat): Stream
    requires LenSym(x) < |lit|
  {
    SymbolBits(lit, LenSym(x)) + ToBits(x, LenSymExtra(x))
  }

  function DistanceBits(dist: Sizes, v: nat): Stream
    requires DistSymOf(v) < |dist|
  {
    SymbolBits(dist, DistSymOf(v)) + ToBits(v, DistSymExtra(v))
  }

  function TokenBits(lit: Sizes, dist: Sizes, t: Token): Stream
    requires Coded(lit, dist, t)
  {
    match t
    case Lit(b) => SymbolBits(lit, b)
    case Match(len, d) => LengthBits(lit, len - 3) + DistanceBits(dist, d - 1)
  }

  function TokensBits(lit: Sizes, dist: Sizes, ts: seq<Token>): Stream
    requires AllCoded(lit, dist, ts)
  {
    if ts == [] then [] else TokensBits(lit, dist, ts[..|ts| - 1]) + TokenBits(lit, dist, ts[|ts| - 1])
  }

  // ----- decoding them

  ghost predicate InSymbols(r: Regs) {
    r.ctl.Symbols? && Fits(r.lit) && Fits(r.dist)
  }

  lemma SymbolRead(r: Regs, sizes: Sizes, s: nat, rest: Stream, out: seq<byte>)
    requires Silent(r).None? && SymbolCode(r) == Some(sizes) && Fits(sizes) && s < |sizes| && sizes[s] > 0
    ensures Inflates(Ref(r, SymbolBits(sizes, s) + rest, out), Ref(OnSymbol(r, s), rest, out))
  {
    var a := Ref(r, SymbolBits(sizes, s) + rest, out);
    assert Starts(sizes, s, a.rest);
    DecodeOfSymbolBits(sizes, s, a.rest);
    assert a.rest[sizes[s]..] == rest;
    assert FixedBits(r.ctl).None?;
    ReachesStep(Step, a, Ref(OnSymbol(r, s), rest, out));
  }

  lemma BitsRead(r: Regs, v: nat, n: nat, rest: Stream, out: seq<byte>)
    requires Silent(r).None? && FixedBits(r.ctl) == Some(n)
    ensures Inflates(Ref(r, ToBits(v, n) + rest, out), Ref(OnBits(r, Low(v, n)), rest, out))
  {
    var a := Ref(r, ToBits(v, n) + rest, out);
    LowBitsSame(v, n);
    assert a.rest[..n] == ToBits(v, n) && a.rest[n..] == rest;
    ReachesStep(Step, a, Ref(OnBits(r, Low(v, n)), rest, out));
  }

  lemma LiteralRead(r: Regs, b: byte, rest: Stream, out: seq<byte>)
    requires InSymbols(r) && b < |r.lit| && r.lit[b] > 0
    ensures Inflates(Ref(r, SymbolBits(r.lit, b) + rest, out), Ref(r, rest, out + [b]))
  {
    SymbolRead(r, r.lit, b, rest, out);
    ReachesStep(Step, Ref(OnSymbol(r, b), rest, out), Ref(r, rest, out + [b]));
    ReachesTrans(Step, Ref(r, SymbolBits(r.lit, b) + rest, out), Ref(OnSymbol(r, b), rest, out), Ref(r, rest, out + [b]));
  }

  lemma LengthRead(r: Regs, x: nat, rest: Stream, out: seq<byte>)
    requires InSymbols(r) && x < 256 && LenSym(x) < |r.lit| && r.lit[LenSym(x)] > 0
    ensures Inflates(Ref(r, LengthBits(r.lit, x) + rest, out), Ref(r.(ctl := DistSym(x + 3)), rest, out))
  {
    LengthsAgree(x);
    var s, e := LenSym(x), LenSymExtra(x);
    var a := Ref(r, LengthBits(r.lit, x) + rest, out);
    var b := Ref(OnSymbol(r, s), ToBits(x, e) + rest, out);
    var c := Ref(r.(ctl := DistSym(x + 3)), rest, out);
    assert a.rest == SymbolBits(r.lit, s) + b.rest;
    SymbolRead(r, r.lit, s, b.rest, out);
    if e > 0 {
      BitsRead(b.regs, x, e, rest, out);
      ReachesTrans(Step, a, b, c);
    } else {
      assert ToBits(x, e) + rest == rest;
    }
  }

  lemma DistanceRead(r: Regs, len: nat, v: nat, rest: Stream, out: seq<byte>)
    requires r.ctl == DistSym(len) && Fits(r.dist) && v < 32768 && DistSymOf(v) < |r.dist| && r.dist[DistSymOf(v)] > 0
    ensures Inflates(Ref(r, DistanceBits(r.dist, v) + rest, out), Ref(r.(ctl := Copy(len, v + 1)), rest, out))
  {
    hide Step;
    DistancesAgree(v);
    var s, e := DistSymOf(v), DistSymExtra(v);
    var a := Ref(r, DistanceBits(r.dist, v) + rest, out);
    var b := Ref(OnSymbol(r, s), ToBits(v, e) + rest, out);
    var c := Ref(r.(ctl := Copy(len, v + 1)), rest, out);
    assert a.rest == SymbolBits(r.dist, s) + b.rest;
    SymbolRead(r, r.dist, s, b.rest, out);
    if e > 0 {
      BitsRead(b.regs, v, e, rest, out);
      ReachesTrans(Step, a, b, c);
    } else {
      assert ToBits(v, e) + rest == rest;
    }
  }

  lemma MatchRead(r: Regs, len: nat, dist: nat, rest: Stream, out: seq<byte>)
    requires InSymbols(r) && Coded(r.lit, r.dist, Match(len, dist)) && dist <= |out|
    ensures Inflates(Ref(r, TokenBits(r.lit, r.dist, Match(len, dist)) + rest, out), Ref(r, rest, CopyOut(out, len, dist)))
  {
    var x, v := len - 3, dist - 1;
    var a := Ref(r, LengthBits(r.lit, x) + (DistanceBits(r.dist, v) + rest), out);
    var b := Ref(r.(ctl := DistSym(len)), DistanceBits(r.dist, v) + rest, out);
    var c := Ref(r.(ctl := Copy(len, dist)), rest, out);
    assert LengthBits(r.lit, x) + DistanceBits(r.dist, v) + rest == a.rest;
    LengthRead(r, x, b.rest, out);
    DistanceRead(b.regs, len, v, rest, out);
    ReachesTrans(Step, a, b, c);
    CopyRun(c.regs, len, dist, rest, out);
    ReachesTrans(Step, a, c, Ref(r, rest, CopyOut(out, len, dist)));
  }

  lemma TokenRead(r: Regs, t: Token, rest: Stream, out: seq<byte>)
    requires InSymbols(r) && Coded(r.lit, r.dist, t) && Applies(out, t)
    ensures Inflates(Ref(r, TokenBits(r.lit, r.dist, t) + rest, out), Ref(r, rest, Apply(out, t)))
  {
    if t.Lit? {
      LiteralRead(r, t.b, rest, out);
    } else {
      MatchRead(r, t.len, t.dist, rest, out);
    }
  }

  lemma ReadTwo(r: Regs, first: Stream, second: Stream, out: seq<byte>, mid: seq<byte>, b: Ref)
    requires Inflates(Ref(r, first + second, out), Ref(r, second, mid)) && Inflates(Ref(r, second, mid), b)
    ensures Inflates(Ref(r, first + second, out), b)
  {
    ReachesTrans(Step, Ref(r, first + second, out), Ref(r, second, mid), b);
  }

  /** Decoding the bits of a token sequence gives its expansion. */
  lemma {:induction false} TokensRead(r: Regs, ts: seq<Token>, rest: Stream, out: seq<byte>)
    requires InSymbols(r) && AllCoded(r.lit, r.dist, ts) && Expand(out, ts).Some?
    ensures Inflates(Ref(r, TokensBits(r.lit, r.dist, ts) + rest, out), Ref(r, rest, Expand(out, ts).value))
    decreases |ts|
  {
    if ts == [] {
      assert TokensBits(r.lit, r.dist, ts) + rest == rest;
      ReachesSelf(Step, Ref(r, rest, out));
    } else {
      var n := |ts| - 1;
      var front, last := TokensBits(r.lit, r.dist, ts[..n]), TokenBits(r.lit, r.dist, ts[n]);
      var mid := Expand(out, ts[..n]).value;
      TokensRead(r, ts[..n], last + rest, out);
      TokenRead(r, ts[n], rest, mid);
      ReadTwo(r, front, last + rest, out, mid, Ref(r, rest, Expand(out, ts).value));
      assert front + last + rest == front + (last + rest);
    }
  }

  /** A compressed block's data: its tokens, then the end-of-block code. */
  function BlockData(lit: Sizes, dist: Sizes, ts: seq<Token>): Stream
    requires AllCoded(lit, dist, ts) && |lit| > 256
  {
    TokensBits(lit, dist, ts) + SymbolBits(lit, 256)
  }

  lemma EndRead(r: Regs, rest: Stream, out: seq<byte>)
    requires InSymbols(r) && |r.lit| > 256 && r.lit[256] > 0
    ensures Inflates(Ref(r, SymbolBits(r.lit, 256) + rest, out), Ref(r.(ctl := BlockEnd), rest, out))
  {
    SymbolRead(r, r.lit, 256, rest, out);
  }

  lemma BlockDataRead(r: Regs, ts: seq<Token>, rest: Stream, out: seq<byte>)
    requires InSymbols(r) && AllCoded(r.lit, r.dist, ts) && Expand(out, ts).Some? && |r.lit| > 256 && r.lit[256] > 0
    ensures Inflates(Ref(r, BlockData(r.lit, r.dist, ts) + rest, out), Ref(r.(ctl := BlockEnd), rest, Expand(out, ts).value))
  {
    var front, last := TokensBits(r.lit, r.dist, ts), SymbolBits(r.lit, 256);
    var mid := Expand(out, ts).value;
    TokensRead(r, ts, last + rest, out);
    EndRead(r, rest, mid);
    ReadTwo(r, front, last + rest, out, mid, Ref(r.(ctl := BlockEnd), rest, mid));
    assert front + last + rest == front + (last + rest);
  }
}
