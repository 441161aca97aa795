/** Writing recorded tokens as Huffman codes: the code buffer is walked flag by flag. */
module TokenWriter {
  import opened Bits
  import opened Canonical
  import opened CodeAssignment
  import opened SymbolTables
  import opened Tokens
  import opened TokenBytes
  import opened TokenBuffer
  import opened BitBuffer
  import opened BitSink

  /** Code sizes and bit-reversed codes of one alphabet. */
  datatype Table = Table(sizes: Sizes, codes: seq<nat>)

  ghost predicate TableOk(t: Table) {
    Fits(t.sizes) && CodesOk(t.codes, t.sizes, |t.sizes|)
  }

  method PutSymbol(sink: Sink, t: Table, s: nat)
    requires sink.Valid() && TableOk(t) && s < |t.sizes| && t.sizes[s] > 0
    modifies sink
    ensures sink.Valid() && sink.sent == old(sink.sent) + SymbolBits(t.sizes, s)
    ensures sink.before == old(sink.before) && old(sink.full) <= sink.full
  {
    sink.PutBits(t.codes[s], t.sizes[s]);
  }

  method PutExtra(sink: Sink, v: nat, n: nat)
    requires sink.Valid() && n <= 16
    modifies sink
    ensures sink.Valid() && sink.sent == old(sink.sent) + ToBits(v, n)
    ensures sink.before == old(sink.before) && old(sink.full) <= sink.full
  {
    LowBitsSame(v, n);
    sink.PutBits(Low(v, n), n);
  }

  lemma Assoc(a: Stream, b: Stream, c: Stream)
    ensures a + b + c == a + (b + c)
  {
  }

  /** A match: length code and extra bits, distance code from the small or the large table and extra bits. */
  method PutMatch(sink: Sink, lit: Table, dist: Table, matchLen: nat, matchDist: nat)
    requires sink.Valid() && TableOk(lit) && TableOk(dist) && Coded(lit.sizes, dist.sizes, Match(matchLen + 3, matchDist + 1))
    modifies sink
    ensures sink.Valid() && sink.sent == old(sink.sent) + TokenBits(lit.sizes, dist.sizes, Match(matchLen + 3, matchDist + 1))
    ensures sink.before == old(sink.before) && old(sink.full) <= sink.full
  {
    LengthsAgree(matchLen);
    DistancesAgree(matchDist);
    PutSymbol(sink, lit, LenSym(matchLen));
    PutExtra(sink, matchLen, LenSymExtra(matchLen));
    ghost var s := sink.sent;
    Assoc(old(sink.sent), SymbolBits(lit.sizes, LenSym(matchLen)), ToBits(matchLen, LenSymExtra(matchLen)));
    var sym, extra;
    if matchDist < 512 {
      sym, extra := SmallDistSym(matchDist), Shifts(matchDist, 4);
    } else {
      sym, extra := LargeDistSym(matchDist / 256), LargeDistExtra(matchDist / 256);
    }
    PutSymbol(sink, dist, sym);
    PutExtra(sink, matchDist, extra);
    Assoc(s, SymbolBits(dist.sizes, sym), ToBits(matchDist, extra));
    Assoc(old(sink.sent), LengthBits(lit.sizes, matchLen), DistanceBits(dist.sizes, matchDist));
  }

  // ----- walking the buffer

  /** The flag register with flag `i` of group `g` lowest, and a one above the last flag. */
  ghost predicate Loaded(flags: nat, g: seq<Token>, i: nat) {
    |g| <= 8 && i <= 8 && flags < Pow2(9 - i) && ToBits(flags, 9 - i) == ToBits(Flag(g), 8)[i..] + [true]
  }

  lemma LoadFlags(g: seq<Token>)
    requires |g| <= 8
    ensures Loaded(Flag(g) + 256, g, 0)
  {
    var eight, one := 8, 1;
    Pow2Values();
    ToBitsAppend(Flag(g), eight, one, one);
    assert ToBits(one, one) == [true] by {
      assert ToBits(one / 2, 0) == [];
    }
    assert Pow2(9) == 512;
  }

  lemma {:induction false} ZeroBits(n: nat, k: nat)
    requires k < n
    ensures !ToBits(0, n)[k]
    decreases n
  {
    if k > 0 {
      ZeroBits(n - 1, k - 1);
    }
  }

  /** Before the last flag has been used the register is not 1; after eight it is. */
  lemma FlagsLeft(flags: nat, g: seq<Token>, i: nat)
    requires Loaded(flags, g, i)
    ensures flags == 1 <==> i == 8
  {
    var n := 9 - i;
    assert ToBits(flags, n)[n - 1];
    if i == 8 {
      assert Pow2(1) == 2;
    } else if flags == 1 {
      assert ToBits(flags, n) == [true] + ToBits(0, n - 1);
      ZeroBits(n - 1, n - 2);
    }
  }

  lemma LowFlag(flags: nat, g: seq<Token>, i: nat)
    requires Loaded(flags, g, i) && i < |g|
    ensures flags % 2 == 1 <==> g[i].Match?
    ensures Loaded(flags / 2, g, i + 1)
  {
    var n := 9 - i;
    var m, f, k := |g|, Flag(g), Kinds(g);
    ToBitsOfValue(k);
    PadPrefix(f, m, 8);
    assert ToBits(f, 8)[i] == ToBits(f, 8)[..m][i] == k[i];
    assert ToBits(flags, n) == [flags % 2 == 1] + ToBits(flags / 2, n - 1);
    assert ToBits(flags, n)[0] == ToBits(f, 8)[i];
    assert ToBits(flags, n)[1..] == ToBits(f, 8)[i + 1..] + [true];
  }

  /** Where the walk stands before token `i` of group `j`. */
  ghost predicate At(all: seq<seq<Token>>, j: nat, i: nat, p: nat, flags: nat)
    requires GroupsOk(all)
  {
    if j < |all| then
      && i < |all[j]|
      && (if i == 0 then flags == 1 && p == |Pack(all[..j])|
          else Loaded(flags, all[j], i) && p == |Pack(all[..j])| + 1 + |AllData(all[j][..i])|)
    else j == |all| && i == 0 && p == |Pack(all)|
  }

  ghost function Seen(all: seq<seq<Token>>, j: nat, i: nat): seq<Token>
    requires j <= |all| && (j < |all| ==> i <= |all[j]|)
  {
    Join(all[..j]) + (if j < |all| then all[j][..i] else [])
  }

  lemma {:induction false} SeenPrefix(all: seq<seq<Token>>, j: nat, i: nat)
    requires j < |all| && i < |all[j]|
    ensures Seen(all, j, i) + [all[j][i]] <= Join(all)
    ensures Seen(all, j, i) + [all[j][i]] == Seen(all, j, i + 1)
    decreases |all|
  {
    var n := |all| - 1;
    assert all[j][..i + 1] == all[j][..i] + [all[j][i]];
    if j < n {
      SeenPrefix(all[..n], j, i);
      assert all[..n][..j] == all[..j];
    } else {
      assert Join(all) == Join(all[..n]) + (all[n][..i] + [all[n][i]] + all[n][i + 1..]);
    }
  }

  function NextGroup(all: seq<seq<Token>>, j: nat, i: nat): nat
    requires j < |all|
  {
    if i + 1 < |all[j]| then j else j + 1
  }

  function NextToken(all: seq<seq<Token>>, j: nat, i: nat): nat
    requires j < |all|
  {
    if i + 1 < |all[j]| then i + 1 else 0
  }

  /** Moving past token `i` of group `j`, within the group ... */
  lemma MovesWithin(all: seq<seq<Token>>, j: nat, i: nat, flags: nat, q: nat)
    requires GroupsOk(all) && j < |all| && i + 1 < |all[j]| && Loaded(flags, all[j], i)
    requires q == |Pack(all[..j])| + 1 + |AllData(all[j][..i])|
    ensures At(all, j, i + 1, q + |Data(all[j][i])|, flags / 2)
  {
    LowFlag(flags, all[j], i);
    assert all[j][..i + 1][..i] == all[j][..i];
  }

  /** ... and over its end. */
  lemma MovesOver(all: seq<seq<Token>>, j: nat, i: nat, flags: nat, q: nat)
    requires GroupsOk(all) && j < |all| && i + 1 == |all[j]| && Loaded(flags, all[j], i)
    requires q == |Pack(all[..j])| + 1 + |AllData(all[j][..i])|
    ensures At(all, j + 1, 0, q + |Data(all[j][i])|, flags / 2)
  {
    var g := all[j];
    LowFlag(flags, g, i);
    assert all[..j + 1][..j] == all[..j];
    assert |Pack(all[..j + 1])| == |Pack(all[..j])| + |Group(g)|;
    if j + 1 < |all| {
      FlagsLeft(flags / 2, g, i + 1);
    } else {
      assert all[..j + 1] == all;
    }
  }

  lemma Moves(all: seq<seq<Token>>, j: nat, i: nat, flags: nat, q: nat)
    requires GroupsOk(all) && j < |all| && i < |all[j]| && Loaded(flags, all[j], i)
    requires q == |Pack(all[..j])| + 1 + |AllData(all[j][..i])|
    ensures At(all, NextGroup(all, j, i), NextToken(all, j, i), q + |Data(all[j][i])|, flags / 2)
  {
    if i + 1 < |all[j]| {
      MovesWithin(all, j, i, flags, q);
    } else {
      MovesOver(all, j, i, flags, q);
    }
  }

  lemma SeenNext(all: seq<seq<Token>>, j: nat, i: nat)
    requires j < |all| && i < |all[j]|
    ensures Seen(all, NextGroup(all, j, i), NextToken(all, j, i)) == Seen(all, j, i) + [all[j][i]] <= Join(all)
  {
    SeenPrefix(all, j, i);
    var g := all[j];
    if i + 1 == |g| {
      assert g[..i + 1] == g && all[..j + 1][..j] == all[..j];
      if j + 1 < |all| {
        assert all[j + 1][..0] == [];
      }
    }
  }

  /** The walk over a finished buffer, having seen the tokens `seen`. */
  ghost predicate Walk(bytes: seq<byte>, all: seq<seq<Token>>, ts: seq<Token>, j: nat, i: nat, p: nat, flags: nat, seen: seq<Token>) {
    && Closed(bytes, all, ts) && At(all, j, i, p, flags)
    && j <= |all| && (j < |all| ==> i <= |all[j]|) && seen == Seen(all, j, i) <= ts
  }

  /** The token whose data starts at `q`, where the lowest flag tells its kind. */
  ghost predicate Found(bytes: seq<byte>, flags: nat, q: nat, t: Token) {
    TokenOk(t) && q + |Data(t)| <= |bytes| && bytes[q..q + |Data(t)|] == Data(t) && (flags % 2 == 1 <==> t.Match?)
  }

  /** The flag register for the next token, and where its data starts. */
  function FlagsNow(bytes: seq<byte>, p: nat, flags: nat): nat
    requires p < |bytes|
  {
    var b: nat := bytes[p];
    if flags == 1 then b + 256 else flags
  }

  lemma GroupStart(bytes: seq<byte>, all: seq<seq<Token>>, ts: seq<Token>, j: nat, p: nat)
    requires Closed(bytes, all, ts) && j < |all| && p == |Pack(all[..j])|
    ensures p < |bytes| && FlagsNow(bytes, p, 1) == Flag(all[j]) as int + 256 && |AllData(all[j][..0])| == 0
    ensures p + 1 + |Data(all[j][0])| <= |bytes| && bytes[p + 1..p + 1 + |Data(all[j][0])|] == Data(all[j][0])
  {
    Located(bytes, all, j, 0);
    assert all[j][..0] == [] && AllData([]) == [];
  }

  lemma VisitFirst(bytes: seq<byte>, all: seq<seq<Token>>, ts: seq<Token>, j: nat, p: nat)
    requires Closed(bytes, all, ts) && j < |all| && p == |Pack(all[..j])|
    ensures p < |bytes| && Found(bytes, FlagsNow(bytes, p, 1), p + 1, all[j][0])
    ensures At(all, NextGroup(all, j, 0), NextToken(all, j, 0), p + 1 + |Data(all[j][0])|, FlagsNow(bytes, p, 1) / 2)
  {
    GroupStart(bytes, all, ts, j, p);
    var f: nat := FlagsNow(bytes, p, 1);
    LoadFlags(all[j]);
    LowFlag(f, all[j], 0);
    Moves(all, j, 0, f, p + 1);
  }

  lemma VisitLater(bytes: seq<byte>, all: seq<seq<Token>>, ts: seq<Token>, j: nat, i: nat, p: nat, flags: nat)
    requires Closed(bytes, all, ts) && j < |all| && 0 < i < |all[j]| && Loaded(flags, all[j], i)
    requires p == |Pack(all[..j])| + 1 + |AllData(all[j][..i])|
    ensures var t := all[j][i];
      flags != 1 && Found(bytes, flags, p, t) && At(all, NextGroup(all, j, i), NextToken(all, j, i), p + |Data(t)|, flags / 2)
  {
    hide AllData;
    Located(bytes, all, j, i);
    FlagsLeft(flags, all[j], i);
    LowFlag(flags, all[j], i);
    Moves(all, j, i, flags, p);
  }

  lemma Visit(bytes: seq<byte>, all: seq<seq<Token>>, ts: seq<Token>, j: nat, i: nat, p: nat, flags: nat, seen: seq<Token>)
    requires Walk(bytes, all, ts, j, i, p, flags, seen) && p < |bytes|
    ensures j < |all| && i < |all[j]|
    ensures var t, f, q := all[j][i], FlagsNow(bytes, p, flags), (if flags == 1 then p + 1 else p);
      Found(bytes, f, q, t) && At(all, NextGroup(all, j, i), NextToken(all, j, i), q + |Data(t)|, f / 2)
  {
    if i > 0 {
      VisitLater(bytes, all, ts, j, i, p, flags);
    } else {
      VisitFirst(bytes, all, ts, j, p);
    }
  }

  lemma Visited(bytes: seq<byte>, all: seq<seq<Token>>, ts: seq<Token>, j: nat, i: nat, p: nat, flags: nat, seen: seq<Token>)
    returns (t: Token, j2: nat, i2: nat, f: nat, q: nat)
    requires Walk(bytes, all, ts, j, i, p, flags, seen) && p < |bytes|
    ensures f == FlagsNow(bytes, p, flags) && q == (if flags == 1 then p + 1 else p)
    ensures Found(bytes, f, q, t) && Walk(bytes, all, ts, j2, i2, q + |Data(t)|, f / 2, seen + [t])
  {
    Visit(bytes, all, ts, j, i, p, flags, seen);
    SeenNext(all, j, i);
    t, j2, i2 := all[j][i], NextGroup(all, j, i), NextToken(all, j, i);
    f, q := FlagsNow(bytes, p, flags), if flags == 1 then p + 1 else p;
  }

  lemma MatchBytes(bytes: seq<byte>, p: nat, t: Token, a: int, b: int, c: int)
    requires TokenOk(t) && t.Match? && p + 3 <= |bytes| && bytes[p..p + 3] == Data(t)
    requires a == bytes[p] && b == bytes[p + 1] && c == bytes[p + 2]
    ensures t == Match(a + 3, b + 256 * c + 1)
  {
    assert bytes[p] == Data(t)[0] && bytes[p + 1] == Data(t)[1] && bytes[p + 2] == Data(t)[2];
  }

  method PutOne(sink: Sink, codes: array<byte>, end: nat, q: nat, flags: nat, lit: Table, dist: Table, ghost t: Token) returns (size: nat)
    requires sink.Valid() && TableOk(lit) && TableOk(dist) && Coded(lit.sizes, dist.sizes, t)
    requires end <= codes.Length && Found(codes[..end], flags, q, t)
    modifies sink
    ensures sink.Valid() && sink.sent == old(sink.sent) + TokenBits(lit.sizes, dist.sizes, t) && size == |Data(t)|
    ensures sink.before == old(sink.before) && old(sink.full) <= sink.full
  {
    ghost var bytes: seq<byte> := codes[..end];
    if flags % 2 == 1 {
      var matchLen: nat := codes[q];
      var low: nat, high: nat := codes[q + 1], codes[q + 2];
      var matchDist := low + 256 * high;
      MatchBytes(bytes, q, t, matchLen, low, high);
      PutMatch(sink, lit, dist, matchLen, matchDist);
      size := 3;
    } else {
      assert codes[q] == bytes[q] == bytes[q..q + 1][0] == Data(t)[0];
      PutSymbol(sink, lit, codes[q]);
      size := 1;
    }
  }

  lemma OneMore(lit: Sizes, dist: Sizes, seen: seq<Token>, t: Token, ts: seq<Token>, sent: Stream)
    requires AllCoded(lit, dist, ts) && seen + [t] <= ts
    ensures AllCoded(lit, dist, seen) && AllCoded(lit, dist, seen + [t]) && Coded(lit, dist, t)
    ensures sent + TokensBits(lit, dist, seen + [t]) == sent + TokensBits(lit, dist, seen) + TokenBits(lit, dist, t)
  {
    assert (seen + [t])[..|seen|] == seen && (seen + [t])[|seen|] == t == ts[|seen|];
    assert forall k :: 0 <= k < |seen| ==> seen[k] == ts[k];
  }

  /** One round of the loop: loads a flag byte if the register is used up, then writes one token. */
  method PutNext(sink: Sink, codes: array<byte>, end: nat, p0: nat, flags0: nat, lit: Table, dist: Table,
                 ghost all: seq<seq<Token>>, ghost ts: seq<Token>, ghost j0: nat, ghost i0: nat, ghost seen: seq<Token>)
    returns (p: nat, flags: nat, ghost j: nat, ghost i: nat, ghost t: Token)
    requires end <= codes.Length && p0 < end && Walk(codes[..end], all, ts, j0, i0, p0, flags0, seen)
    requires sink.Valid() && TableOk(lit) && TableOk(dist) && AllCoded(lit.sizes, dist.sizes, ts)
    modifies sink
    ensures p0 < p <= end && Walk(codes[..end], all, ts, j, i, p, flags, seen + [t])
    ensures Coded(lit.sizes, dist.sizes, t) && sink.Valid() && sink.sent == old(sink.sent) + TokenBits(lit.sizes, dist.sizes, t)
    ensures sink.before == old(sink.before) && old(sink.full) <= sink.full
  {
    ghost var bytes: seq<byte> := codes[..end];
    ghost var f, q;
    t, j, i, f, q := Visited(bytes, all, ts, j0, i0, p0, flags0, seen);
    flags, p := flags0, p0;
    if flags == 1 {
      var next: nat := codes[p];
      flags := next + 256;
      p := p + 1;
    }
    assert flags == f && p == q;
    CodedNext(lit.sizes, dist.sizes, seen, t, ts);
    var size := PutOne(sink, codes, end, p, flags, lit, dist, t);
    p := p + size;
    flags := flags / 2;
    assert codes[..end] == bytes;
    assert p == q + |Data(t)| && flags == f / 2;
  }

  lemma CodedNext(lit: Sizes, dist: Sizes, seen: seq<Token>, t: Token, ts: seq<Token>)
    requires AllCoded(lit, dist, ts) && seen + [t] <= ts
    ensures Coded(lit, dist, t)
  {
    assert (seen + [t])[|seen|] == t == ts[|seen|];
  }

  /** Writes every token of the buffer, reading it the way it was packed. */
  method PutTokens(sink: Sink, codes: array<byte>, end: nat, lit: Table, dist: Table, ghost all: seq<seq<Token>>, ghost ts: seq<Token>)
    requires sink.Valid() && TableOk(lit) && TableOk(dist) && AllCoded(lit.sizes, dist.sizes, ts)
    requires end <= codes.Length && Closed(codes[..end], all, ts)
    modifies sink
    ensures sink.Valid() && sink.sent == old(sink.sent) + TokensBits(lit.sizes, dist.sizes, ts)
    ensures sink.before == old(sink.before) && old(sink.full) <= sink.full
  {
    var flags: nat, p: nat := 1, 0;
    ghost var j: nat, i: nat, seen: seq<Token>, sent := 0, 0, [], sink.sent;
    WalkStarts(codes[..end], all, ts);
    assert sent + [] == sent;
    while p < end
      invariant p <= end && Walk(codes[..end], all, ts, j, i, p, flags, seen)
      invariant AllCoded(lit.sizes, dist.sizes, seen)
      invariant sink.Valid() && sink.sent == sent + TokensBits(lit.sizes, dist.sizes, seen)
      invariant sink.before == old(sink.before) && old(sink.full) <= sink.full
      decreases end - p
    {
      ghost var t;
      p, flags, j, i, t := PutNext(sink, codes, end, p, flags, lit, dist, all, ts, j, i, seen);
      OneMore(lit.sizes, dist.sizes, seen, t, ts, sent);
      seen := seen + [t];
    }
    WalkEnds(codes[..end], all, ts, j, i, p, flags, seen);
  }

  lemma WalkStarts(bytes: seq<byte>, all: seq<seq<Token>>, ts: seq<Token>)
    requires Closed(bytes, all, ts)
    ensures Walk(bytes, all, ts, 0, 0, 0, 1, [])
  {
    assert all[..0] == [] && Join(all[..0]) == [];
    assert |all| > 0 ==> all[0][..0] == [];
  }

  lemma WalkEnds(bytes: seq<byte>, all: seq<seq<Token>>, ts: seq<Token>, j: nat, i: nat, p: nat, flags: nat, seen: seq<Token>)
    requires Walk(bytes, all, ts, j, i, p, flags, seen) && p >= |bytes|
    ensures seen == ts
  {
    if j < |all| {
      Located(bytes, all, j, i);
    }
    assert j < |all| || (all[..j] == all && Join(all) + [] == Join(all));
  }
}
