/** The compressor's code buffer and symbol counters: recording a literal or a match. */
module TokenBuffer {
  import opened Bits
  import opened HuffmanBuilder
  import opened Sums
  import opened SymbolTables
  import opened Tokens
  import opened TokenBytes

  const CODE_BUF_SIZE: nat := 65536

  // ----- symbol counts

  function LitSymOf(t: Token): (s: nat)
    requires TokenOk(t)
    ensures s < 286 && s != 256
  {
    match t
    case Lit(b) => b
    case Match(len, _) => LengthsAgree(len - 3); LenSym(len - 3)
  }

  function DistSymbolOf(t: Token): (s: nat)
    requires TokenOk(t) && t.Match?
    ensures s < 30
  {
    DistancesAgree(t.dist - 1);
    DistSymOf(t.dist - 1)
  }

  /** How many of `ts` use literal/length symbol `s` ... */
  function LitCount(ts: seq<Token>, s: nat): (n: nat)
    requires AllOk(ts)
    ensures n <= |ts|
  {
    if ts == [] then 0 else LitCount(ts[..|ts| - 1], s) + (if LitSymOf(ts[|ts| - 1]) == s then 1 else 0)
  }

  /** ... and how many distance symbol `s`. */
  function DistCount(ts: seq<Token>, s: nat): (n: nat)
    requires AllOk(ts)
    ensures n <= |ts|
  {
    if ts == [] then 0
    else DistCount(ts[..|ts| - 1], s) + (if ts[|ts| - 1].Match? && DistSymbolOf(ts[|ts| - 1]) == s then 1 else 0)
  }

  ghost predicate LitsCounted(count: seq<nat>, ts: seq<Token>) {
    AllOk(ts) && |count| == 288 && Sum(count) == |ts| && forall s :: 0 <= s < 288 ==> count[s] == LitCount(ts, s)
  }

  ghost predicate DistsCounted(count: seq<nat>, ts: seq<Token>) {
    AllOk(ts) && |count| == 32 && Sum(count) <= |ts| && forall s :: 0 <= s < 32 ==> count[s] == DistCount(ts, s)
  }

  lemma LitsCountedStep(count: seq<nat>, ts: seq<Token>, t: Token)
    requires LitsCounted(count, ts) && TokenOk(t)
    ensures var s := LitSymOf(t); LitsCounted(count[s := count[s] + 1], ts + [t])
  {
    assert (ts + [t])[..|ts|] == ts;
    SumUpdate(count, LitSymOf(t), count[LitSymOf(t)] + 1);
  }

  lemma DistsCountedStep(count: seq<nat>, ts: seq<Token>, t: Token)
    requires DistsCounted(count, ts) && TokenOk(t)
    ensures t.Lit? ==> DistsCounted(count, ts + [t])
    ensures t.Match? ==> var s := DistSymbolOf(t); DistsCounted(count[s := count[s] + 1], ts + [t])
  {
    assert (ts + [t])[..|ts|] == ts;
    if t.Match? {
      SumUpdate(count, DistSymbolOf(t), count[DistSymbolOf(t)] + 1);
    }
  }

  function TotalLength(ts: seq<Token>): nat {
    if ts == [] then 0 else TotalLength(ts[..|ts| - 1]) + Length(ts[|ts| - 1])
  }

  lemma TotalLengthSnoc(ts: seq<Token>, t: Token)
    ensures TotalLength(ts + [t]) == TotalLength(ts) + Length(t)
  {
    assert (ts + [t])[..|ts|] == ts;
  }

  // ----- the layout of the buffer

  /** Full groups, then the flag byte and data of the group being filled. */
  ghost predicate Laid(codes: seq<byte>, flags: nat, ptr: nat, gs: seq<seq<Token>>, cur: seq<Token>) {
    && (forall j :: 0 <= j < |gs| ==> GroupOk(gs[j]) && |gs[j]| == 8) && AllOk(cur) && |cur| < 8
    && flags < ptr <= |codes| && flags == |Pack(gs)| && codes[..flags] == Pack(gs)
    && ptr == flags + 1 + |AllData(cur)| && codes[flags + 1..ptr] == AllData(cur)
    && Filling(codes[flags], cur)
  }

  /** Nine bytes hold at most eight tokens, so the counters cannot overflow. */
  lemma FewTokens(codes: seq<byte>, flags: nat, ptr: nat, gs: seq<seq<Token>>, cur: seq<Token>)
    requires Laid(codes, flags, ptr, gs, cur) && |codes| <= CODE_BUF_SIZE
    ensures |Join(gs) + cur| <= 58254
  {
    PackSize(gs);
  }

  /** The stores for one token at `ptr`: its data, and its kind shifted into the flag byte. */
  ghost predicate TokenWritten(codes: seq<byte>, codes2: seq<byte>, flags: nat, ptr: nat, t: Token) {
    && TokenOk(t) && flags < ptr && ptr + |Data(t)| <= |codes| == |codes2|
    && codes2[..flags] == codes[..flags] && codes2[flags + 1..ptr] == codes[flags + 1..ptr]
    && codes2[ptr..ptr + |Data(t)|] == Data(t)
    && codes2[flags] == codes[flags] / 2 + (if t.Match? then 128 else 0)
  }

  /** The bytes after a token has been added to the group, before the group is checked for being full. */
  lemma LaidStep(codes: seq<byte>, flags: nat, ptr: nat, gs: seq<seq<Token>>, cur: seq<Token>, t: Token, codes2: seq<byte>)
    requires Laid(codes, flags, ptr, gs, cur) && TokenWritten(codes, codes2, flags, ptr, t)
    ensures codes2[flags + 1..ptr + |Data(t)|] == AllData(cur + [t]) && Filling(codes2[flags], cur + [t])
  {
    FillingStep(codes[flags], cur, t);
    assert (cur + [t])[..|cur|] == cur;
    assert codes2[flags + 1..ptr + |Data(t)|] == codes2[flags + 1..ptr] + codes2[ptr..ptr + |Data(t)|];
  }

  /** A full group is closed; the next byte becomes the flag byte of a new one. */
  lemma CloseGroup(codes: seq<byte>, flags: nat, end: nat, gs: seq<seq<Token>>, g: seq<Token>)
    requires (forall j :: 0 <= j < |gs| ==> GroupOk(gs[j]) && |gs[j]| == 8) && AllOk(g) && |g| == 8
    requires flags < end < |codes| && flags == |Pack(gs)| && codes[..flags] == Pack(gs)
    requires end == flags + 1 + |AllData(g)| && codes[flags + 1..end] == AllData(g) && Filling(codes[flags], g)
    ensures Laid(codes, end, end + 1, gs + [g], [])
    ensures Join(gs + [g]) == Join(gs) + g
  {
    hide Data, Flag;
    FullFlag(codes[flags], g);
    PackSnoc(gs, g);
    assert codes[..end] == codes[..flags] + [codes[flags]] + codes[flags + 1..end];
    assert Pack(gs + [g]) == Pack(gs) + ([Flag(g)] + AllData(g));
    var gs2 := gs + [g];
    forall j | 0 <= j < |gs2|
      ensures GroupOk(gs2[j]) && |gs2[j]| == 8
    {
      assert j == |gs| || gs2[j] == gs[j];
    }
    var none: seq<bool> := [];
    assert ToBits(codes[end], 8)[8..] == none && Kinds([]) == none;
  }

  /** What storing a token does to the layout. */
  lemma Stored(codes: seq<byte>, flags: nat, ptr: nat, gs: seq<seq<Token>>, cur: seq<Token>, t: Token, codes2: seq<byte>)
    requires Laid(codes, flags, ptr, gs, cur) && TokenWritten(codes, codes2, flags, ptr, t) && ptr + |Data(t)| < |codes|
    ensures var g, end := cur + [t], ptr + |Data(t)|;
      if |g| < 8 then Laid(codes2, flags, end, gs, g) else Laid(codes2, end, end + 1, gs + [g], [])
    ensures Join(gs) + (cur + [t]) == Join(gs) + cur + [t] && Join(gs + [cur + [t]]) + [] == Join(gs) + cur + [t]
  {
    var g := cur + [t];
    LaidStep(codes, flags, ptr, gs, cur, t, codes2);
    assert g[..|cur|] == cur;
    if |g| == 8 {
      CloseGroup(codes2, flags, ptr + |Data(t)|, gs, g);
    } else {
      assert (gs + [g])[..|gs|] == gs;
    }
  }

  /** The bytes of a finished buffer. */
  ghost predicate Closed(bytes: seq<byte>, all: seq<seq<Token>>, ts: seq<Token>) {
    GroupsOk(all) && bytes == Pack(all) && Join(all) == ts
  }

  /** A flag byte shifted down. */
  function ShiftDown(b: byte, n: nat): byte {
    ShrAtMost(b, n);
    Shr(b, n)
  }

  lemma {:induction false} ShrAtMost(v: nat, n: nat)
    ensures Shr(v, n) <= v
    decreases n
  {
    if n > 0 {
      ShrAtMost(v / 2, n - 1);
    }
  }

  /** Finishing the last group: its flags are shifted down ... */
  lemma PartCloses(codes: seq<byte>, flags: nat, ptr: nat, gs: seq<seq<Token>>, cur: seq<Token>, c: seq<byte>)
    requires Laid(codes, flags, ptr, gs, cur) && cur != [] && c == codes[flags := ShiftDown(codes[flags], 8 - |cur|)]
    ensures Closed(c[..ptr], gs + [cur], Join(gs) + cur)
  {
    DownShift(codes[flags], cur);
    PackSnoc(gs, cur);
    assert c[..ptr] == codes[..flags] + ([c[flags]] + codes[flags + 1..ptr]);
    assert Group(cur) == [c[flags]] + codes[flags + 1..ptr];
    AllGroupsOk(gs, cur);
  }

  lemma AllGroupsOk(gs: seq<seq<Token>>, cur: seq<Token>)
    requires (forall j :: 0 <= j < |gs| ==> GroupOk(gs[j]) && |gs[j]| == 8) && GroupOk(cur)
    ensures GroupsOk(gs + [cur])
  {
  }

  /** ... and an unused flag byte is left out. */
  lemma WholeCloses(codes: seq<byte>, flags: nat, ptr: nat, gs: seq<seq<Token>>)
    requires Laid(codes, flags, ptr, gs, [])
    ensures Closed(codes[..flags], gs, Join(gs) + [])
  {
    assert Join(gs) + [] == Join(gs);
  }

  lemma EmptyLaid(codes: seq<byte>)
    requires |codes| >= 1
    ensures Laid(codes, 0, 1, [], [])
  {
    var none: seq<bool> := [];
    assert ToBits(codes[0], 8)[8..] == none && Kinds([]) == none;
  }

  lemma ZeroCounts(count: seq<nat>)
    requires forall i :: 0 <= i < |count| ==> count[i] == 0
    ensures |count| == 288 ==> LitsCounted(count, [])
    ensures |count| == 32 ==> DistsCounted(count, [])
  {
    SumOfZeros(count);
  }

  class Buffer {
    const codes: array<byte>
    const litCount: array<u16>
    const distCount: array<u16>
    /** Position of the next code byte, of the current flag byte, and flags still free in it. */
    var ptr: nat
    var flags: nat
    var flagsLeft: nat
    /** Bytes of input the tokens stand for. */
    var total: nat
    ghost var gs: seq<seq<Token>>
    ghost var cur: seq<Token>

    ghost function Tokens(): seq<Token>
      reads this
    {
      Join(gs) + cur
    }

    ghost predicate Valid()
      reads this, codes, litCount, distCount
    {
      && codes.Length == CODE_BUF_SIZE && litCount.Length == 288 && distCount.Length == 32 && litCount != distCount
      && Laid(codes[..], flags, ptr, gs, cur) && flagsLeft == 8 - |cur|
      && total == TotalLength(Tokens())
      && LitsCounted(litCount[..], Tokens()) && DistsCounted(distCount[..], Tokens())
    }

    lemma TotalIsLength()
      requires Valid()
      ensures total == TotalLength(Tokens())
    {
    }

    constructor ()
      ensures Valid() && Tokens() == [] && ptr == 1 && fresh(codes) && fresh(litCount) && fresh(distCount)
    {
      codes := new byte[CODE_BUF_SIZE](i => 0);
      litCount := new u16[288](i => 0);
      distCount := new u16[32](i => 0);
      ptr, flags, flagsLeft, total := 1, 0, 8, 0;
      gs, cur := [], [];
      new;
      EmptyLaid(codes[..]);
      ZeroCounts(litCount[..]);
      ZeroCounts(distCount[..]);
    }

    /** Starts an empty buffer for the next block; the old code bytes stay where they are. */
    method Reset()
      requires codes.Length == CODE_BUF_SIZE && litCount.Length == 288 && distCount.Length == 32 && litCount != distCount
      modifies this, litCount, distCount
      ensures Valid() && Tokens() == [] && ptr == 1
    {
      forall i | 0 <= i < 288 {
        litCount[i] := 0;
      }
      forall i | 0 <= i < 32 {
        distCount[i] := 0;
      }
      ptr, flags, flagsLeft, total := 1, 0, 8, 0;
      gs, cur := [], [];
      EmptyLaid(codes[..]);
      ZeroCounts(litCount[..]);
      ZeroCounts(distCount[..]);
    }

    /** Finishes the buffer so that it can be read from the front. */
    method Close() returns (ghost all: seq<seq<Token>>)
      requires Valid()
      modifies this`ptr, codes
      ensures ptr <= codes.Length && Closed(codes[..ptr], all, Tokens()) && ptr <= old(ptr)
    {
      ghost var before: seq<byte> := codes[..];
      if flagsLeft == 8 {
        WholeCloses(before, flags, ptr, gs);
        all := gs;
        codes[flags] := 0;
        ptr := ptr - 1;
        assert codes[..ptr] == before[..flags];
      } else {
        codes[flags] := ShiftDown(codes[flags], flagsLeft);
        ghost var after: seq<byte> := codes[..];
        PartCloses(before, flags, ptr, gs, cur, after);
        all := gs + [cur];
        assert codes[..ptr] == after[..ptr];
      }
    }

    /** Adds a token to the group being filled, and starts a new group when that one is full. */
    method Store(t: Token)
      requires codes.Length == CODE_BUF_SIZE && Laid(codes[..], flags, ptr, gs, cur) && flagsLeft == 8 - |cur|
      requires TokenOk(t) && ptr + |Data(t)| + 1 <= CODE_BUF_SIZE
      modifies codes, this`ptr, this`flags, this`flagsLeft, this`gs, this`cur
      ensures Laid(codes[..], flags, ptr, gs, cur) && flagsLeft == 8 - |cur|
      ensures Tokens() == old(Tokens()) + [t] && old(ptr) < ptr <= old(ptr) + |Data(t)| + 1
    {
      ghost var before: seq<byte>, gs0, cur0 := codes[..], gs, cur;
      var flags0, ptr0 := flags, ptr;
      WriteToken(codes, flags0, ptr0, t);
      ghost var after: seq<byte> := codes[..];
      Stored(before, flags0, ptr0, gs0, cur0, t, after);
      Advance(t);
      assert codes[..] == after;
      assert Tokens() == old(Tokens()) + [t];
      assert old(ptr) < ptr <= old(ptr) + |Data(t)| + 1 && flagsLeft == 8 - |cur|;
    }

    /** Moves the pointers past a token just written. */
    method Advance(t: Token)
      requires 1 <= flagsLeft <= 8 && TokenOk(t)
      modifies this`ptr, this`flags, this`flagsLeft, this`gs, this`cur
      ensures var end := old(ptr) + |Data(t)|;
        if old(flagsLeft) > 1
        then ptr == end && flags == old(flags) && flagsLeft == old(flagsLeft) - 1 && gs == old(gs) && cur == old(cur) + [t]
        else ptr == end + 1 && flags == end && flagsLeft == 8 && gs == old(gs) + [old(cur) + [t]] && cur == []
    {
      ptr := ptr + (if t.Lit? then 1 else 3);
      flagsLeft := flagsLeft - 1;
      cur := cur + [t];
      if flagsLeft == 0 {
        flagsLeft := 8;
        flags := ptr;
        ptr := ptr + 1;
        gs, cur := gs + [cur], [];
      }
    }

    /** Counts the symbols of a token. */
    method Count(t: Token, ghost ts: seq<Token>)
      requires litCount != distCount && TokenOk(t) && |ts| < 0xFFFF
      requires LitsCounted(litCount[..], ts) && DistsCounted(distCount[..], ts)
      modifies litCount, distCount
      ensures LitsCounted(litCount[..], ts + [t]) && DistsCounted(distCount[..], ts + [t])
    {
      LitsCountedStep(litCount[..], ts, t);
      DistsCountedStep(distCount[..], ts, t);
      ghost var dists := distCount[..];
      Bump(litCount, LitSymOf(t));
      assert distCount[..] == dists;
      if t.Match? {
        ghost var lits := litCount[..];
        Bump(distCount, DistSymbolOf(t));
        assert litCount[..] == lits;
      }
    }

    /** Records one token; a literal takes a byte and a count, a match three bytes and two counts. */
    method Record(t: Token)
      requires Valid() && TokenOk(t) && ptr + |Data(t)| + 1 <= CODE_BUF_SIZE
      modifies this, codes, litCount, distCount
      ensures Valid() && Tokens() == old(Tokens()) + [t] && old(ptr) < ptr <= old(ptr) + |Data(t)| + 1
    {
      ghost var ts, bytes := Tokens(), codes[..];
      FewTokens(bytes, flags, ptr, gs, cur);
      TotalLengthSnoc(ts, t);
      Count(t, ts);
      ghost var lits, dists := litCount[..], distCount[..];
      assert codes[..] == bytes;
      total := total + Length(t);
      assert codes[..] == bytes;
      Store(t);
      assert litCount[..] == lits && distCount[..] == dists;
    }
  }

  /** Adds one to a 16-bit counter. */
  method Bump(count: array<u16>, s: nat)
    requires s < count.Length && count[s] < 0xFFFF
    modifies count
    ensures var c: seq<nat> := old(count[..]); count[..] == c[s := c[s] + 1]
  {
    count[s] := (count[s] + 1) % 0x1_0000;
  }

  method WriteToken(codes: array<byte>, flags: nat, ptr: nat, t: Token)
    requires flags < ptr && TokenOk(t) && ptr + |Data(t)| <= codes.Length
    modifies codes
    ensures TokenWritten(old(codes[..]), codes[..], flags, ptr, t)
  {
    match t {
      case Lit(b) =>
        codes[ptr] := b;
      case Match(len, dist) =>
        codes[ptr] := len - MIN_MATCH;
        codes[ptr + 1] := (dist - 1) % 256;
        codes[ptr + 2] := (dist - 1) / 256;
    }
    codes[flags] := codes[flags] / 2 + (if t.Match? then 128 else 0);
  }
}
