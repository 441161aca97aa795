/** How tokens lie in the compressor's code buffer: groups of eight, each behind a byte of flags, a
    literal in one byte and a match in three. */
module TokenBytes {
  import opened Bits
  import opened Canonical
  import opened Tokens

  function Data(t: Token): (d: seq<byte>)
    requires TokenOk(t)
    ensures 1 <= |d| <= 3
  {
    match t
    case Lit(b) => [b]
    case Match(len, dist) =>
      var d: byte := len - MIN_MATCH;
      [d, (dist - 1) % 256, (dist - 1) / 256]
  }

  function AllData(ts: seq<Token>): (d: seq<byte>)
    requires AllOk(ts)
    ensures |ts| <= |d|
  {
    if ts == [] then [] else AllData(ts[..|ts| - 1]) + Data(ts[|ts| - 1])
  }

  function Kinds(ts: seq<Token>): (k: seq<bool>)
    ensures |k| == |ts|
  {
    seq(|ts|, i requires 0 <= i < |ts| => ts[i].Match?)
  }

  predicate GroupOk(g: seq<Token>) {
    AllOk(g) && 1 <= |g| <= 8
  }

  function Flag(g: seq<Token>): byte
    requires |g| <= 8
  {
    ValueBound(Kinds(g));
    Pow2Monotone(|g|, 8);
    Pow2Values();
    Value(Kinds(g))
  }

  function Group(g: seq<Token>): (b: seq<byte>)
    requires GroupOk(g)
    ensures |b| >= 1 + |g|
  {
    [Flag(g)] + AllData(g)
  }

  predicate GroupsOk(gs: seq<seq<Token>>) {
    forall j :: 0 <= j < |gs| ==> GroupOk(gs[j]) && (j < |gs| - 1 ==> |gs[j]| == 8)
  }

  function Pack(gs: seq<seq<Token>>): seq<byte>
    requires forall j :: 0 <= j < |gs| ==> GroupOk(gs[j])
  {
    if gs == [] then [] else Pack(gs[..|gs| - 1]) + Group(gs[|gs| - 1])
  }

  function Join(gs: seq<seq<Token>>): seq<Token> {
    if gs == [] then [] else Join(gs[..|gs| - 1]) + gs[|gs| - 1]
  }

  lemma PackSnoc(gs: seq<seq<Token>>, g: seq<Token>)
    requires (forall j :: 0 <= j < |gs| ==> GroupOk(gs[j])) && GroupOk(g)
    ensures Pack(gs + [g]) == Pack(gs) + Group(g) && Join(gs + [g]) == Join(gs) + g
  {
    assert (gs + [g])[..|gs|] == gs;
  }

  /** Group `j` lies right after the groups before it. */
  lemma {:induction false} PackAt(gs: seq<seq<Token>>, j: nat)
    requires (forall i :: 0 <= i < |gs| ==> GroupOk(gs[i])) && j < |gs|
    ensures Pack(gs[..j]) + Group(gs[j]) <= Pack(gs)
    decreases |gs|
  {
    hide Group;
    var n := |gs| - 1;
    if j < n {
      PackAt(gs[..n], j);
      assert gs[..n][..j] == gs[..j];
    }
  }

  /** Token `i` of a group lies right after the ones before it. */
  lemma {:induction false} DataAt(g: seq<Token>, i: nat)
    requires AllOk(g) && i < |g|
    ensures AllData(g[..i]) + Data(g[i]) <= AllData(g)
    decreases |g|
  {
    var n := |g| - 1;
    if i < n {
      DataAt(g[..n], i);
      assert g[..n][..i] == g[..i];
    }
  }

  /** The bytes of token `i` of group `j`, and the flag byte of the group. */
  lemma Located(codes: seq<byte>, gs: seq<seq<Token>>, j: nat, i: nat)
    requires (forall k :: 0 <= k < |gs| ==> GroupOk(gs[k])) && j < |gs| && i < |gs[j]| && Pack(gs) <= codes
    ensures var p := |Pack(gs[..j])|; var q := p + 1 + |AllData(gs[j][..i])|;
      (q + |Data(gs[j][i])| <= |Pack(gs)| && codes[p] == Flag(gs[j]) && codes[q..q + |Data(gs[j][i])|] == Data(gs[j][i]))
  {
    hide AllData;
    var g := gs[j];
    var p, d := |Pack(gs[..j])|, |AllData(g[..i])|;
    PackAt(gs, j);
    DataAt(g, i);
    var whole := Pack(gs[..j]) + Group(g);
    assert whole == codes[..|whole|];
    assert codes[p] == whole[p] == Group(g)[0];
    var x := Data(g[i]);
    forall k | 0 <= k < |x|
      ensures codes[p + 1 + d + k] == x[k]
    {
      assert codes[p + 1 + d + k] == whole[p + 1 + d + k] == Group(g)[1 + d + k] == AllData(g)[d + k];
      assert (AllData(g[..i]) + x)[d + k] == x[k];
    }
  }

  /** Full groups take at least nine bytes each. */
  lemma {:induction false} PackSize(gs: seq<seq<Token>>)
    requires forall j :: 0 <= j < |gs| ==> GroupOk(gs[j]) && |gs[j]| == 8
    ensures |Pack(gs)| >= 9 * |gs| && |Join(gs)| == 8 * |gs|
  {
    if gs != [] {
      PackSize(gs[..|gs| - 1]);
    }
  }

  // ----- the flag byte

  /** Shifting a flag in at the top. */
  lemma ShiftIn(f: byte, m: bool)
    ensures var f2 := f / 2 + (if m then 128 else 0); f2 < 256 && ToBits(f2, 8) == ToBits(f, 8)[1..] + [m]
  {
    var one, seven := 1, 7;
    var b := if m then 1 else 0;
    Pow2Values();
    ToBitsAppend(f / 2, seven, b, one);
    assert ToBits(f, 8) == [f % 2 == 1] + ToBits(f / 2, seven);
    assert ToBits(b, one) == [m] by {
      assert ToBits(b / 2, 0) == [];
    }
  }

  lemma KindsSnoc(cur: seq<Token>, t: Token)
    ensures Kinds(cur + [t]) == Kinds(cur) + [t.Match?]
  {
  }

  /** The byte while a group fills up: its top bits are the kinds so far. */
  ghost predicate Filling(f: byte, cur: seq<Token>) {
    |cur| <= 8 && ToBits(f, 8)[8 - |cur|..] == Kinds(cur)
  }

  lemma FillingStep(f: byte, cur: seq<Token>, t: Token)
    requires Filling(f, cur) && |cur| < 8
    ensures Filling(f / 2 + (if t.Match? then 128 else 0), cur + [t])
  {
    ShiftIn(f, t.Match?);
    KindsSnoc(cur, t);
    var f2 := f / 2 + (if t.Match? then 128 else 0);
    assert ToBits(f2, 8)[7 - |cur|..] == ToBits(f, 8)[1..][7 - |cur|..] + [t.Match?];
    assert ToBits(f, 8)[1..][7 - |cur|..] == ToBits(f, 8)[8 - |cur|..];
  }

  lemma FullFlag(f: byte, cur: seq<Token>)
    requires Filling(f, cur) && |cur| == 8
    ensures f == Flag(cur)
  {
    Pow2Values();
    assert ToBits(f, 8)[0..] == ToBits(f, 8);
    ValueOfToBits(f, 8);
  }

  /** Shifting the flags of an unfinished group down to the bottom of the byte. */
  lemma DownShift(f: byte, cur: seq<Token>)
    requires Filling(f, cur)
    ensures Shr(f, 8 - |cur|) == Flag(cur)
  {
    var m, n := 8 - |cur|, |cur|;
    Pow2Values();
    ToBitsSplit(f, m, n);
    assert ToBits(f, m + n)[m..] == ToBits(Shr(f, m), n);
    assert m + n == 8;
    Pow2Add(m, n);
    ShrBound(f, m, n);
    ValueOfToBits(Shr(f, m), n);
  }

}
