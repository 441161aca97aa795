/** Looking a symbol up in the decode tables: ten bits at once, then bit by bit down the tree. Bits
    the buffer does not hold read as zero, so a result counts only if it is no longer than the buffer. */
module TableLookup {
  import opened Bits
  import opened Canonical
  import opened BitBuffer
  import opened DecodeTable

  /** The entry reached after the first `len` bits of `v`. */
  function Follow(look: seq<int>, tree: seq<int>, v: nat, len: nat): int
    requires |look| == FAST_SIZE && len >= FAST_BITS
  {
    if len == FAST_BITS then look[v % FAST_SIZE]
    else
      var t := Follow(look, tree, v, len - 1);
      var slot := Slot(t, Shr(v, len - 1) % 2 == 1);
      if t < 0 && 0 <= slot < |tree| then tree[slot] else t
  }

  ghost predicate Found(look: seq<int>, tree: seq<int>, v: nat, sym: nat, codeLen: nat)
    requires |look| == FAST_SIZE
  {
    var e := look[v % FAST_SIZE];
    if e >= 0 then sym == e % 512 && codeLen == e / 512
    else
      && codeLen > FAST_BITS && sym == Follow(look, tree, v, codeLen)
      && forall len :: FAST_BITS <= len < codeLen ==> Follow(look, tree, v, len) < 0
  }

  lemma LowTen(v: nat)
    ensures v % FAST_SIZE == Index(ToBits(v, FAST_BITS))
  {
    Pow2Values();
    LowBits(v % FAST_SIZE, FAST_BITS, v / FAST_SIZE, v);
    ValueOfToBits(v % FAST_SIZE, FAST_BITS);
  }

  lemma LowBits(a: nat, n: nat, q: nat, v: nat)
    requires a < Pow2(n) && v == a + Pow2(n) * q
    ensures ToBits(a, n) == ToBits(v, n)
  {
    ToBitsAppend(a, n, q, 0);
    assert ToBits(a, n) + ToBits(q, 0) == ToBits(a, n);
  }

  lemma ToBitsSnoc(v: nat, n: nat)
    ensures ToBits(v, n + 1) == ToBits(v, n) + [Shr(v, n) % 2 == 1]
  {
    PadPrefix(v, n, n + 1);
    PadBit(v, n + 1, n);
    assert ToBits(v, n + 1) == ToBits(v, n + 1)[..n] + [ToBits(v, n + 1)[n]];
  }

  /** Whatever the bits, a negative entry is a node for just these bits. */
  lemma {:induction false} FollowsNodes(sizes: Sizes, m: map<Stream, int>, look: seq<int>, tree: seq<int>, v: nat, len: nat)
    requires Built(sizes, |sizes|, m, look, tree) && len >= FAST_BITS
    requires forall k :: FAST_BITS <= k < len ==> Follow(look, tree, v, k) < 0
    ensures Follow(look, tree, v, len)
         == if len == FAST_BITS then WantTop(sizes, |sizes|, m, ToBits(v, len)) else WantSlot(sizes, |sizes|, m, ToBits(v, len))
    ensures Follow(look, tree, v, len) < 0 ==> ToBits(v, len) in m && m[ToBits(v, len)] == Follow(look, tree, v, len)
  {
    var p := ToBits(v, len);
    if len == FAST_BITS {
      LowTen(v);
      assert TopAt(sizes, |sizes|, m, look, p);
    } else {
      FollowsNodes(sizes, m, look, tree, v, len - 1);
      ToBitsSnoc(v, len - 1);
      assert SlotAt(sizes, |sizes|, m, tree, ToBits(v, len - 1), Shr(v, len - 1) % 2 == 1);
    }
  }

  lemma NodeNegative(sizes: Sizes, m: map<Stream, int>, p: Stream)
    requires Nodes(sizes, m) && p in m
    ensures m[p] < 0 && Inner(sizes, p)
  {
    assert NodeOk(sizes, m, p);
  }

  lemma NodeBound(sizes: Sizes, m: map<Stream, int>, tree: seq<int>, p: Stream, b: bool)
    requires Fits(sizes) && Nodes(sizes, m) && TreeOk(sizes, |sizes|, m, tree) && p in m
    ensures |p| < MAX_SIZE && 0 <= Slot(m[p], b) < |tree|
  {
    assert NodeOk(sizes, m, p);
    NodeHasSlots(sizes, |sizes|, m, tree, p, b);
  }

  lemma TopRange(sizes: Sizes, m: map<Stream, int>, look: seq<int>, tree: seq<int>, v: nat)
    requires Built(sizes, |sizes|, m, look, tree)
    ensures look[v % FAST_SIZE] >= 0 ==> look[v % FAST_SIZE] / 512 <= FAST_BITS
  {
    FollowsNodes(sizes, m, look, tree, v, FAST_BITS);
    var p := ToBits(v, FAST_BITS);
    if p in m {
      NodeNegative(sizes, m, p);
    } else if ShortSymbol(sizes, |sizes|, p).Some? {
      assert ShortAt(sizes, |sizes|, ShortSymbol(sizes, |sizes|, p).value, p);
    }
  }

  /** Looks up the symbol that the bits `v` start with. */
  method Lookup(look: seq<int>, tree: seq<int>, v: nat, ghost sizes: Sizes) returns (sym: nat, codeLen: nat)
    requires TableFor(sizes, look, tree)
    ensures sym < 512 && codeLen <= MAX_SIZE
    ensures Found(look, tree, v, sym, codeLen)
    ensures codeLen == 0 ==> sym == 0
  {
    hide ToBits;
    ghost var m :| Built(sizes, |sizes|, m, look, tree);
    var temp := look[v % FAST_SIZE];
    FollowsNodes(sizes, m, look, tree, v, FAST_BITS);
    if temp >= 0 {
      TopRange(sizes, m, look, tree, v);
      EntryRanges(sizes, m, ToBits(v, FAST_BITS));
      sym, codeLen := temp % 512, temp / 512;
    } else {
      codeLen := FAST_BITS;
      while temp < 0
        invariant FAST_BITS <= codeLen <= MAX_SIZE && temp == Follow(look, tree, v, codeLen)
        invariant temp >= 0 ==> codeLen > FAST_BITS
        invariant forall len :: FAST_BITS <= len < codeLen ==> Follow(look, tree, v, len) < 0
        decreases MAX_SIZE - codeLen, if temp < 0 then 1 else 0
      {
        FollowsNodes(sizes, m, look, tree, v, codeLen);
        NodeBound(sizes, m, tree, ToBits(v, codeLen), Shr(v, codeLen) % 2 == 1);
        temp := tree[-temp - 1 + Shr(v, codeLen) % 2];
        codeLen := codeLen + 1;
      }
      FollowsNodes(sizes, m, look, tree, v, codeLen);
      EntryRanges(sizes, m, ToBits(v, codeLen));
      sym := temp;
    }
  }

  /** An entry below 512 is the unused entry 0, and a slot holds a symbol number. */
  lemma EntryRanges(sizes: Sizes, m: map<Stream, int>, p: Stream)
    requires Nodes(sizes, m) && |sizes| < 512
    ensures 0 <= WantTop(sizes, |sizes|, m, p) < 512 ==> WantTop(sizes, |sizes|, m, p) == 0
    ensures WantSlot(sizes, |sizes|, m, p) < 512
  {
    assert p !in m || NodeOk(sizes, m, p);
  }

  /** What is found in the bits the buffer holds is the symbol the whole stream starts with. */
  lemma FoundIsRight(sizes: Sizes, look: seq<int>, tree: seq<int>, v: nat, sym: nat, codeLen: nat, rest: Stream, k: nat, s: nat)
    requires TableFor(sizes, look, tree) && Found(look, tree, v, sym, codeLen)
    requires Starts(sizes, s, rest) && k <= |rest| && ToBits(v, k) == rest[..k]
    requires codeLen <= k && (codeLen > 0 || k >= FAST_BITS)
    ensures sym == s && codeLen == sizes[s]
  {
    var m :| Built(sizes, |sizes|, m, look, tree);
    var p := ToBits(v, FAST_BITS);
    FollowsNodes(sizes, m, look, tree, v, FAST_BITS);
    var e := look[v % FAST_SIZE];
    if e > 0 {
      TopIsCode(sizes, m, p);
      var t := ShortSymbol(sizes, |sizes|, p).value;
      PadAgree(v, rest, k, sizes[t], FAST_BITS);
      assert SymbolBits(sizes, t) == p[..sizes[t]] == rest[..sizes[t]];
      ShortUnique(sizes, s, t, rest);
    } else if e == 0 {
      PadAgree(v, rest, k, FAST_BITS, FAST_BITS);
      NoEmptyEntry(sizes, m, rest, s);
    } else {
      FoundInTree(sizes, m, look, tree, v, sym, codeLen, rest, k, s);
    }
  }

  /** The first bits of `v`, of the stream, and of what is known of both. */
  lemma PadAgree(v: nat, rest: Stream, k: nat, a: nat, n: nat)
    requires k <= |rest| && ToBits(v, k) == rest[..k] && a <= k && a <= n
    ensures ToBits(v, n)[..a] == rest[..a] == ToBits(v, a)
  {
    PadPrefix(v, a, k);
    PadPrefix(v, a, n);
    assert rest[..k][..a] == rest[..a];
  }

  lemma TopIsCode(sizes: Sizes, m: map<Stream, int>, p: Stream)
    requires WantTop(sizes, |sizes|, m, p) > 0 && |sizes| < 512 && |p| == FAST_BITS && Nodes(sizes, m)
    ensures ShortSymbol(sizes, |sizes|, p).Some?
    ensures var t := ShortSymbol(sizes, |sizes|, p).value;
      ShortAt(sizes, |sizes|, t, p) && WantTop(sizes, |sizes|, m, p) == sizes[t] * 512 + t
  {
    assert p !in m || NodeOk(sizes, m, p);
  }

  /** A stream that starts with a code never meets an unused first-level entry. */
  lemma NoEmptyEntry(sizes: Sizes, m: map<Stream, int>, rest: Stream, s: nat)
    requires Fits(sizes) && Nodes(sizes, m) && Paths(sizes, |sizes|, m) && Starts(sizes, s, rest) && |rest| >= FAST_BITS
    ensures WantTop(sizes, |sizes|, m, rest[..FAST_BITS]) != 0
  {
    var p := rest[..FAST_BITS];
    var c := SymbolBits(sizes, s);
    if |c| <= FAST_BITS {
      assert c == rest[..|c|] == p[..|c|];
      assert ShortAt(sizes, |sizes|, s, p);
      WantTopOfNode(sizes, |sizes|, m, p, s);
    } else {
      assert c == rest[..|c|];
      assert c[..FAST_BITS] == p;
      assert HasCode(sizes, s) && SymbolBits(sizes, s)[..FAST_BITS] in m;
      assert NodeOk(sizes, m, p);
    }
  }

  /** The walk does not stop before the code of `s` ends ... */
  lemma NotLonger(sizes: Sizes, m: map<Stream, int>, q: Stream, s: nat)
    requires Nodes(sizes, m) && Paths(sizes, |sizes|, m) && |q| >= FAST_BITS
    requires HasCode(sizes, s) && WantSlot(sizes, |sizes|, m, q) >= 0
    ensures !(q < SymbolBits(sizes, s))
  {
    if q < SymbolBits(sizes, s) {
      assert q == SymbolBits(sizes, s)[..|q|];
      NodeNegative(sizes, m, q);
    }
  }

  /** ... nor goes on after it. */
  lemma NotShorter(sizes: Sizes, m: map<Stream, int>, look: seq<int>, tree: seq<int>, v: nat, codeLen: nat, rest: Stream, s: nat)
    requires Built(sizes, |sizes|, m, look, tree) && HasCode(sizes, s) && SymbolBits(sizes, s) <= rest
    requires FAST_BITS < codeLen <= |rest| && ToBits(v, codeLen) == rest[..codeLen]
    requires forall len :: FAST_BITS <= len < codeLen ==> Follow(look, tree, v, len) < 0
    ensures codeLen <= sizes[s]
  {
    var len := if sizes[s] < FAST_BITS then FAST_BITS else sizes[s];
    if len < codeLen {
      FollowsNodes(sizes, m, look, tree, v, len);
      PadAgree(v, rest, codeLen, len, len);
      NodeNegative(sizes, m, rest[..len]);
      assert SymbolBits(sizes, s) == rest[..len][..sizes[s]];
      InnerStartsNoCode(sizes, rest[..len], s);
    }
  }

  lemma FoundInTree(sizes: Sizes, m: map<Stream, int>, look: seq<int>, tree: seq<int>, v: nat, sym: nat, codeLen: nat, rest: Stream, k: nat, s: nat)
    requires Built(sizes, |sizes|, m, look, tree) && look[v % FAST_SIZE] < 0
    requires Found(look, tree, v, sym, codeLen)
    requires Starts(sizes, s, rest) && k <= |rest| && ToBits(v, k) == rest[..k] && codeLen <= k
    ensures codeLen == sizes[s] && sym == s
  {
    var q := rest[..codeLen];
    FollowsNodes(sizes, m, look, tree, v, codeLen);
    PadAgree(v, rest, k, codeLen, codeLen);
    NotShorter(sizes, m, look, tree, v, codeLen, rest, s);
    NotLonger(sizes, m, q, s);
    var c := SymbolBits(sizes, s);
    assert c == rest[..|c|];
    if codeLen == |c| {
      assert LongAt(sizes, |sizes|, s, q);
      WantSlotOf(sizes, |sizes|, m, q, s);
    }
  }
}
