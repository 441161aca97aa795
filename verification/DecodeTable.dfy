/** The decompressor's two-level decode table: 1024 entries indexed by the next ten bits, and an
    overflow tree for longer codes. Entry 0 means unused, a positive entry is size * 512 + symbol,
    a negative one names a tree node; node `t` has its two children at slots -t - 1 and -t. */
module DecodeTable {
  import opened Bits
  import opened Canonical
  import opened CodeAssignment

  const FAST_BITS := 10
  const FAST_SIZE := 1024

  function Slot(t: int, b: bool): int {
    -t - 1 + (if b then 1 else 0)
  }

  ghost predicate HasCode(sizes: Sizes, s: nat) {
    s < |sizes| && sizes[s] > 0
  }

  /** Symbol `s`, one of the first `n`, has a code that starts `p` and fits the first level. */
  ghost predicate ShortAt(sizes: Sizes, n: nat, s: nat, p: Stream) {
    s < n && HasCode(sizes, s) && sizes[s] <= FAST_BITS && SymbolBits(sizes, s) <= p
  }

  ghost predicate LongAt(sizes: Sizes, n: nat, s: nat, q: Stream) {
    s < n && HasCode(sizes, s) && SymbolBits(sizes, s) == q
  }

  ghost function ShortSymbol(sizes: Sizes, n: nat, p: Stream): (r: Option<nat>)
    ensures r.Some? ==> ShortAt(sizes, n, r.value, p)
    ensures r.None? ==> forall s :: !ShortAt(sizes, n, s, p)
  {
    if s: nat :| ShortAt(sizes, n, s, p) then Some(s) else None
  }

  ghost function LongSymbol(sizes: Sizes, n: nat, q: Stream): (r: Option<nat>)
    ensures r.Some? ==> LongAt(sizes, n, r.value, q)
    ensures r.None? ==> forall s :: !LongAt(sizes, n, s, q)
  {
    if s: nat :| LongAt(sizes, n, s, q) then Some(s) else None
  }

  /** The first-level entry for ten bits, once `n` symbols are in and `m` numbers the tree nodes. */
  ghost function WantTop(sizes: Sizes, n: nat, m: map<Stream, int>, p: Stream): int {
    if p in m then m[p]
    else match ShortSymbol(sizes, n, p)
      case Some(s) => if s < |sizes| then sizes[s] * 512 + s else 0
      case None => 0
  }

  ghost function WantSlot(sizes: Sizes, n: nat, m: map<Stream, int>, q: Stream): int {
    if q in m then m[q]
    else match LongSymbol(sizes, n, q)
      case Some(s) => s
      case None => 0
  }

  /** `p` is cut off by some code of the table: a tree node for it makes sense. */
  ghost predicate Inner(sizes: Sizes, p: Stream) {
    exists s: nat :: HasCode(sizes, s) && |p| < sizes[s] && p <= SymbolBits(sizes, s)
  }

  /** The nodes made so far: prefixes of codes, closed under parents, numbered -1, -3, -5, ... */
  ghost predicate Nodes(sizes: Sizes, m: map<Stream, int>) {
    && (forall p {:trigger NodeOk(sizes, m, p)} :: p in m ==> NodeOk(sizes, m, p))
    && (forall p, q :: p in m && q in m && m[p] == m[q] ==> p == q)
  }

  ghost predicate NodeOk(sizes: Sizes, m: map<Stream, int>, p: Stream)
    requires p in m
  {
    && |p| >= FAST_BITS && Inner(sizes, p)
    && -2 * |m| < m[p] < 0 && m[p] % 2 == 1
    && (|p| > FAST_BITS ==> p[..|p| - 1] in m)
  }

  /** All cut-off prefixes of the long codes put in so far are nodes. */
  ghost predicate Paths(sizes: Sizes, n: nat, m: map<Stream, int>) {
    forall s, len {:trigger SymbolBits(sizes, s)[..len]} ::
      0 <= s < n && HasCode(sizes, s) && FAST_BITS <= len < sizes[s] ==> SymbolBits(sizes, s)[..len] in m
  }

  ghost predicate TopOk(sizes: Sizes, n: nat, m: map<Stream, int>, look: seq<int>) {
    |look| == FAST_SIZE && forall p: Stream :: |p| == FAST_BITS ==> TopAt(sizes, n, m, look, p)
  }

  ghost predicate TopAt(sizes: Sizes, n: nat, m: map<Stream, int>, look: seq<int>, p: Stream)
    requires |look| == FAST_SIZE && |p| == FAST_BITS
  {
    Index(p) < |look| && look[Index(p)] == WantTop(sizes, n, m, p)
  }

  function Index(p: Stream): (i: nat)
    requires |p| == FAST_BITS
    ensures i < FAST_SIZE
  {
    ValueBound(p);
    Pow2Values();
    Value(p)
  }

  ghost predicate TreeOk(sizes: Sizes, n: nat, m: map<Stream, int>, tree: seq<int>) {
    && 2 * |m| <= |tree|
    && (forall p, b :: p in m ==> SlotAt(sizes, n, m, tree, p, b))
    && (forall i :: 2 * |m| <= i < |tree| ==> tree[i] == 0)
  }

  ghost predicate SlotAt(sizes: Sizes, n: nat, m: map<Stream, int>, tree: seq<int>, p: Stream, b: bool)
    requires p in m
  {
    0 <= Slot(m[p], b) < |tree| && tree[Slot(m[p], b)] == WantSlot(sizes, n, m, p + [b])
  }

  ghost predicate Built(sizes: Sizes, n: nat, m: map<Stream, int>, look: seq<int>, tree: seq<int>) {
    && Fits(sizes) && n <= |sizes| < 512 && Nodes(sizes, m) && Paths(sizes, n, m)
    && TopOk(sizes, n, m, look) && TreeOk(sizes, n, m, tree)
  }

  // ----- no two codes get in each other's way

  lemma ShortUnique(sizes: Sizes, s: nat, t: nat, p: Stream)
    requires Fits(sizes) && HasCode(sizes, s) && HasCode(sizes, t) && SymbolBits(sizes, s) <= p && SymbolBits(sizes, t) <= p
    ensures s == t
  {
    if sizes[s] <= sizes[t] {
      assert SymbolBits(sizes, s) == p[..sizes[s]] && SymbolBits(sizes, t) == p[..sizes[t]];
      PrefixFree(sizes, s, t);
    } else {
      assert SymbolBits(sizes, s) == p[..sizes[s]] && SymbolBits(sizes, t) == p[..sizes[t]];
      PrefixFree(sizes, t, s);
    }
  }

  lemma InnerStartsNoCode(sizes: Sizes, p: Stream, s: nat)
    requires Fits(sizes) && Inner(sizes, p) && HasCode(sizes, s)
    ensures !(SymbolBits(sizes, s) <= p)
  {
    var t: nat :| HasCode(sizes, t) && |p| < sizes[t] && p <= SymbolBits(sizes, t);
    if SymbolBits(sizes, s) <= p {
      ShortUnique(sizes, s, t, SymbolBits(sizes, t));
    }
  }

  lemma WantTopOfNode(sizes: Sizes, n: nat, m: map<Stream, int>, p: Stream, s: nat)
    requires Fits(sizes) && ShortAt(sizes, n, s, p) && Nodes(sizes, m)
    ensures p !in m && WantTop(sizes, n, m, p) == sizes[s] * 512 + s
  {
    if p in m {
      assert NodeOk(sizes, m, p);
      InnerStartsNoCode(sizes, p, s);
    } else {
      ShortUnique(sizes, s, ShortSymbol(sizes, n, p).value, p);
    }
  }

  // ----- putting in a short code

  /** Entering symbol `n` with a short code changes the entries its code starts, and no others. */
  lemma ShortStep(sizes: Sizes, n: nat, m: map<Stream, int>, p: Stream)
    requires Fits(sizes) && Nodes(sizes, m) && n < |sizes| && 0 < sizes[n] <= FAST_BITS && |p| == FAST_BITS
    ensures WantTop(sizes, n + 1, m, p)
         == if SymbolBits(sizes, n) <= p then sizes[n] * 512 + n else WantTop(sizes, n, m, p)
  {
    if SymbolBits(sizes, n) <= p {
      WantTopOfNode(sizes, n + 1, m, p, n);
    } else {
      SameTop(sizes, n, m, p);
    }
  }

  lemma SameTop(sizes: Sizes, n: nat, m: map<Stream, int>, p: Stream)
    requires Fits(sizes) && Nodes(sizes, m) && n < |sizes| && !ShortAt(sizes, n + 1, n, p)
    ensures WantTop(sizes, n + 1, m, p) == WantTop(sizes, n, m, p)
  {
    var r := ShortSymbol(sizes, n + 1, p);
    if r.Some? {
      assert ShortAt(sizes, n, r.value, p);
      WantTopOfNode(sizes, n, m, p, r.value);
      WantTopOfNode(sizes, n + 1, m, p, r.value);
    } else if ShortSymbol(sizes, n, p).Some? {
      assert ShortAt(sizes, n + 1, ShortSymbol(sizes, n, p).value, p);
    }
  }

  lemma WantSlotOf(sizes: Sizes, n: nat, m: map<Stream, int>, q: Stream, s: nat)
    requires Fits(sizes) && LongAt(sizes, n, s, q) && Nodes(sizes, m)
    ensures q !in m && WantSlot(sizes, n, m, q) == s
  {
    if q in m {
      assert NodeOk(sizes, m, q);
      InnerStartsNoCode(sizes, q, s);
    } else {
      ShortUnique(sizes, s, LongSymbol(sizes, n, q).value, q);
    }
  }

  lemma SameSlot(sizes: Sizes, n: nat, m: map<Stream, int>, q: Stream)
    requires Fits(sizes) && Nodes(sizes, m) && n < |sizes| && !LongAt(sizes, n + 1, n, q)
    ensures WantSlot(sizes, n + 1, m, q) == WantSlot(sizes, n, m, q)
  {
    var r := LongSymbol(sizes, n + 1, q);
    if r.Some? {
      assert LongAt(sizes, n, r.value, q);
      WantSlotOf(sizes, n, m, q, r.value);
      WantSlotOf(sizes, n + 1, m, q, r.value);
    } else if LongSymbol(sizes, n, q).Some? {
      assert LongAt(sizes, n + 1, LongSymbol(sizes, n, q).value, q);
    }
  }

  lemma IndexOfMatch(code: Stream, p: Stream) returns (b: nat)
    requires |p| == FAST_BITS && code <= p
    ensures Value(p) == Value(code) + Pow2(|code|) * b
  {
    b := Value(p[|code|..]);
    assert p == code + p[|code|..];
    ValueAppend(code, p[|code|..]);
  }

  lemma MatchOfIndex(code: Stream, p: Stream, a: nat)
    requires |p| == FAST_BITS && |code| <= FAST_BITS && Value(p) == Value(code) + Pow2(|code|) * a
    ensures code <= p
  {
    ToBitsOfValue(p);
    ToBitsOfValue(code);
    ValueBound(code);
    ToBitsAppend(Value(code), |code|, a, FAST_BITS - |code|);
  }

  lemma NextMultiple(step: nat, x: nat, a: nat, b: nat)
    requires x + step * a < x + step * b
    ensures x + step * a + step <= x + step * b
  {
    assert a < b;
    assert step * (a + 1) <= step * b;
  }

  /** The entries of ten bits before index `end` that start with `code` are `k`, the others old. */
  ghost predicate Filled(look: seq<int>, before: seq<int>, code: Stream, k: int, end: int)
    requires |look| == |before| == FAST_SIZE
  {
    forall p: Stream :: |p| == FAST_BITS ==>
      look[Index(p)] == if code <= p && Index(p) < end then k else before[Index(p)]
  }

  lemma FillNone(look: seq<int>, code: Stream, k: int)
    requires |look| == FAST_SIZE
    ensures Filled(look, look, code, k, Value(code))
  {
    forall p: Stream | |p| == FAST_BITS && code <= p
      ensures Index(p) >= Value(code)
    {
      var b := IndexOfMatch(code, p);
    }
  }

  /** Between one index a code starts and the next there is no other. */
  lemma NextMatch(code: Stream, a: nat, p: Stream)
    requires |p| == FAST_BITS && |code| <= FAST_BITS
    ensures var cur, step := Value(code) + Pow2(|code|) * a, Pow2(|code|);
            (&& (Value(p) == cur ==> code <= p)
             && (code <= p && Value(p) < cur + step ==> Value(p) <= cur))
  {
    if Value(p) == Value(code) + Pow2(|code|) * a {
      MatchOfIndex(code, p, a);
    }
    if code <= p {
      var b := IndexOfMatch(code, p);
      if Value(p) > Value(code) + Pow2(|code|) * a {
        NextMultiple(Pow2(|code|), Value(code), a, b);
      }
    }
  }

  lemma FillOne(look: seq<int>, before: seq<int>, code: Stream, k: int, a: nat, cur: nat)
    requires |look| == |before| == FAST_SIZE && |code| <= FAST_BITS
    requires cur == Value(code) + Pow2(|code|) * a < FAST_SIZE && Filled(look, before, code, k, cur)
    ensures Filled(look[cur := k], before, code, k, cur + Pow2(|code|))
  {
    var look' := look[cur := k];
    forall p: Stream | |p| == FAST_BITS
      ensures look'[Index(p)] == if code <= p && Index(p) < cur + Pow2(|code|) then k else before[Index(p)]
    {
      NextMatch(code, a, p);
      assert look[Index(p)] == if code <= p && Index(p) < cur then k else before[Index(p)];
    }
  }

  /** Enters a short code at every index it starts. */
  method FillShort(look: array<int>, rev0: nat, size: nat, k: int, ghost code: Stream)
    requires look.Length == FAST_SIZE && |code| == size <= FAST_BITS && rev0 == Value(code)
    modifies look
    ensures Filled(look[..], old(look[..]), code, k, FAST_SIZE)
  {
    ghost var before, a := look[..], 0;
    var rev, step := rev0, Pow2(size);
    FillNone(before, code, k);
    while rev < FAST_SIZE
      invariant rev == rev0 + step * a
      invariant Filled(look[..], before, code, k, rev)
      decreases FAST_SIZE - rev
    {
      ghost var l := look[..];
      FillOne(l, before, code, k, a, rev);
      look[rev] := k;
      assert look[..] == l[rev := k];
      assert step * (a + 1) == step * a + step;
      rev := rev + step;
      a := a + 1;
    }
    FilledAll(look[..], before, code, k, rev);
  }

  lemma FilledAll(look: seq<int>, before: seq<int>, code: Stream, k: int, end: int)
    requires |look| == |before| == FAST_SIZE && end >= FAST_SIZE && Filled(look, before, code, k, end)
    ensures Filled(look, before, code, k, FAST_SIZE)
  {
  }

  lemma FilledIsBuilt(sizes: Sizes, n: nat, m: map<Stream, int>, before: seq<int>, look: seq<int>, tree: seq<int>)
    requires Built(sizes, n, m, before, tree) && n < |sizes| && 0 < sizes[n] <= FAST_BITS && |look| == FAST_SIZE
    requires Filled(look, before, SymbolBits(sizes, n), sizes[n] * 512 + n, FAST_SIZE)
    ensures Built(sizes, n + 1, m, look, tree)
  {
    forall p: Stream | |p| == FAST_BITS
      ensures TopAt(sizes, n + 1, m, look, p)
    {
      assert TopAt(sizes, n, m, before, p);
      ShortStep(sizes, n, m, p);
    }
    SlotsKept(sizes, n, m, tree);
  }

  /** A symbol that is no leaf of the tree leaves all slots as they are. */
  lemma SlotsKept(sizes: Sizes, n: nat, m: map<Stream, int>, tree: seq<int>)
    requires Fits(sizes) && Nodes(sizes, m) && n < |sizes| && sizes[n] <= FAST_BITS && TreeOk(sizes, n, m, tree)
    ensures TreeOk(sizes, n + 1, m, tree)
  {
    var n' := n + 1;
    forall p, b | p in m
      ensures SlotAt(sizes, n', m, tree, p, b)
    {
      assert SlotAt(sizes, n, m, tree, p, b);
      assert NodeOk(sizes, m, p);
      SameSlot(sizes, n, m, p + [b]);
    }
  }

  /** A symbol without a code changes nothing. */
  lemma UnusedIsBuilt(sizes: Sizes, n: nat, m: map<Stream, int>, look: seq<int>, tree: seq<int>)
    requires Built(sizes, n, m, look, tree) && n < |sizes| && sizes[n] == 0
    ensures Built(sizes, n + 1, m, look, tree)
  {
    forall p: Stream | |p| == FAST_BITS
      ensures TopAt(sizes, n + 1, m, look, p)
    {
      assert TopAt(sizes, n, m, look, p);
      SameTop(sizes, n, m, p);
    }
    SlotsKept(sizes, n, m, tree);
  }

  // ----- putting in a long code

  /** Symbol `n` is being put in: the first `len` bits of its code lead to node `m[c[..len]]`. */
  ghost predicate OnPath(sizes: Sizes, n: nat, m: map<Stream, int>, c: Stream, len: nat) {
    && n < |sizes| && sizes[n] > FAST_BITS && c == SymbolBits(sizes, n) && FAST_BITS <= len < |c|
    && forall k :: FAST_BITS <= k <= len ==> c[..k] in m
  }

  lemma CutIsInner(sizes: Sizes, n: nat, c: Stream, len: nat)
    requires n < |sizes| && c == SymbolBits(sizes, n) && len < |c|
    ensures Inner(sizes, c[..len])
  {
    assert HasCode(sizes, n) && c[..len] <= SymbolBits(sizes, n);
  }

  /** What stands where the code of symbol `n` goes on: nothing yet, or a node. */
  lemma NextOnPath(sizes: Sizes, n: nat, m: map<Stream, int>, c: Stream, len: nat)
    requires Fits(sizes) && Nodes(sizes, m) && n < |sizes| && c == SymbolBits(sizes, n) && len < |c|
    ensures WantSlot(sizes, n, m, c[..len]) == if c[..len] in m then m[c[..len]] else 0
    ensures |c[..len]| == FAST_BITS ==> WantTop(sizes, n, m, c[..len]) == if c[..len] in m then m[c[..len]] else 0
    ensures c[..len] in m ==> m[c[..len]] < 0
  {
    var q := c[..len];
    CutIsInner(sizes, n, c, len);
    if q in m {
      assert NodeOk(sizes, m, q);
    } else {
      forall s | LongAt(sizes, n, s, q) || ShortAt(sizes, n, s, q)
        ensures false
      {
        InnerStartsNoCode(sizes, q, s);
      }
    }
  }

  /** A new node gets the next number; its two slots are still empty. */
  function AddNode(m: map<Stream, int>, q: Stream): map<Stream, int> {
    m[q := -1 - 2 * |m|]
  }

  lemma NodesGrow(sizes: Sizes, m: map<Stream, int>, q: Stream)
    requires Nodes(sizes, m) && q !in m && |q| >= FAST_BITS && Inner(sizes, q)
    requires |q| > FAST_BITS ==> q[..|q| - 1] in m
    ensures Nodes(sizes, AddNode(m, q)) && |AddNode(m, q)| == |m| + 1
  {
    var m' := AddNode(m, q);
    AddNodeCard(m, q);
    forall p | p in m'
      ensures NodeOk(sizes, m', p)
    {
      if p != q {
        assert NodeOk(sizes, m, p);
      }
    }
    forall p, p' | p in m' && p' in m' && m'[p] == m'[p']
      ensures p == p'
    {
      assert p == q || NodeOk(sizes, m, p);
      assert p' == q || NodeOk(sizes, m, p');
    }
  }

  lemma AddNodeCard(m: map<Stream, int>, q: Stream)
    requires q !in m
    ensures |AddNode(m, q)| == |m| + 1
  {
    var m' := AddNode(m, q);
    assert m'.Keys == m.Keys + {q};
  }

  /** Nothing hangs below a prefix that is not a node yet. */
  lemma NothingBelow(sizes: Sizes, n: nat, m: map<Stream, int>, q: Stream, b: bool)
    requires Fits(sizes) && Nodes(sizes, m) && Paths(sizes, n, m) && q !in m && |q| >= FAST_BITS
    ensures WantSlot(sizes, n, AddNode(m, q), q + [b]) == 0
  {
    var r := q + [b];
    assert r[..|r| - 1] == q;
    assert r !in m || NodeOk(sizes, m, r);
    forall s: nat
      ensures !LongAt(sizes, n, s, r)
    {
      if s < n && HasCode(sizes, s) && |q| < sizes[s] {
        assert SymbolBits(sizes, s)[..|q|] in m;
      }
    }
  }

  lemma IndexInjective(p: Stream, q: Stream)
    requires |p| == |q| == FAST_BITS && Index(p) == Index(q)
    ensures p == q
  {
    ToBitsOfValue(p);
    ToBitsOfValue(q);
  }

  lemma SlotsApart(sizes: Sizes, m: map<Stream, int>, p: Stream, b: bool, q: Stream, d: bool)
    requires Nodes(sizes, m) && p in m && q in m && Slot(m[p], b) == Slot(m[q], d)
    ensures p == q && b == d
  {
    assert NodeOk(sizes, m, p) && NodeOk(sizes, m, q);
    assert m[p] % 2 == 1 && m[q] % 2 == 1;
    assert m[p] == m[q];
  }

  lemma PathsGrow(sizes: Sizes, n: nat, m: map<Stream, int>, q: Stream)
    requires Paths(sizes, n, m)
    ensures Paths(sizes, n, AddNode(m, q))
  {
  }

  /** The slots of the old nodes, seen with the new node `q` on the map. */
  lemma SlotsWithNew(sizes: Sizes, n: nat, m: map<Stream, int>, q: Stream, tree: seq<int>, p: Stream, b: bool)
    requires Nodes(sizes, m) && TreeOk(sizes, n, m, tree) && q !in m && p in m && p + [b] != q
    ensures SlotAt(sizes, n, AddNode(m, q), tree, p, b)
  {
    assert SlotAt(sizes, n, m, tree, p, b);
  }

  lemma SlotsOfNew(sizes: Sizes, n: nat, m: map<Stream, int>, q: Stream, tree: seq<int>, b: bool)
    requires Fits(sizes) && Nodes(sizes, m) && Paths(sizes, n, m) && q !in m && |q| >= FAST_BITS
    requires TreeOk(sizes, n, m, tree) && 2 * |m| + 2 <= |tree|
    ensures SlotAt(sizes, n, AddNode(m, q), tree, q, b)
  {
    NothingBelow(sizes, n, m, q, b);
  }

  /** A first-level node. */
  lemma AddTopNode(sizes: Sizes, n: nat, m: map<Stream, int>, look: seq<int>, tree: seq<int>, q: Stream)
    requires Built(sizes, n, m, look, tree) && q !in m && |q| == FAST_BITS && Inner(sizes, q)
    requires 2 * |m| + 2 <= |tree|
    ensures Built(sizes, n, AddNode(m, q), look[Index(q) := -1 - 2 * |m|], tree)
  {
    var m', look' := AddNode(m, q), look[Index(q) := -1 - 2 * |m|];
    NodesGrow(sizes, m, q);
    PathsGrow(sizes, n, m, q);
    forall p: Stream | |p| == FAST_BITS
      ensures TopAt(sizes, n, m', look', p)
    {
      assert TopAt(sizes, n, m, look, p);
      if Index(p) == Index(q) {
        IndexInjective(p, q);
      }
    }
    forall p, b | p in m'
      ensures SlotAt(sizes, n, m', tree, p, b)
    {
      if p == q {
        SlotsOfNew(sizes, n, m, q, tree, b);
      } else {
        assert NodeOk(sizes, m, p);
        SlotsWithNew(sizes, n, m, q, tree, p, b);
      }
    }
  }

  /** A node further down, hung into its parent's slot. */
  lemma AddTreeNode(sizes: Sizes, n: nat, m: map<Stream, int>, look: seq<int>, tree: seq<int>, o: Stream, d: bool)
    requires Built(sizes, n, m, look, tree) && o in m && o + [d] !in m && Inner(sizes, o + [d])
    requires 2 * |m| + 2 <= |tree| && 0 <= Slot(m[o], d) < |tree|
    ensures Built(sizes, n, AddNode(m, o + [d]), look, tree[Slot(m[o], d) := -1 - 2 * |m|])
  {
    var q := o + [d];
    var m', tree' := AddNode(m, q), tree[Slot(m[o], d) := -1 - 2 * |m|];
    assert q[..|q| - 1] == o;
    assert NodeOk(sizes, m, o);
    NodesGrow(sizes, m, q);
    PathsGrow(sizes, n, m, q);
    forall p: Stream | |p| == FAST_BITS
      ensures TopAt(sizes, n, m', look, p)
    {
      assert TopAt(sizes, n, m, look, p);
    }
    forall p, b | p in m'
      ensures SlotAt(sizes, n, m', tree', p, b)
    {
      TreeNodeSlot(sizes, n, m, tree, o, d, p, b);
    }
  }

  lemma TreeNodeSlot(sizes: Sizes, n: nat, m: map<Stream, int>, tree: seq<int>, o: Stream, d: bool, p: Stream, b: bool)
    requires Fits(sizes) && Nodes(sizes, m) && Paths(sizes, n, m) && TreeOk(sizes, n, m, tree)
    requires o in m && o + [d] !in m && p in AddNode(m, o + [d])
    requires 2 * |m| + 2 <= |tree| && 0 <= Slot(m[o], d) < |tree|
    ensures SlotAt(sizes, n, AddNode(m, o + [d]), tree[Slot(m[o], d) := -1 - 2 * |m|], p, b)
  {
    var q := o + [d];
    assert NodeOk(sizes, m, o);
    if p == q {
      SlotsOfNew(sizes, n, m, q, tree, b);
    } else if p + [b] == q {
      assert (p + [b])[..|p|] == (o + [d])[..|o|];
    } else {
      SlotsWithNew(sizes, n, m, q, tree, p, b);
      if Slot(m[p], b) == Slot(m[o], d) {
        SlotsApart(sizes, m, p, b, o, d);
      }
    }
  }

  /** The leaf: the code of symbol `n` ends in a slot of its last node. */
  lemma AddLeaf(sizes: Sizes, n: nat, m: map<Stream, int>, look: seq<int>, tree: seq<int>, c: Stream)
    requires Built(sizes, n, m, look, tree) && |c| > 0 && OnPath(sizes, n, m, c, |c| - 1)
    requires 0 <= Slot(m[c[..|c| - 1]], c[|c| - 1]) < |tree|
    ensures Built(sizes, n + 1, m, look, tree[Slot(m[c[..|c| - 1]], c[|c| - 1]) := n])
  {
    var n', o, d := n + 1, c[..|c| - 1], c[|c| - 1];
    var tree' := tree[Slot(m[o], d) := n];
    assert o + [d] == c;
    forall p: Stream | |p| == FAST_BITS
      ensures TopAt(sizes, n', m, look, p)
    {
      assert TopAt(sizes, n, m, look, p);
      SameTop(sizes, n, m, p);
    }
    assert NodeOk(sizes, m, o);
    forall p, b | p in m
      ensures SlotAt(sizes, n', m, tree', p, b)
    {
      LeafSlot(sizes, n, m, tree, c, p, b);
    }
    forall s, len {:trigger SymbolBits(sizes, s)[..len]} | 0 <= s < n' && HasCode(sizes, s) && FAST_BITS <= len < sizes[s]
      ensures SymbolBits(sizes, s)[..len] in m
    {
    }
  }

  lemma LeafSlot(sizes: Sizes, n: nat, m: map<Stream, int>, tree: seq<int>, c: Stream, p: Stream, b: bool)
    requires Fits(sizes) && Nodes(sizes, m) && TreeOk(sizes, n, m, tree) && |c| > 0 && OnPath(sizes, n, m, c, |c| - 1) && p in m
    requires 0 <= Slot(m[c[..|c| - 1]], c[|c| - 1]) < |tree|
    ensures SlotAt(sizes, n + 1, m, tree[Slot(m[c[..|c| - 1]], c[|c| - 1]) := n], p, b)
  {
    var o, d := c[..|c| - 1], c[|c| - 1];
    assert o + [d] == c;
    assert SlotAt(sizes, n, m, tree, p, b);
    if p + [b] == c {
      assert (p + [b])[..|p|] == c[..|c| - 1];
      assert LongAt(sizes, n + 1, n, c);
      WantSlotOf(sizes, n + 1, m, c, n);
    } else {
      SameSlot(sizes, n, m, p + [b]);
      if Slot(m[p], b) == Slot(m[o], d) {
        SlotsApart(sizes, m, p, b, o, d);
      }
    }
  }

  // ----- room in the tree

  lemma {:induction false} InjectionBound(A: set<Stream>, f: map<Stream, nat>, n: nat)
    requires forall p :: p in A ==> p in f && f[p] < n
    requires forall p, q :: p in A && q in A && f[p] == f[q] ==> p == q
    ensures |A| <= n
    decreases n
  {
    if n == 0 {
      assert A == {};
    } else if p :| p in A && f[p] == n - 1 {
      InjectionBound(A - {p}, f, n - 1);
    } else {
      InjectionBound(A, f, n - 1);
    }
  }

  function Zeros(n: nat): (z: Stream)
    ensures |z| == n && forall i :: 0 <= i < n ==> !z[i]
  {
    seq(n, _ => false)
  }

  /** In a complete code the node `p` has a leaf of its own: right once, then left all the way. */
  lemma LeafOf(sizes: Sizes, p: Stream) returns (s: nat)
    requires Complete(sizes) && Inner(sizes, p)
    ensures HasCode(sizes, s) && |p| < sizes[s]
    ensures SymbolBits(sizes, s) == p + [true] + Zeros(sizes[s] - |p| - 1)
  {
    var long := p + [true] + Zeros(MAX_SIZE);
    s := Covering(sizes, long);
    assert IsTable(sizes);
    TableFits(sizes);
    InnerStartsNoCode(sizes, p, s);
    var c := SymbolBits(sizes, s);
    assert c == long[..|c|];
    assert |c| <= |p| ==> c <= p;
  }

  lemma LeafDetermines(p: Stream, i: nat, q: Stream, j: nat)
    ensures p != q ==> p + [true] + Zeros(i) != q + [true] + Zeros(j)
  {
    var a, b := p + [true] + Zeros(i), q + [true] + Zeros(j);
    if |p| < |q| < |a| {
      assert !a[|q|] && b[|q|];
    } else if |q| < |p| < |b| {
      assert a[|p|] && !b[|p|];
    } else if |p| == |q| {
      assert a[..|p|] == p && b[..|p|] == q;
    }
  }

  lemma NodesFewComplete(sizes: Sizes, m: map<Stream, int>)
    requires Complete(sizes) && Nodes(sizes, m)
    ensures |m| <= |sizes|
  {
    var f: map<Stream, nat> := map[];
    var todo := m.Keys;
    while todo != {}
      invariant todo <= m.Keys && f.Keys == m.Keys - todo
      invariant forall p :: p in f ==> IsLeafOf(sizes, p, f[p])
      decreases |todo|
    {
      var p :| p in todo;
      assert NodeOk(sizes, m, p);
      var s := LeafOf(sizes, p);
      f := f[p := s];
      todo := todo - {p};
    }
    forall p, q | p in m.Keys && q in m.Keys && f[p] == f[q]
      ensures p == q
    {
      assert IsLeafOf(sizes, p, f[p]) && IsLeafOf(sizes, q, f[q]);
      LeafDetermines(p, sizes[f[p]] - |p| - 1, q, sizes[f[q]] - |q| - 1);
    }
    assert forall p :: p in m.Keys ==> IsLeafOf(sizes, p, f[p]);
    InjectionBound(m.Keys, f, |sizes|);
  }

  ghost predicate IsLeafOf(sizes: Sizes, p: Stream, s: nat) {
    && HasCode(sizes, s) && |p| < sizes[s]
    && SymbolBits(sizes, s) == p + [true] + Zeros(sizes[s] - |p| - 1)
  }

  /** With a single code the nodes are cut-off prefixes of that one code. */
  lemma NodesFewSingle(sizes: Sizes, m: map<Stream, int>)
    requires Valid(sizes) && Nodes(sizes, m)
    requires forall s, t :: HasCode(sizes, s) && HasCode(sizes, t) ==> s == t
    ensures |m| <= MAX_SIZE - FAST_BITS
  {
    var f: map<Stream, nat> := map p | p in m :: if |p| >= FAST_BITS then |p| - FAST_BITS else 0;
    forall p | p in m.Keys
      ensures f[p] < MAX_SIZE - FAST_BITS
    {
      assert NodeOk(sizes, m, p);
    }
    forall p, q | p in m.Keys && q in m.Keys && f[p] == f[q]
      ensures p == q
    {
      assert NodeOk(sizes, m, p) && NodeOk(sizes, m, q);
      var s: nat :| HasCode(sizes, s) && |p| < sizes[s] && p <= SymbolBits(sizes, s);
      var t: nat :| HasCode(sizes, t) && |q| < sizes[t] && q <= SymbolBits(sizes, t);
      assert p == SymbolBits(sizes, s)[..|p|] && q == SymbolBits(sizes, s)[..|q|];
    }
    InjectionBound(m.Keys, f, MAX_SIZE - FAST_BITS);
  }

  lemma {:induction false} OneCode(sizes: Sizes, s: nat, t: nat)
    requires Valid(sizes) && Canonical.Used(sizes, MAX_SIZE) <= 1 && HasCode(sizes, s) && HasCode(sizes, t)
    ensures s == t
  {
    if s != t {
      TwoCodes(sizes, s, t, MAX_SIZE);
    }
  }

  lemma {:induction false} TwoCodes(sizes: Sizes, s: nat, t: nat, l: nat)
    requires HasCode(sizes, s) && HasCode(sizes, t) && s != t
    ensures Canonical.Used(sizes, l) >= (if sizes[s] <= l then 1 else 0) + (if sizes[t] <= l then 1 else 0)
  {
    if l > 0 {
      TwoCodes(sizes, s, t, l - 1);
      if sizes[s] == l {
        CodeInRange(sizes, s);
      }
      if sizes[t] == l {
        CodeInRange(sizes, t);
        if sizes[s] == l {
          RankApart(sizes, s, t);
        }
      }
    }
  }

  lemma RankApart(sizes: Sizes, s: nat, t: nat)
    requires s < |sizes| && t < |sizes| && s != t && sizes[s] == sizes[t]
    ensures Count(sizes, sizes[s]) >= 2
  {
    var a, b := if s < t then s else t, if s < t then t else s;
    RankBelowCount(sizes, a, b);
    RankBelowCount(sizes, b, |sizes|);
    assert sizes[..|sizes|] == sizes;
  }

  /** Every table the decompressor accepts fits its tree array of two slots a symbol. */
  lemma NodesFit(sizes: Sizes, m: map<Stream, int>, treeLen: nat)
    requires IsTable(sizes) && Nodes(sizes, m) && treeLen >= 2 * |sizes| && treeLen >= 10
    ensures 2 * |m| <= treeLen
  {
    if First(sizes, MAX_SIZE + 1) == 65536 {
      NodesFewComplete(sizes, m);
    } else {
      forall s, t | HasCode(sizes, s) && HasCode(sizes, t)
        ensures s == t
      {
        OneCode(sizes, s, t);
      }
      NodesFewSingle(sizes, m);
    }
  }

  // ----- the build loop

  lemma EmptyIsBuilt(sizes: Sizes, look: seq<int>, tree: seq<int>)
    requires IsTable(sizes) && |sizes| < 512 && |look| == FAST_SIZE
    requires (forall i :: 0 <= i < |look| ==> look[i] == 0) && forall i :: 0 <= i < |tree| ==> tree[i] == 0
    ensures Built(sizes, 0, map[], look, tree)
  {
    TableFits(sizes);
  }

  /** Room and slot of a node about to be used. */
  lemma NodeHasSlots(sizes: Sizes, n: nat, m: map<Stream, int>, tree: seq<int>, p: Stream, b: bool)
    requires Nodes(sizes, m) && TreeOk(sizes, n, m, tree) && p in m
    ensures 0 <= Slot(m[p], b) < |tree|
  {
    assert SlotAt(sizes, n, m, tree, p, b);
  }

  lemma RoomForNode(sizes: Sizes, m: map<Stream, int>, q: Stream, treeLen: nat)
    requires IsTable(sizes) && Nodes(sizes, m) && q !in m && |q| >= FAST_BITS && Inner(sizes, q)
    requires |q| > FAST_BITS ==> q[..|q| - 1] in m
    requires treeLen >= 2 * |sizes| && treeLen >= 10
    ensures 2 * |m| + 2 <= treeLen
  {
    NodesGrow(sizes, m, q);
    NodesFit(sizes, AddNode(m, q), treeLen);
  }

  /** The first-level node on the way to the code `c` of symbol `n`. */
  method TopNode(look: array<int>, rev: nat, treeNext: int, ghost sizes: Sizes, ghost n: nat, ghost m: map<Stream, int>,
                 ghost tree: seq<int>, ghost c: Stream)
    returns (treeCur: int, next: int, ghost m': map<Stream, int>)
    requires look.Length == FAST_SIZE && IsTable(sizes) && n < |sizes| && Built(sizes, n, m, look[..], tree)
    requires c == SymbolBits(sizes, n) && |c| > FAST_BITS && rev == Value(c) && treeNext == -1 - 2 * |m|
    requires |tree| >= 2 * |sizes| && |tree| >= 10
    modifies look
    ensures Built(sizes, n, m', look[..], tree) && next == -1 - 2 * |m'|
    ensures OnPath(sizes, n, m', c, FAST_BITS) && treeCur == m'[c[..FAST_BITS]]
  {
    ghost var q := c[..FAST_BITS];
    LowBits(c, rev);
    NextOnPath(sizes, n, m, c, FAST_BITS);
    CutIsInner(sizes, n, c, FAST_BITS);
    assert TopAt(sizes, n, m, look[..], q);
    treeCur, next, m' := look[rev % FAST_SIZE], treeNext, m;
    if treeCur == 0 {
      RoomForNode(sizes, m, q, |tree|);
      AddTopNode(sizes, n, m, look[..], tree, q);
      ghost var l := look[..];
      look[rev % FAST_SIZE] := treeNext;
      assert look[..] == l[Index(q) := treeNext];
      m' := AddNode(m, q);
      AddNodeCard(m, q);
      treeCur := treeNext;
      next := treeNext - 2;
    }
  }

  /** The low ten bits of a reversed code are its first ten bits. */
  lemma LowBits(c: Stream, rev: nat)
    requires |c| > FAST_BITS && rev == Value(c)
    ensures rev % FAST_SIZE == Index(c[..FAST_BITS])
    ensures rev / FAST_SIZE == Value(c[FAST_BITS..])
  {
    assert c == c[..FAST_BITS] + c[FAST_BITS..];
    ValueAppend(c[..FAST_BITS], c[FAST_BITS..]);
    Pow2Values();
    ValueBound(c[..FAST_BITS]);
  }

  /** One level down the tree, making the node if it is missing. */
  method NextNode(tree: array<int>, treeCur0: int, bit: nat, treeNext: int, ghost sizes: Sizes, ghost n: nat,
                  ghost m: map<Stream, int>, ghost look: seq<int>, ghost c: Stream, ghost len: nat)
    returns (treeCur: int, next: int, ghost m': map<Stream, int>)
    requires IsTable(sizes) && Built(sizes, n, m, look, tree[..]) && OnPath(sizes, n, m, c, len) && len + 1 < |c|
    requires treeCur0 == m[c[..len]] && bit == (if c[len] then 1 else 0) && treeNext == -1 - 2 * |m|
    requires tree.Length >= 2 * |sizes| && tree.Length >= 10
    modifies tree
    ensures Built(sizes, n, m', look, tree[..]) && next == -1 - 2 * |m'|
    ensures OnPath(sizes, n, m', c, len + 1) && treeCur == m'[c[..len + 1]]
  {
    ghost var o, d := c[..len], c[len];
    assert c[..len + 1] == o + [d];
    NextOnPath(sizes, n, m, c, len + 1);
    CutIsInner(sizes, n, c, len + 1);
    assert SlotAt(sizes, n, m, tree[..], o, d);
    NodeHasSlots(sizes, n, m, tree[..], o, d);
    treeCur, next, m' := treeCur0 - bit, treeNext, m;
    assert -treeCur - 1 == Slot(m[o], d);
    assert tree[-treeCur - 1] == WantSlot(sizes, n, m, o + [d]);
    if tree[-treeCur - 1] == 0 {
      assert (o + [d])[..|o + [d]| - 1] == o;
      RoomForNode(sizes, m, o + [d], tree.Length);
      AddTreeNode(sizes, n, m, look, tree[..], o, d);
      ghost var t := tree[..];
      tree[-treeCur - 1] := treeNext;
      assert tree[..] == t[Slot(m[o], d) := treeNext];
      m' := AddNode(m, o + [d]);
      AddNodeCard(m, o + [d]);
      treeCur := treeNext;
      next := treeNext - 2;
    } else {
      treeCur := tree[-treeCur - 1];
    }
  }

  /** Puts symbol `n` with a long code into the tables. */
  method InsertLong(look: array<int>, tree: array<int>, rev: nat, codeSize: nat, n: nat, treeNext0: int,
                    ghost sizes: Sizes, ghost m0: map<Stream, int>)
    returns (treeNext: int, ghost m: map<Stream, int>)
    requires look.Length == FAST_SIZE && look != tree && IsTable(sizes) && n < |sizes|
    requires Built(sizes, n, m0, look[..], tree[..]) && treeNext0 == -1 - 2 * |m0|
    requires codeSize == sizes[n] > FAST_BITS && rev == Value(SymbolBits(sizes, n))
    requires tree.Length >= 2 * |sizes| && tree.Length >= 10
    modifies look, tree
    ensures Built(sizes, n + 1, m, look[..], tree[..]) && treeNext == -1 - 2 * |m|
  {
    ghost var c := SymbolBits(sizes, n);
    var treeCur;
    treeCur, treeNext, m := TopNode(look, rev, treeNext0, sizes, n, m0, tree[..], c);
    LowBits(c, rev);
    var code := rev / FAST_SIZE;
    var j := codeSize;
    ghost var len := FAST_BITS;
    ghost var l := look[..];
    while j > FAST_BITS + 1
      invariant len == FAST_BITS + (codeSize - j) && FAST_BITS + 1 <= j <= codeSize
      invariant look[..] == l && Built(sizes, n, m, l, tree[..]) && treeNext == -1 - 2 * |m|
      invariant OnPath(sizes, n, m, c, len) && treeCur == m[c[..len]]
      invariant code == Value(c[len..])
    {
      assert c[len..][0] == c[len] && c[len..][1..] == c[len + 1..];
      treeCur, treeNext, m := NextNode(tree, treeCur, code % 2, treeNext, sizes, n, m, l, c, len);
      code := code / 2;
      j := j - 1;
      len := len + 1;
    }
    assert c[len..][0] == c[len];
    NodeHasSlots(sizes, n, m, tree[..], c[..len], c[len]);
    treeCur := treeCur - code % 2;
    AddLeaf(sizes, n, m, l, tree[..], c);
    ghost var t := tree[..];
    tree[-treeCur - 1] := n;
    assert tree[..] == t[Slot(m[c[..len]], c[len]) := n];
  }

  /** Puts symbol `n` with a short code into the tables. */
  method InsertShort(look: array<int>, rev: nat, codeSize: nat, n: nat, ghost sizes: Sizes, ghost m: map<Stream, int>, ghost tree: seq<int>)
    requires look.Length == FAST_SIZE && n < |sizes| && Built(sizes, n, m, look[..], tree)
    requires 0 < codeSize == sizes[n] <= FAST_BITS && rev == Value(SymbolBits(sizes, n))
    modifies look
    ensures Built(sizes, n + 1, m, look[..], tree)
  {
    ghost var before := look[..];
    FillShort(look, rev, codeSize, codeSize * 512 + n, SymbolBits(sizes, n));
    FilledIsBuilt(sizes, n, m, before, look[..], tree);
  }

  /** The code of symbol `n`, bit-reversed, taken from its counter. */
  method TakeCode(next: array<nat>, n: nat, codeSize: nat, ghost sizes: Sizes) returns (rev: nat)
    requires Fits(sizes) && n < |sizes| && codeSize == sizes[n] > 0 && next.Length > MAX_SIZE
    requires NextCodes(next[..], sizes, n, MAX_SIZE)
    modifies next
    ensures NextCodes(next[..], sizes, n + 1, MAX_SIZE)
    ensures rev == Value(SymbolBits(sizes, n))
  {
    NextCodesStep(next[..], sizes, n, MAX_SIZE);
    ghost var l: seq<nat> := next[..];
    var code := next[codeSize];
    next[codeSize] := next[codeSize] + 1;
    assert next[..] == l[codeSize := l[codeSize] + 1];
    CodeInRange(sizes, n);
    rev := ReverseCode(code, codeSize);
    ValueOfToBits(rev, codeSize);
  }

  method CountSizes(sizes: array<nat>, tableSize: nat) returns (totalSyms: array<nat>)
    requires tableSize <= sizes.Length && Valid(sizes[..tableSize])
    ensures fresh(totalSyms) && totalSyms.Length == MAX_SIZE + 1
    ensures forall l :: 0 <= l <= MAX_SIZE ==> totalSyms[l] == Count(sizes[..tableSize], l)
  {
    totalSyms := new nat[MAX_SIZE + 1](i => 0);
    ghost var z := sizes[..tableSize];
    for i := 0 to tableSize
      invariant forall l :: 0 <= l <= MAX_SIZE ==> totalSyms[l] == Count(z[..i], l)
    {
      forall l: nat
        ensures Count(z[..i + 1], l) == Count(z[..i], l) + (if z[i] == l then 1 else 0)
      {
        CountSnoc(z, i, l);
      }
      assert z[i] == sizes[i];
      totalSyms[sizes[i]] := totalSyms[sizes[i]] + 1;
    }
    assert z[..tableSize] == z;
  }

  lemma StartCodes(next: seq<nat>, sizes: Sizes)
    requires |next| > MAX_SIZE && forall l :: 1 <= l <= MAX_SIZE ==> next[l] == First(sizes, l)
    ensures NextCodes(next, sizes, 0, MAX_SIZE)
  {
    forall l: nat | 1 <= l <= MAX_SIZE
      ensures NextCode(next, sizes, 0, l)
    {
      assert sizes[..0] == [];
    }
  }

  /** First codes of every size, and whether the code sizes make a code the decompressor accepts. */
  method CheckSizes(totalSyms: array<nat>, ghost sizes: Sizes) returns (next: array<nat>, ok: bool)
    requires totalSyms.Length == MAX_SIZE + 1 && Valid(sizes)
    requires forall l :: 0 <= l <= MAX_SIZE ==> totalSyms[l] == Count(sizes, l)
    ensures fresh(next) && next.Length == MAX_SIZE + 2
    ensures ok <==> IsTable(sizes)
    ensures NextCodes(next[..], sizes, 0, MAX_SIZE)
  {
    next := new nat[MAX_SIZE + 2](i => 0);
    var used, total, last := 0, 0, MAX_SIZE + 1;
    for i := 1 to last
      invariant used == Canonical.Used(sizes, i - 1) && total == First(sizes, i)
      invariant forall l :: 1 <= l <= i ==> next[l] == First(sizes, l)
    {
      NextTotals(sizes, i);
      used := used + totalSyms[i];
      total := (total + totalSyms[i]) * 2;
      next[i + 1] := total;
    }
    ok := !(total != 65536 && used > 1);
    StartCodes(next[..], sizes);
  }

  lemma NextTotals(sizes: Sizes, i: nat)
    requires i >= 1
    ensures Canonical.Used(sizes, i) == Canonical.Used(sizes, i - 1) + Count(sizes, i)
    ensures First(sizes, i + 1) == 2 * (First(sizes, i) + Count(sizes, i))
  {
  }

  /** The tables of the code given by `sizes`. */
  ghost predicate TableFor(sizes: Sizes, look: seq<int>, tree: seq<int>) {
    exists m :: Built(sizes, |sizes|, m, look, tree)
  }

  /** Builds the decode tables, or reports that the sizes are no code. */
  method BuildTables(sizes: array<nat>, tableSize: nat, look: array<int>, tree: array<int>) returns (ok: bool)
    requires tableSize <= sizes.Length && tableSize < 512 && Valid(sizes[..tableSize])
    requires look.Length == FAST_SIZE && look != tree && tree.Length >= 2 * tableSize && tree.Length >= 10
    modifies look, tree
    ensures ok <==> IsTable(sizes[..tableSize])
    ensures ok ==> TableFor(sizes[..tableSize], look[..], tree[..])
  {
    ghost var z := sizes[..tableSize];
    ClearInts(look);
    ClearInts(tree);
    var totalSyms := CountSizes(sizes, tableSize);
    var next;
    next, ok := CheckSizes(totalSyms, z);
    if !ok {
      return;
    }
    EmptyIsBuilt(z, look[..], tree[..]);
    ghost var m: map<Stream, int> := map[];
    var treeNext := -1;
    for sym := 0 to tableSize
      invariant sizes[..tableSize] == z
      invariant NextCodes(next[..], z, sym, MAX_SIZE)
      invariant Built(z, sym, m, look[..], tree[..]) && treeNext == -1 - 2 * |m|
    {
      var codeSize := sizes[sym];
      assert codeSize == z[sym];
      if codeSize == 0 {
        NextCodesStep(next[..], z, sym, MAX_SIZE);
        UnusedIsBuilt(z, sym, m, look[..], tree[..]);
        continue;
      }
      treeNext, m := InsertSymbol(next, look, tree, codeSize, sym, treeNext, z, m);
    }
  }

  method InsertSymbol(next: array<nat>, look: array<int>, tree: array<int>, codeSize: nat, n: nat, treeNext0: int,
                      ghost sizes: Sizes, ghost m0: map<Stream, int>)
    returns (treeNext: int, ghost m: map<Stream, int>)
    requires next.Length > MAX_SIZE && look.Length == FAST_SIZE && look != tree && IsTable(sizes) && n < |sizes|
    requires NextCodes(next[..], sizes, n, MAX_SIZE) && codeSize == sizes[n] > 0
    requires Built(sizes, n, m0, look[..], tree[..]) && treeNext0 == -1 - 2 * |m0|
    requires tree.Length >= 2 * |sizes| && tree.Length >= 10
    modifies next, look, tree
    ensures NextCodes(next[..], sizes, n + 1, MAX_SIZE)
    ensures Built(sizes, n + 1, m, look[..], tree[..]) && treeNext == -1 - 2 * |m|
  {
    ghost var l, t := look[..], tree[..];
    TableFits(sizes);
    var rev := TakeCode(next, n, codeSize, sizes);
    ghost var c := next[..];
    assert look[..] == l && tree[..] == t;
    treeNext, m := treeNext0, m0;
    if codeSize <= FAST_BITS {
      InsertShort(look, rev, codeSize, n, sizes, m0, t);
      assert tree[..] == t;
    } else {
      treeNext, m := InsertLong(look, tree, rev, codeSize, n, treeNext0, sizes, m0);
    }
    assert next[..] == c;
  }

  method ClearInts(a: array<int>)
    modifies a
    ensures forall i :: 0 <= i < a.Length ==> a[i] == 0
  {
    for i := 0 to a.Length
      invariant forall j :: 0 <= j < i ==> a[j] == 0
    {
      a[i] := 0;
    }
  }
}
