/** From symbol counts to a Huffman table: sort, build, limit, give out sizes, give out codes. */
module HuffmanTable {
  import opened Bits
  import opened Canonical
  import opened Sums
  import opened MinimumRedundancy
  import opened HuffmanDepth
  import opened HuffmanBuilder
  import opened RadixSort
  import opened RankedSymbols
  import opened LengthLimit
  import opened CodeAssignment
  import opened RankedSizes
  import opened LimitPenalty

  // ----- giving out sizes

  /** The last |z| ranked symbols have got the sizes `z`; nobody else has one. */
  ghost predicate Given(sizes: Sizes, count: seq<nat>, r: seq<SymFreq>, z: seq<nat>) {
    && |z| <= |r| && |sizes| == |count|
    && (forall p :: 0 <= p < |r| ==> r[p].sym < |count| && count[r[p].sym] > 0)
    && (forall p :: 0 <= p < |r| - |z| ==> sizes[r[p].sym] == 0)
    && (forall p :: |r| - |z| <= p < |r| ==> sizes[r[p].sym] == z[p - (|r| - |z|)])
    && (forall s :: 0 <= s < |sizes| && sizes[s] > 0 ==> count[s] > 0)
    && (forall v :: v >= 1 ==> Count(sizes, v) == Count(z, v))
  }

  ghost predicate DistinctSyms(r: seq<SymFreq>) {
    forall j, k :: 0 <= j < k < |r| ==> r[j].sym != r[k].sym
  }

  lemma GiveOne(sizes: Sizes, count: seq<nat>, r: seq<SymFreq>, z: seq<nat>, v: nat)
    requires Given(sizes, count, r, z) && DistinctSyms(r) && |z| < |r| && v >= 1
    ensures Given(sizes[r[|r| - |z| - 1].sym := v], count, r, [v] + z)
  {
    var j := |r| - |z| - 1;
    var t := sizes[r[j].sym := v];
    forall u: nat | u >= 1
      ensures Count(t, u) == Count([v] + z, u)
    {
      CountUpdate(sizes, r[j].sym, v, u);
      CountPrepend(v, z, u);
    }
    forall p | |r| - |[v] + z| <= p < |r|
      ensures t[r[p].sym] == ([v] + z)[p - (|r| - |[v] + z|)]
    {
      assert p != j ==> r[p].sym != r[j].sym;
    }
  }

  /** Sizes `z` so far: non-increasing, in range, and counted by `num` for the sizes up to `i`. */
  ghost predicate Graded(z: seq<nat>, num: seq<nat>, i: nat, extra: nat) {
    && NonIncreasing(z) && (forall q :: 0 <= q < |z| ==> 1 <= z[q] <= i)
    && 1 <= i < |num| && Count(z, i) == extra
    && forall v :: 1 <= v < i ==> num[v] == Count(z, v)
  }

  lemma GradeOne(z: seq<nat>, num: seq<nat>, i: nat, extra: nat)
    requires Graded(z, num, i, extra)
    ensures Graded([i] + z, num, i, extra + 1)
  {
    forall v: nat
      ensures Count([i] + z, v) == Count(z, v) + (if i == v then 1 else 0)
    {
      CountPrepend(i, z, v);
    }
  }

  lemma GradeUp(z: seq<nat>, num: seq<nat>, i: nat)
    requires i + 1 < |num| && Graded(z, num, i, num[i])
    ensures Graded(z, num, i + 1, 0)
  {
    NoneOfSize(z, i + 1);
  }

  /** Gives size `i` to the next `num[i]` symbols, from the most frequent down. */
  method GiveRow(r: array<SymFreq>, n: nat, count: nat, sizes: array<nat>, i: nat, j0: nat,
                 ghost num: seq<nat>, ghost f: seq<nat>, ghost z0: seq<nat>)
    returns (j: nat, ghost z: seq<nat>)
    requires n <= r.Length && DistinctSyms(r[..n]) && j0 == n - |z0| && count <= j0
    requires Given(sizes[..], f, r[..n], z0) && Graded(z0, num, i, 0) && i < |num| && num[i] == count
    modifies sizes
    ensures j == j0 - count == n - |z|
    ensures Given(sizes[..], f, r[..n], z) && Graded(z, num, i, num[i])
  {
    j, z := j0, z0;
    ghost var u := r[..n];
    var l := count;
    while l > 0
      invariant 0 <= l <= count && j == n - |z| == j0 - (count - l)
      invariant Given(sizes[..], f, u, z) && Graded(z, num, i, count - l)
    {
      j := j - 1;
      ghost var t: seq<nat> := sizes[..];
      GiveOne(t, f, u, z, i);
      GradeOne(z, num, i, count - l);
      assert r[j] == u[j];
      sizes[r[j].sym] := i;
      assert sizes[..] == t[u[j].sym := i];
      z := [i] + z;
      l := l - 1;
    }
  }

  /** Gives out the sizes counted by `num`, the short ones to the most frequent symbols. */
  method GiveSizes(r: array<SymFreq>, n: nat, num: array<nat>, sizes: array<nat>, limit: nat, ghost f: seq<nat>) returns (ghost z: seq<nat>)
    requires n <= r.Length && DistinctSyms(r[..n]) && 1 <= limit < num.Length - 1
    requires |f| == sizes.Length && forall p :: 0 <= p < n ==> r[p].sym < |f| && f[r[p].sym] > 0
    requires Symbols(num[..], limit) == n && sizes != num && forall s :: 0 <= s < sizes.Length ==> sizes[s] == 0
    modifies sizes
    ensures |z| == n && Given(sizes[..], f, r[..n], z) && NonIncreasing(z)
    ensures (forall q :: 0 <= q < n ==> 1 <= z[q] <= limit) && CountsUpTo(num[..], z, limit)
  {
    hide Given;
    z := [];
    var j := n;
    ghost var c, u := num[..], r[..n];
    StartGiving(sizes[..], f, u, c);
    for i := 1 to limit + 1
      invariant num[..] == c && r[..n] == u && j == n - |z| == n - Symbols(c, i - 1)
      invariant Given(sizes[..], f, u, z) && Graded(z, c, i, 0)
    {
      SymbolsMonotone(c, i, limit);
      j, z := GiveRow(r, n, num[i], sizes, i, j, c, f, z);
      GradeUp(z, c, i);
    }
    AllGraded(z, c, limit);
  }

  lemma AllGraded(z: seq<nat>, num: seq<nat>, limit: nat)
    requires Graded(z, num, limit + 1, 0)
    ensures forall q :: 0 <= q < |z| ==> 1 <= z[q] <= limit
    ensures CountsUpTo(num, z, limit)
  {
    forall q | 0 <= q < |z|
      ensures 1 <= z[q] <= limit
    {
      CountPositive(z, q);
    }
  }

  lemma StartGiving(sizes: Sizes, count: seq<nat>, r: seq<SymFreq>, num: seq<nat>)
    requires |num| > 1 && (forall s :: 0 <= s < |sizes| ==> sizes[s] == 0) && |count| == |sizes|
    requires forall p :: 0 <= p < |r| ==> r[p].sym < |count| && count[r[p].sym] > 0
    ensures Given(sizes, count, r, []) && Graded([], num, 1, 0)
  {
    forall v: nat | v >= 1
      ensures Count(sizes, v) == 0
    {
      NoneOfSize(sizes, v);
    }
  }

  // ----- lengths of the ranked symbols

  function Keys(r: seq<SymFreq>): (k: seq<nat>)
    ensures |k| == |r| && forall p :: 0 <= p < |r| ==> k[p] == r[p].key
  {
    seq(|r|, p requires 0 <= p < |r| => r[p].key)
  }

  /** Code lengths for ranked symbols before the limit is enforced. */
  ghost predicate Lengths(r: seq<SymFreq>, l: seq<nat>) {
    && |l| == |r| && NonIncreasing(l) && (forall q :: 0 <= q < |l| ==> 1 <= l[q] <= MAX_SUPPORTED)
    && (|r| == 1 ==> l == [1])
    && (|r| >= 2 ==> Optimal(Keys(r), l) && Sum(Keys(r)) >= Fib(l[0] + 2) && LightBelow(Keys(r), l))
  }

  method BuildLengths(r: array<SymFreq>, n: nat) returns (keys: array<u16>)
    requires n <= r.Length && n < 0x1_0000 && SortedByKey(r[..n]) && Sum(Keys(r[..n])) < 0x1_0000
    requires forall p :: 0 <= p < n ==> 1 <= r[p].key < 0x1_0000
    ensures fresh(keys) && keys.Length == n && Lengths(r[..n], keys[..])
  {
    keys := new u16[n];
    for p := 0 to n
      invariant forall q :: 0 <= q < p ==> keys[q] == r[q].key
    {
      keys[p] := r[p].key;
    }
    assert keys[..] == Keys(r[..n]);
    CalculateMinimumRedundancy(keys);
    if n >= 2 {
      assert forall q :: 0 <= q < n ==> keys[0] >= keys[q] >= 1;
    }
  }

  /** `num` counts the codes of each length. */
  predicate Counts(num: seq<nat>, l: seq<nat>) {
    |num| == MAX_SUPPORTED + 1 && forall v :: 0 <= v <= MAX_SUPPORTED ==> num[v] == Count(l, v)
  }

  method CountLengths(keys: array<u16>) returns (num: array<nat>)
    requires forall q :: 0 <= q < keys.Length ==> 1 <= keys[q] <= MAX_SUPPORTED
    ensures fresh(num) && num.Length == MAX_SUPPORTED + 1 && Counts(num[..], keys[..])
  {
    num := new nat[MAX_SUPPORTED + 1](i => 0);
    ghost var l: seq<nat> := keys[..];
    for i := 0 to keys.Length
      invariant forall v :: 0 <= v <= MAX_SUPPORTED ==> num[v] == Count(l[..i], v)
    {
      forall v: nat
        ensures Count(l[..i + 1], v) == Count(l[..i], v) + (if l[i] == v then 1 else 0)
      {
        CountSnoc(l, i, v);
      }
      num[keys[i]] := num[keys[i]] + 1;
    }
    assert l[..keys.Length] == l;
  }

  lemma LengthsFillSpace(r: seq<SymFreq>, l: seq<nat>, num: seq<nat>)
    requires Lengths(r, l) && Counts(num, l)
    ensures Symbols(num, MAX_SUPPORTED) == |r|
    ensures |r| >= 2 ==> Space(num, MAX_SUPPORTED) == Pow2(MAX_SUPPORTED)
    ensures |r| <= 1 ==> num[1] == |r|
  {
    SpaceIsKraft(l, num, MAX_SUPPORTED);
    assert Count(l[..0], 1) == 0;
    assert |l| == 1 ==> Count(l, 1) == 1;
    if |r| >= 2 {
      FullAtAnyScale(l, |l|, MAX_SUPPORTED);
    }
  }

  // ----- the same, in symbol order

  function CostOf(l: seq<nat>): SymFreq -> nat {
    (x: SymFreq) => x.key * (if x.sym < |l| then l[x.sym] else 0)
  }

  function KraftOf(l: seq<nat>, m: nat): SymFreq -> nat {
    (x: SymFreq) => if x.sym < |l| && l[x.sym] <= m then Pow2(m - l[x.sym]) else 0
  }

  /** Lengths `k` of a prefix code for the symbols that occur. */
  ghost predicate IsCodeFor(count: seq<nat>, k: seq<nat>, m: nat) {
    && |k| == |count| && (forall i :: 0 <= i < |count| && count[i] > 0 ==> k[i] <= m)
    && SumBy(UsedSyms(count), KraftOf(k, m)) <= Pow2(m)
  }

  /** No prefix code spends fewer bits on the counted symbols. */
  ghost predicate Cheapest(count: seq<nat>, sizes: Sizes) {
    |sizes| == |count| && forall k: seq<nat>, m: nat :: IsCodeFor(count, k, m) ==> Cost(count, sizes) <= Cost(count, k)
  }

  /** No prefix code saves more than `extra` bits. */
  ghost predicate CheapWithin(count: seq<nat>, sizes: Sizes, extra: nat) {
    |sizes| == |count| && forall k: seq<nat>, m: nat :: IsCodeFor(count, k, m) ==> Cost(count, sizes) <= Cost(count, k) + extra
  }

  lemma UsedSnoc(count: seq<nat>, i: nat)
    requires i < |count|
    ensures UsedSyms(count[..i + 1]) == UsedSyms(count[..i]) + (if count[i] > 0 then [SymFreq(count[i], i)] else [])
  {
    assert count[..i + 1][..i] == count[..i];
  }

  lemma UsedStep(count: seq<nat>, n: nat, f: SymFreq -> nat)
    requires |count| == n + 1
    ensures SumBy(UsedSyms(count), f)
         == SumBy(UsedSyms(count[..n]), f) + (if count[n] > 0 then f(SymFreq(count[n], n)) else 0)
  {
    UsedSnoc(count, n);
    assert count[..n + 1] == count;
    if count[n] > 0 {
      SumByAppend(UsedSyms(count[..n]), [SymFreq(count[n], n)], f);
      SumByOne(SymFreq(count[n], n), f);
    } else {
      assert UsedSyms(count) == UsedSyms(count[..n]);
    }
  }

  lemma CostSnoc(count: seq<nat>, k: seq<nat>, n: nat)
    requires |k| == |count| == n + 1
    ensures Cost(count, k) == Cost(count[..n], k[..n]) + count[n] * k[n]
  {
    assert count == count[..n] + [count[n]] && k == k[..n] + [k[n]];
    CostAppend(count[..n], [count[n]], k[..n], [k[n]]);
    CostOne(count[n], k[n]);
  }

  lemma {:induction false} CostInSymbolOrder(count: seq<nat>, k: seq<nat>)
    requires |k| == |count|
    ensures Cost(count, k) == SumBy(UsedSyms(count), CostOf(k))
  {
    hide UsedSyms;
    if count != [] {
      var n := |count| - 1;
      CostInSymbolOrder(count[..n], k[..n]);
      CostSnoc(count, k, n);
      SumBySame(UsedSyms(count[..n]), CostOf(k[..n]), CostOf(k));
      UsedStep(count, n, CostOf(k));
    }
  }

  lemma SumByOne(x: SymFreq, f: SymFreq -> nat)
    ensures SumBy([x], f) == f(x)
  {
    assert [x][..0] == [];
  }

  lemma {:induction false} SumBySame(u: seq<SymFreq>, f: SymFreq -> nat, g: SymFreq -> nat)
    requires forall j :: 0 <= j < |u| ==> f(u[j]) == g(u[j])
    ensures SumBy(u, f) == SumBy(u, g)
  {
    if u != [] {
      SumBySame(u[..|u| - 1], f, g);
    }
  }

  /** Lengths in rank order. */
  function ByRank(r: seq<SymFreq>, k: seq<nat>): (l: seq<nat>)
    requires forall p :: 0 <= p < |r| ==> r[p].sym < |k|
    ensures |l| == |r| && forall p :: 0 <= p < |r| ==> l[p] == k[r[p].sym]
  {
    seq(|r|, p requires 0 <= p < |r| => k[r[p].sym])
  }

  lemma {:induction false} CostByRank(r: seq<SymFreq>, k: seq<nat>)
    requires forall p :: 0 <= p < |r| ==> r[p].sym < |k|
    ensures Cost(Keys(r), ByRank(r, k)) == SumBy(r, CostOf(k))
  {
    if r != [] {
      var n := |r| - 1;
      CostByRank(r[..n], k);
      assert Keys(r) == Keys(r[..n]) + [r[n].key];
      assert ByRank(r, k) == ByRank(r[..n], k) + [k[r[n].sym]];
      CostAppend(Keys(r[..n]), [r[n].key], ByRank(r[..n], k), [k[r[n].sym]]);
      CostOne(r[n].key, k[r[n].sym]);
    }
  }

  lemma {:induction false} KraftByRank(r: seq<SymFreq>, k: seq<nat>, m: nat)
    requires forall p :: 0 <= p < |r| ==> r[p].sym < |k| && k[r[p].sym] <= m
    ensures AtMost(ByRank(r, k), m) && Kraft(ByRank(r, k), m) == SumBy(r, KraftOf(k, m))
  {
    if r != [] {
      var n := |r| - 1;
      KraftByRank(r[..n], k, m);
      assert ByRank(r, k) == ByRank(r[..n], k) + [k[r[n].sym]];
      KraftAppend(ByRank(r[..n], k), [k[r[n].sym]], m);
      KraftOne(k[r[n].sym], m);
    }
  }

  /** What holds by rank holds by symbol: sizes close to optimal lengths are close to any prefix code. */
  lemma NearOptimalIsCheap(count: seq<nat>, r: seq<SymFreq>, l: seq<nat>, sizes: Sizes, extra: nat)
    requires Ranked(count, r) && |sizes| == |count| && Optimal(Keys(r), l)
    requires Cost(Keys(r), ByRank(r, sizes)) <= Cost(Keys(r), l) + extra
    ensures CheapWithin(count, sizes, extra)
  {
    forall k: seq<nat>, m: nat | IsCodeFor(count, k, m)
      ensures Cost(count, sizes) <= Cost(count, k) + extra
    {
      CostInSymbolOrder(count, sizes);
      CostInSymbolOrder(count, k);
      SumByPermutation(UsedSyms(count), r, CostOf(sizes));
      SumByPermutation(UsedSyms(count), r, CostOf(k));
      SumByPermutation(UsedSyms(count), r, KraftOf(k, m));
      CostByRank(r, sizes);
      CostByRank(r, k);
      KraftByRank(r, k, m);
      assert IsCode(Keys(r), ByRank(r, k), m);
    }
  }

  /** Optimality carries over from ranked keys to symbols. */
  lemma OptimalIsCheapest(count: seq<nat>, r: seq<SymFreq>, l: seq<nat>, sizes: Sizes)
    requires Ranked(count, r) && |sizes| == |count| && Optimal(Keys(r), l) && l == ByRank(r, sizes)
    ensures Cheapest(count, sizes)
  {
    hide IsCodeFor;
    NearOptimalIsCheap(count, r, l, sizes, 0);
  }

  lemma {:induction false} KeysSum(r: seq<SymFreq>)
    ensures Sum(Keys(r)) == SumBy(r, KeyOf())
  {
    if r != [] {
      var n := |r| - 1;
      KeysSum(r[..n]);
      assert Keys(r) == Keys(r[..n]) + [r[n].key];
      SumAppend(Keys(r[..n]), [r[n].key]);
      SumOfTwo(r[n].key, 0);
    }
  }

  lemma {:induction false} UsedSum(count: seq<nat>)
    ensures SumBy(UsedSyms(count), KeyOf()) == Sum(count)
  {
    if count != [] {
      var n := |count| - 1;
      UsedSum(count[..n]);
      assert count == count[..n] + [count[n]];
      SumAppend(count[..n], [count[n]]);
      SumOfTwo(count[n], 0);
      UsedStep(count, n, KeyOf());
    }
  }

  lemma RankedSum(count: seq<nat>, r: seq<SymFreq>)
    requires Ranked(count, r)
    ensures Sum(Keys(r)) == Sum(count)
  {
    UsedSum(count);
    KeysSum(r);
    SumByPermutation(UsedSyms(count), r, KeyOf());
  }

  function KeyOf(): SymFreq -> nat {
    (x: SymFreq) => x.key
  }

  // ----- the table

  /** What a table promises about the sizes given to counted symbols. */
  ghost predicate GoodTable(count: seq<nat>, sizes: Sizes, limit: nat) {
    && |sizes| == |count| && IsTable(sizes)
    && (forall i :: 0 <= i < |count| ==> sizes[i] <= limit && (sizes[i] > 0 <==> count[i] > 0))
    && (forall i, j :: 0 <= i < |count| && 0 <= j < |count| && count[i] > count[j] > 0 ==> sizes[i] <= sizes[j])
    && (|UsedSyms(count)| >= 2 ==> Complete(sizes))
    && (|UsedSyms(count)| >= 2 && Sum(count) < Fib(limit + 3) ==> Cheapest(count, sizes))
    && (limit == 15 && 2 <= |UsedSyms(count)| <= 288 && Sum(count) < 0x1_0000 ==> CheapWithin(count, sizes, Extra(|UsedSyms(count)|)))
    && (|UsedSyms(count)| <= 1 ==> forall i :: 0 <= i < |count| ==> sizes[i] <= 1)
  }

  /** The most that limiting the sizes of `n` symbols to 15 can cost. */
  function Extra(n: nat): nat {
    122 * n + LastLoss(n)
  }

  method CollectUsed(count: array<u16>) returns (syms: array<SymFreq>, n: nat)
    ensures fresh(syms) && n <= syms.Length == count.Length && syms[..n] == UsedSyms(count[..])
  {
    hide UsedSyms;
    syms := new SymFreq[count.Length](i => SymFreq(0, 0));
    n := 0;
    ghost var c: seq<nat> := count[..];
    for i := 0 to count.Length
      invariant n <= i && syms[..n] == UsedSyms(c[..i])
    {
      UsedSnoc(c, i);
      if count[i] > 0 {
        ghost var u := syms[..n];
        syms[n] := SymFreq(count[i], i);
        n := n + 1;
        assert syms[..n] == u + [SymFreq(c[i], i)];
      }
    }
    assert c[..count.Length] == c;
  }

  lemma SizesByRank(count: seq<nat>, r: seq<SymFreq>, sizes: Sizes, z: seq<nat>)
    requires Ranked(count, r) && Given(sizes, count, r, z) && |z| == |r|
    requires NonIncreasing(z) && forall q :: 0 <= q < |z| ==> z[q] >= 1
    ensures z == ByRank(r, sizes)
    ensures forall i :: 0 <= i < |count| ==> (sizes[i] > 0 <==> count[i] > 0)
    ensures forall i, j :: 0 <= i < |count| && 0 <= j < |count| && count[i] > count[j] > 0 ==> sizes[i] <= sizes[j]
  {
    forall i | 0 <= i < |count| && count[i] > 0
      ensures sizes[i] > 0
    {
      var p := RankedComplete(count, r, i);
    }
    forall i, j | 0 <= i < |count| && 0 <= j < |count| && count[i] > count[j] > 0
      ensures sizes[i] <= sizes[j]
    {
      var p := RankedComplete(count, r, i);
      var q := RankedComplete(count, r, j);
      assert q < p;
    }
  }

  lemma {:induction false} UsedIsSymbols(num: seq<nat>, sizes: Sizes, limit: nat, l: nat)
    requires CountsUpTo(num, sizes, limit) && limit <= l
    requires forall i :: 0 <= i < |sizes| ==> sizes[i] <= limit
    ensures Used(sizes, l) == Symbols(num, limit)
    decreases l
  {
    if l > limit {
      UsedIsSymbols(num, sizes, limit, l - 1);
      NoneOfSize(sizes, l);
    } else {
      UsedUpTo(num, sizes, limit, l);
    }
  }

  lemma {:induction false} UsedUpTo(num: seq<nat>, sizes: Sizes, limit: nat, l: nat)
    requires CountsUpTo(num, sizes, limit) && l <= limit
    ensures Used(sizes, l) == Symbols(num, l)
  {
    if l > 0 {
      UsedUpTo(num, sizes, limit, l - 1);
    }
  }

  /** If the counts are small the limit does not bind and the sizes are the builder's lengths. */
  lemma LimitFree(count: seq<nat>, r: seq<SymFreq>, l: seq<nat>, limit: nat)
    requires Ranked(count, r) && Lengths(r, l) && |r| >= 2 && Sum(count) < Fib(limit + 3)
    ensures forall q :: 0 <= q < |l| ==> l[q] <= limit
  {
    hide Sum;
    RankedSum(count, r);
    if l[0] > limit {
      FibMonotone(limit + 3, l[0] + 2);
    }
    assert forall q :: 0 <= q < |l| ==> l[0] >= l[q];
  }

  lemma TableIsCheapest(count: seq<nat>, r: seq<SymFreq>, l: seq<nat>, num0: seq<nat>, num: seq<nat>, sizes: Sizes, z: seq<nat>, limit: nat)
    requires Ranked(count, r) && Limited(r, l, num0, num, limit) && |sizes| == |count|
    requires |z| == |r| >= 2 && NonIncreasing(z) && CountsUpTo(num, z, limit) && z == ByRank(r, sizes)
    requires (forall q :: 0 <= q < |z| ==> 1 <= z[q] <= limit) && Sum(count) < Fib(limit + 3)
    ensures Cheapest(count, sizes)
  {
    LimitFree(count, r, l, limit);
    NoneAbove(l, num0, limit);
    SameCountsSameSizes(l, z, num, limit);
    OptimalIsCheapest(count, r, l, sizes);
  }

  lemma CountsCarryOver(count: seq<nat>, r: seq<SymFreq>, num: seq<nat>, sizes: Sizes, z: seq<nat>, limit: nat)
    requires Given(sizes, count, r, z) && CountsUpTo(num, z, limit)
    ensures CountsUpTo(num, sizes, limit)
  {
  }

  lemma TableIsAccepted(num: seq<nat>, sizes: Sizes, limit: nat, n: nat)
    requires CountsUpTo(num, sizes, limit) && 1 <= limit <= MAX_SIZE
    requires forall i :: 0 <= i < |sizes| ==> sizes[i] <= limit
    requires Symbols(num, limit) == n && (n >= 2 ==> Space(num, limit) == Pow2(limit))
    ensures IsTable(sizes) && (n >= 2 ==> Complete(sizes))
  {
    UsedIsSymbols(num, sizes, limit, MAX_SIZE);
    if n >= 2 {
      FullIsComplete(num, sizes, limit);
    }
  }

  /** The sizes as they stand in the table, without the order they were given out in. */
  ghost predicate Settled(count: seq<nat>, sizes: Sizes, num: seq<nat>, limit: nat) {
    && |sizes| == |count| && 1 <= limit <= MAX_SIZE && CountsUpTo(num, sizes, limit)
    && (forall i :: 0 <= i < |count| ==> sizes[i] <= limit && (sizes[i] > 0 <==> count[i] > 0))
    && (forall i, j :: 0 <= i < |count| && 0 <= j < |count| && count[i] > count[j] > 0 ==> sizes[i] <= sizes[j])
  }

  lemma GivenIsSettled(count: seq<nat>, r: seq<SymFreq>, num: seq<nat>, sizes: Sizes, z: seq<nat>, limit: nat)
    requires Ranked(count, r) && Given(sizes, count, r, z) && |z| == |r| && NonIncreasing(z)
    requires CountsUpTo(num, z, limit) && 1 <= limit <= MAX_SIZE && forall q :: 0 <= q < |z| ==> 1 <= z[q] <= limit
    ensures Settled(count, sizes, num, limit) && z == ByRank(r, sizes)
  {
    SizesByRank(count, r, sizes, z);
    SizesInRange(count, r, sizes, z, limit);
    CountsCarryOver(count, r, num, sizes, z, limit);
  }

  lemma TableIsGood(count: seq<nat>, r: seq<SymFreq>, l: seq<nat>, num0: seq<nat>, num: seq<nat>, sizes: Sizes, z: seq<nat>, limit: nat)
    requires Ranked(count, r) && Limited(r, l, num0, num, limit) && Settled(count, sizes, num, limit)
    requires |z| == |r| && NonIncreasing(z) && CountsUpTo(num, z, limit) && z == ByRank(r, sizes)
    requires forall q :: 0 <= q < |z| ==> 1 <= z[q] <= limit
    ensures GoodTable(count, sizes, limit)
  {
    hide Cheapest, CheapWithin, Limited, UsedSyms, Ranked, Sum, Fib, Extra, IsTable, Complete;
    RankedLength(count, r);
    LimitedFacts(r, l, num0, num, limit);
    TableIsAccepted(num, sizes, limit, |r|);
    if |r| >= 2 && Sum(count) < Fib(limit + 3) {
      TableIsCheapest(count, r, l, num0, num, sizes, z, limit);
    }
    if limit == 15 && 2 <= |r| <= 288 && Sum(count) < 0x1_0000 {
      TableIsCheap(count, r, l, num0, num, sizes, z);
    }
    if |r| <= 1 {
      LoneSize(count, r, l, num0, num, sizes, z, limit);
    }
  }

  lemma RankedLength(count: seq<nat>, r: seq<SymFreq>)
    requires Ranked(count, r)
    ensures |r| == |UsedSyms(count)|
  {
    assert |r| == |multiset(r)| == |UsedSyms(count)|;
  }

  lemma LimitedFacts(r: seq<SymFreq>, l: seq<nat>, num0: seq<nat>, num: seq<nat>, limit: nat)
    requires Limited(r, l, num0, num, limit)
    ensures 1 <= limit <= MAX_SIZE && |num| == MAX_SUPPORTED + 1
    ensures Symbols(num, limit) == |r| && (|r| >= 2 ==> Space(num, limit) == Pow2(limit))
  {
  }

  /** With the limit of 15 no prefix code saves more than the limiter costs. */
  lemma TableIsCheap(count: seq<nat>, r: seq<SymFreq>, l: seq<nat>, num0: seq<nat>, num: seq<nat>, sizes: Sizes, z: seq<nat>)
    requires Ranked(count, r) && Limited(r, l, num0, num, 15) && |sizes| == |count| && Sum(count) < 0x1_0000
    requires 2 <= |z| == |r| <= 288 && NonIncreasing(z) && CountsUpTo(num, z, 15) && z == ByRank(r, sizes)
    requires forall q :: 0 <= q < |z| ==> 1 <= z[q] <= 15
    ensures CheapWithin(count, sizes, Extra(|r|))
  {
    hide CheapWithin, Cost, Sum, Ranked, UsedSyms, Kraft, Pow2;
    RankedSum(count, r);
    IsBuilt(r, l);
    LimitCosts(Keys(r), l, z, num0, num);
    NearOptimalIsCheap(count, r, l, sizes, Extra(|r|));
  }

  lemma IsBuilt(r: seq<SymFreq>, l: seq<nat>)
    requires Lengths(r, l) && |r| >= 2 && Sum(Keys(r)) < 0x1_0000
    ensures Built(Keys(r), l)
  {
    hide LightBelow, Sum;
    FullAtAnyScale(l, |l|, 32);
  }

  /** A table with a single symbol gives it one bit. */
  lemma LoneSize(count: seq<nat>, r: seq<SymFreq>, l: seq<nat>, num0: seq<nat>, num: seq<nat>, sizes: Sizes, z: seq<nat>, limit: nat)
    requires Ranked(count, r) && Limited(r, l, num0, num, limit) && Settled(count, sizes, num, limit) && |r| <= 1
    requires |z| == |r| && NonIncreasing(z) && CountsUpTo(num, z, limit) && z == ByRank(r, sizes)
    requires forall q :: 0 <= q < |z| ==> 1 <= z[q] <= limit
    ensures forall i :: 0 <= i < |count| ==> sizes[i] <= 1
  {
    if |r| == 1 {
      NoneAbove(l, num0, limit);
      SameCountsSameSizes(l, z, num, limit);
    }
    forall i | 0 <= i < |count| && sizes[i] > 0
      ensures sizes[i] <= 1
    {
      var p := RankedComplete(count, r, i);
    }
  }

  lemma NoneAbove(l: seq<nat>, num: seq<nat>, limit: nat)
    requires |num| == MAX_SUPPORTED + 1 && forall v :: 0 <= v <= MAX_SUPPORTED ==> num[v] == Count(l, v)
    requires forall q :: 0 <= q < |l| ==> l[q] <= limit
    ensures forall i :: limit < i <= MAX_SUPPORTED ==> num[i] == 0
  {
    forall i | limit < i <= MAX_SUPPORTED
      ensures num[i] == 0
    {
      NoneOfSize(l, i);
    }
  }

  lemma SizesInRange(count: seq<nat>, r: seq<SymFreq>, sizes: Sizes, z: seq<nat>, limit: nat)
    requires Ranked(count, r) && Given(sizes, count, r, z) && |z| == |r|
    requires forall q :: 0 <= q < |z| ==> 1 <= z[q] <= limit
    ensures forall i :: 0 <= i < |count| ==> sizes[i] <= limit
  {
    forall i | 0 <= i < |count| && sizes[i] > 0
      ensures sizes[i] <= limit
    {
      var p := RankedComplete(count, r, i);
    }
  }

  /** Counts `num0` of the builder's lengths `l` and what the limiter made of them. */
  ghost predicate Limited(r: seq<SymFreq>, l: seq<nat>, num0: seq<nat>, num: seq<nat>, limit: nat) {
    && Lengths(r, l) && |num0| == |num| == MAX_SUPPORTED + 1 && 1 <= limit <= MAX_SIZE && Counts(num0, l)
    && Symbols(num, limit) == |r| && (|r| >= 2 ==> Space(num, limit) == Pow2(limit))
    && ((forall i :: limit < i <= MAX_SUPPORTED ==> num0[i] == 0) ==> num == num0)
    && (|r| >= 2 ==> IsRepaired(num0, num, |r|, limit))
  }

  /** Lengths of the ranked symbols, counted and limited. */
  method LimitedCounts(r: array<SymFreq>, n: nat, limit: nat, ghost count: seq<nat>)
    returns (num: array<nat>, ghost l: seq<nat>, ghost num0: seq<nat>)
    requires n <= r.Length && n < 0x1_0000 && Ranked(count, r[..n]) && Sum(count) < 0x1_0000
    requires 1 <= limit <= MAX_SIZE && n <= Pow2(limit)
    requires forall p :: 0 <= p < n ==> 1 <= r[p].key < 0x1_0000
    ensures fresh(num) && Limited(r[..n], l, num0, num[..], limit)
    ensures num.Length == MAX_SUPPORTED + 1 && Symbols(num[..], limit) == n
  {
    hide Counts, IsRepaired, Space, Symbols;
    RankedSum(count, r[..n]);
    var keys := BuildLengths(r, n);
    l := keys[..];
    num := CountLengths(keys);
    assert keys[..] == l;
    num0 := num[..];
    LengthsFillSpace(r[..n], l, num0);
    EnforceMaxCodeSize(num, n, limit);
    KeptSymbols(num0, num[..], n, limit);
  }

  /** Builds a table from counts (the dynamic case): sizes and codes of every symbol. */
  method OptimizeHuffmanTable(count: array<u16>, sizes: array<nat>, codes: array<nat>, limit: nat)
    requires count.Length == sizes.Length == codes.Length < 0x1_0000 && sizes != codes
    requires 1 <= limit <= MAX_SIZE && Sum(count[..]) < 0x1_0000 && |UsedSyms(count[..])| <= Pow2(limit)
    modifies sizes, codes
    ensures GoodTable(count[..], sizes[..], limit)
    ensures CodesOk(codes[..], sizes[..], sizes.Length)
  {
    var num := OptimizeSizes(count, sizes, limit);
    Clear(codes);
    TableFits(sizes[..]);
    assert sizes[..sizes.Length] == sizes[..];
    AssignCodes(num, sizes, codes, sizes.Length, limit);
  }

  method FinishSizes(r: array<SymFreq>, n: nat, num: array<nat>, sizes: array<nat>, limit: nat,
                     ghost count: seq<nat>, ghost l: seq<nat>, ghost num0: seq<nat>)
    requires n <= r.Length && Ranked(count, r[..n]) && Limited(r[..n], l, num0, num[..], limit)
    requires sizes.Length == |count| && num != sizes
    modifies sizes
    ensures GoodTable(count, sizes[..], limit) && CountsUpTo(num[..], sizes[..], limit)
  {
    Clear(sizes);
    assert forall p :: 0 <= p < n ==> r[p] == r[..n][p];
    ghost var z := GiveSizes(r, n, num, sizes, limit, count);
    GivenIsSettled(count, r[..n], num[..], sizes[..], z, limit);
    TableIsGood(count, r[..n], l, num0, num[..], sizes[..], z, limit);
  }

  method OptimizeSizes(count: array<u16>, sizes: array<nat>, limit: nat) returns (num: array<nat>)
    requires count.Length == sizes.Length < 0x1_0000
    requires 1 <= limit <= MAX_SIZE && Sum(count[..]) < 0x1_0000 && |UsedSyms(count[..])| <= Pow2(limit)
    modifies sizes
    ensures GoodTable(count[..], sizes[..], limit)
    ensures fresh(num) && num.Length > limit && CountsUpTo(num[..], sizes[..], limit)
  {
    hide *;
    ghost var c: seq<nat> := count[..];
    var r, n := RankUsed(count, c);
    ghost var l, num0, u := [], [], r[..n];
    num, l, num0 := LimitedCounts(r, n, limit, c);
    assert r[..n] == u;
    FinishSizes(r, n, num, sizes, limit, c, l, num0);
    assert count[..] == c;
  }

  /** The used symbols, rarest first. */
  method RankUsed(count: array<u16>, ghost c: seq<nat>) returns (r: array<SymFreq>, n: nat)
    requires c == count[..] && count.Length < 0x1_0000
    ensures fresh(r) && n <= r.Length && n <= count.Length && Ranked(c, r[..n]) && n == |UsedSyms(c)|
    ensures forall p :: 0 <= p < n ==> 1 <= r[p].key < 0x1_0000
  {
    var syms0;
    syms0, n := CollectUsed(count);
    assert forall i :: 0 <= i < |c| ==> c[i] == count[i] < 0x1_0000;
    r := SortUsed(c, syms0, n);
  }

  method SortUsed(ghost count: seq<nat>, syms0: array<SymFreq>, n: nat) returns (r: array<SymFreq>)
    requires n <= syms0.Length && syms0[..n] == UsedSyms(count) && forall i :: 0 <= i < |count| ==> count[i] < 0x1_0000
    modifies syms0
    ensures r == syms0 || fresh(r)
    ensures n <= r.Length && Ranked(count, r[..n]) && n == |UsedSyms(count)|
    ensures forall p :: 0 <= p < n ==> 1 <= r[p].key < 0x1_0000
  {
    var syms1 := new SymFreq[n](i => SymFreq(0, 0));
    r := RadixSortSyms(n, syms0, syms1);
    SortedIsRanked(count, r[..n]);
    forall p | 0 <= p < n
      ensures 1 <= r[p].key < 0x1_0000
    {
      assert r[p] == r[..n][p];
    }
  }

  method Clear(a: array<nat>)
    modifies a
    ensures forall i :: 0 <= i < a.Length ==> a[i] == 0
  {
    for i := 0 to a.Length
      invariant forall j :: 0 <= j < i ==> a[j] == 0
    {
      a[i] := 0;
    }
  }

  /** A single code is within every limit, so limiting keeps the number of symbols in all cases. */
  lemma KeptSymbols(num0: seq<nat>, num: seq<nat>, n: nat, limit: nat)
    requires |num0| == |num| == MAX_SUPPORTED + 1 && 1 <= limit <= MAX_SUPPORTED
    requires n > 1 ==> Symbols(num, limit) == n
    requires n <= 1 ==> num == num0 && Symbols(num0, MAX_SUPPORTED) == n && num0[1] == n
    ensures Symbols(num, limit) == n
  {
    if n <= 1 {
      SymbolsMonotone(num, 1, limit);
      SymbolsMonotone(num, limit, MAX_SUPPORTED);
      assert Symbols(num, 1) == Symbols(num, 0) + num[1];
    }
  }
}
