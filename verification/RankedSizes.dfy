/** Code sizes in rank order, rarest symbol first: they do not increase, and their counts say all about them. */
module RankedSizes {
  import opened Bits
  import opened Canonical
  import opened Sums
  import opened MinimumRedundancy
  import opened LengthLimit
  import opened CodeAssignment

  predicate NonIncreasing(l: seq<nat>) {
    forall i, j :: 0 <= i <= j < |l| ==> l[i] >= l[j]
  }

  lemma {:induction false} CountPrepend(v: nat, z: seq<nat>, l: nat)
    ensures Count([v] + z, l) == Count(z, l) + (if v == l then 1 else 0)
  {
    if z == [] {
      assert [v] + z == [v] && [v][..0] == [];
      assert Count([v], l) == Count([], l) + (if v == l then 1 else 0);
    } else {
      var n := |z| - 1;
      assert ([v] + z)[..|[v] + z| - 1] == [v] + z[..n];
      CountPrepend(v, z[..n], l);
    }
  }

  lemma {:induction false} CountUpdate(s: Sizes, i: nat, v: nat, l: nat)
    requires i < |s|
    ensures Count(s[i := v], l) == Count(s, l) - (if s[i] == l then 1 else 0) + (if v == l then 1 else 0)
  {
    var n := |s| - 1;
    if i == n {
      assert s[i := v][..n] == s[..n];
    } else {
      assert s[i := v][..n] == s[..n][i := v];
      CountUpdate(s[..n], i, v, l);
    }
  }

  /** In a non-increasing sequence the entries of at most `i` are the last `Symbols(num, i)` ones. */
  lemma {:induction false} SuffixAtMost(l: seq<nat>, num: seq<nat>, i: nat, p: nat)
    requires NonIncreasing(l) && (forall q :: 0 <= q < |l| ==> l[q] >= 1)
    requires i < |num| && (forall v :: 1 <= v <= i ==> num[v] == Count(l, v)) && p < |l|
    ensures l[p] <= i <==> p >= |l| - Symbols(num, i)
  {
    SymbolsAtMost(l, num, i);
    AtMostSuffix(l, i, p);
  }

  function CountAtMost(l: seq<nat>, i: nat): (c: nat)
    ensures c <= |l|
  {
    if l == [] then 0 else CountAtMost(l[..|l| - 1], i) + (if 1 <= l[|l| - 1] <= i then 1 else 0)
  }

  lemma {:induction false} AtMostSuffix(l: seq<nat>, i: nat, p: nat)
    requires NonIncreasing(l) && (forall q :: 0 <= q < |l| ==> l[q] >= 1) && p < |l|
    ensures l[p] <= i <==> p >= |l| - CountAtMost(l, i)
  {
    var n := |l| - 1;
    if n > 0 {
      AtMostSuffix(l[..n], i, if p < n then p else n - 1);
      if p == n {
        assert l[n - 1] >= l[n];
        if l[n] > i {
          AtMostSuffix(l[..n], i, n - 1);
        }
      }
    } else {
      assert l[..0] == [];
    }
  }

  lemma {:induction false} CountAtMostStep(l: seq<nat>, i: nat)
    requires i > 0
    ensures CountAtMost(l, i) == CountAtMost(l, i - 1) + Count(l, i)
  {
    if l != [] {
      CountAtMostStep(l[..|l| - 1], i);
    }
  }

  lemma {:induction false} CountAtMostZero(l: seq<nat>)
    ensures CountAtMost(l, 0) == 0
  {
    if l != [] {
      CountAtMostZero(l[..|l| - 1]);
    }
  }

  lemma {:induction false} SymbolsAtMost(l: seq<nat>, num: seq<nat>, i: nat)
    requires i < |num| && forall v :: 1 <= v <= i ==> num[v] == Count(l, v)
    ensures Symbols(num, i) == CountAtMost(l, i)
    decreases i
  {
    if i == 0 {
      CountAtMostZero(l);
    } else {
      SymbolsAtMost(l, num, i - 1);
      CountAtMostStep(l, i);
    }
  }

  /** Non-increasing sequences with the same counts are the same. */
  lemma SameCountsSameSizes(l: seq<nat>, z: seq<nat>, num: seq<nat>, limit: nat)
    requires NonIncreasing(l) && NonIncreasing(z) && |l| == |z| && limit < |num|
    requires forall q :: 0 <= q < |l| ==> 1 <= l[q] <= limit && 1 <= z[q] <= limit
    requires CountsUpTo(num, l, limit) && CountsUpTo(num, z, limit)
    ensures l == z
  {
    forall p | 0 <= p < |l|
      ensures l[p] == z[p]
    {
      SuffixAtMost(l, num, l[p], p);
      SuffixAtMost(z, num, l[p], p);
      SuffixAtMost(l, num, z[p], p);
      SuffixAtMost(z, num, z[p], p);
    }
  }

  lemma {:induction false} SymbolsMonotone(num: seq<nat>, i: nat, m: nat)
    requires i <= m < |num|
    ensures Symbols(num, i) <= Symbols(num, m)
    decreases m
  {
    if i < m {
      SymbolsMonotone(num, i, m - 1);
    }
  }

  lemma {:induction false} CountPositive(z: seq<nat>, q: nat)
    requires q < |z|
    ensures Count(z, z[q]) > 0
  {
    if q < |z| - 1 {
      CountPositive(z[..|z| - 1], q);
    }
  }

  /** Counting the lengths of a code turns Kraft's sum into the space used at the longest length. */
  lemma {:induction false} SpaceIsKraft(l: seq<nat>, num: seq<nat>, m: nat)
    requires |num| > m && (forall q :: 0 <= q < |l| ==> 1 <= l[q] <= m)
    requires forall v :: 1 <= v <= m ==> num[v] == Count(l, v)
    ensures AtMost(l, m) && Space(num, m) == Kraft(l, m) && Symbols(num, m) == |l|
  {
    if l == [] {
      NoneShorter(num, m);
    } else {
      var n := |l| - 1;
      var x := l[n];
      var y: nat := num[x] - 1;
      var num' := num[x := y];
      SpaceIsKraft(l[..n], num', m);
      assert num'[x := num'[x] + 1] == num;
      SpaceAdd(num', x, 1, m);
      assert l == l[..n] + [x];
      KraftAppend(l[..n], [x], m);
      KraftOne(x, m);
    }
  }

  lemma FullAtAnyScale(l: seq<nat>, a: nat, b: nat)
    requires AtMost(l, a) && AtMost(l, b) && Kraft(l, a) == Pow2(a)
    ensures Kraft(l, b) == Pow2(b)
  {
    if a <= b {
      KraftLowerScale(l, b, a);
    } else {
      KraftLowerScale(l, a, b);
    }
  }
}
