/** The used symbols of a table in the order of their counts, and what sorting them preserves. */
module RankedSymbols {
  import opened RadixSort

  // ----- the used symbols

  /** The symbols with a positive count, in symbol order. */
  function UsedSyms(count: seq<nat>): (u: seq<SymFreq>)
    ensures |u| <= |count|
    ensures forall j :: 0 <= j < |u| ==> u[j].sym < |count| && u[j].key == count[u[j].sym] > 0
    ensures forall j, k :: 0 <= j < k < |u| ==> u[j].sym < u[k].sym
  {
    if count == [] then []
    else
      var n := |count| - 1;
      UsedSyms(count[..n]) + (if count[n] > 0 then [SymFreq(count[n], n)] else [])
  }

  lemma {:induction false} UsedSymsComplete(count: seq<nat>, i: nat)
    requires i < |count| && count[i] > 0
    ensures SymFreq(count[i], i) in UsedSyms(count)
  {
    var n := |count| - 1;
    if i < n {
      UsedSymsComplete(count[..n], i);
    }
  }

  // ----- what sorting keeps

  lemma {:induction false} WithKeyMultiplicity(s: seq<SymFreq>, x: SymFreq)
    ensures multiset(WithKey(s, x.key))[x] == multiset(s)[x]
  {
    if s != [] {
      var n := |s| - 1;
      WithKeyMultiplicity(s[..n], x);
      assert s == s[..n] + [s[n]];
    }
  }

  lemma SortIsPermutation(s: seq<SymFreq>, r: seq<SymFreq>)
    requires StablySorted(s, r)
    ensures multiset(r) == multiset(s)
  {
    forall x: SymFreq
      ensures multiset(r)[x] == multiset(s)[x]
    {
      WithKeyMultiplicity(s, x);
      WithKeyMultiplicity(r, x);
    }
  }

  lemma Twice(s: seq<SymFreq>, a: nat, b: nat)
    requires a < b < |s| && s[a] == s[b]
    ensures multiset(s)[s[a]] >= 2
  {
    assert s == s[..b] + ([s[b]] + s[b + 1..]);
    assert s[a] in s[..b];
  }

  lemma {:induction false} Once(u: seq<SymFreq>, x: SymFreq)
    requires forall j, k :: 0 <= j < k < |u| ==> u[j].sym < u[k].sym
    ensures multiset(u)[x] <= 1
  {
    if u != [] {
      var n := |u| - 1;
      Once(u[..n], x);
      assert u == u[..n] + [u[n]];
      if x == u[n] {
        assert x !in u[..n];
      }
    }
  }

  /** The sorted used symbols: each used symbol once, with its count. */
  ghost predicate Ranked(count: seq<nat>, r: seq<SymFreq>) {
    && multiset(r) == multiset(UsedSyms(count)) && SortedByKey(r)
    && (forall j :: 0 <= j < |r| ==> r[j].sym < |count| && r[j].key == count[r[j].sym] > 0)
    && (forall j, k :: 0 <= j < k < |r| ==> r[j].sym != r[k].sym)
  }

  lemma SortedIsRanked(count: seq<nat>, r: seq<SymFreq>)
    requires StablySorted(UsedSyms(count), r)
    ensures Ranked(count, r)
  {
    var u := UsedSyms(count);
    SortIsPermutation(u, r);
    forall j | 0 <= j < |r|
      ensures r[j] in u
    {
      assert r[j] in multiset(r);
    }
    forall j, k | 0 <= j < k < |r|
      ensures r[j].sym != r[k].sym
    {
      if r[j].sym == r[k].sym {
        assert r[j] == r[k];
        Twice(r, j, k);
        Once(u, r[j]);
      }
    }
  }

  lemma RankedComplete(count: seq<nat>, r: seq<SymFreq>, i: nat) returns (j: nat)
    requires Ranked(count, r) && i < |count| && count[i] > 0
    ensures j < |r| && r[j].sym == i
  {
    UsedSymsComplete(count, i);
    assert SymFreq(count[i], i) in multiset(r);
    j :| 0 <= j < |r| && r[j] == SymFreq(count[i], i);
  }

  // ----- sums over permuted symbols

  function SumBy(s: seq<SymFreq>, f: SymFreq -> nat): nat {
    if s == [] then 0 else SumBy(s[..|s| - 1], f) + f(s[|s| - 1])
  }

  lemma {:induction false} SumByAppend(s: seq<SymFreq>, t: seq<SymFreq>, f: SymFreq -> nat)
    ensures SumBy(s + t, f) == SumBy(s, f) + SumBy(t, f)
  {
    if t == [] {
      assert s + t == s;
    } else {
      assert (s + t)[..|s + t| - 1] == s + t[..|t| - 1];
      SumByAppend(s, t[..|t| - 1], f);
    }
  }

  lemma {:induction false} SumByPermutation(s: seq<SymFreq>, r: seq<SymFreq>, f: SymFreq -> nat)
    requires multiset(s) == multiset(r)
    ensures SumBy(s, f) == SumBy(r, f)
    decreases |s|
  {
    assert |s| == |multiset(s)| == |multiset(r)| == |r|;
    if s != [] {
      var n := |s| - 1;
      var x := s[n];
      assert s == s[..n] + [x];
      assert x in multiset(r);
      var p :| 0 <= p < |r| && r[p] == x;
      assert r == r[..p] + ([x] + r[p + 1..]);
      var rest := r[..p] + r[p + 1..];
      assert multiset(rest) == multiset(r) - multiset{x};
      SumByPermutation(s[..n], rest, f);
      SumByAppend(r[..p], [x] + r[p + 1..], f);
      SumByAppend([x], r[p + 1..], f);
      SumByAppend(r[..p], r[p + 1..], f);
      assert SumBy([x], f) == SumBy([], f) + f(x) by { assert [x][..0] == []; }
    }
  }
}
