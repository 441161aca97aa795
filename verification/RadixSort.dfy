/** The two-pass radix sort of the used symbols by their 16-bit count. It is stable, and the pass
    over the high byte is skipped when every high byte is zero. */
module RadixSort {

  datatype SymFreq = SymFreq(key: nat, sym: nat)

  predicate Keys16(s: seq<SymFreq>) {
    forall i :: 0 <= i < |s| ==> s[i].key < 0x1_0000
  }

  function Digit(key: nat, pass: nat): (d: nat)
    requires key < 0x1_0000
    ensures d < 256
  {
    if pass == 0 then key % 256 else key / 256
  }

  /** The elements whose digit is `d`, in order. */
  function Bucket(s: seq<SymFreq>, pass: nat, d: nat): (b: seq<SymFreq>)
    requires Keys16(s)
    ensures |b| <= |s| && Keys16(b)
    ensures forall i :: 0 <= i < |b| ==> Digit(b[i].key, pass) == d
  {
    if s == [] then []
    else
      var b := Bucket(s[..|s| - 1], pass, d);
      if Digit(s[|s| - 1].key, pass) == d then b + [s[|s| - 1]] else b
  }

  /** The buckets of all digits below `d`, one after the other: what a pass makes of `s`. */
  function Buckets(s: seq<SymFreq>, pass: nat, d: nat): (r: seq<SymFreq>)
    requires Keys16(s)
    ensures Keys16(r)
  {
    if d == 0 then [] else Buckets(s, pass, d - 1) + Bucket(s, pass, d - 1)
  }

  /** The elements with key `k`, in order: stability and permutation in one notion. */
  function WithKey(s: seq<SymFreq>, k: nat): seq<SymFreq> {
    if s == [] then []
    else if s[|s| - 1].key == k then WithKey(s[..|s| - 1], k) + [s[|s| - 1]]
    else WithKey(s[..|s| - 1], k)
  }

  predicate SortedByKey(s: seq<SymFreq>) {
    forall i, j :: 0 <= i <= j < |s| ==> s[i].key <= s[j].key
  }

  /** `r` is `s` stably sorted; this determines `r`. */
  ghost predicate StablySorted(s: seq<SymFreq>, r: seq<SymFreq>) {
    SortedByKey(r) && |r| == |s| && forall k :: WithKey(r, k) == WithKey(s, k)
  }

  // ----- passes

  lemma {:induction false} WithKeyAppend(a: seq<SymFreq>, b: seq<SymFreq>, k: nat)
    ensures WithKey(a + b, k) == WithKey(a, k) + WithKey(b, k)
  {
    if b == [] {
      assert a + b == a;
    } else {
      assert (a + b)[..|a + b| - 1] == a + b[..|b| - 1];
      WithKeyAppend(a, b[..|b| - 1], k);
    }
  }

  lemma {:induction false} WithKeyOfBucket(s: seq<SymFreq>, pass: nat, d: nat, k: nat)
    requires Keys16(s) && k < 0x1_0000
    ensures WithKey(Bucket(s, pass, d), k) == if Digit(k, pass) == d then WithKey(s, k) else []
  {
    if s != [] {
      var t := s[..|s| - 1];
      WithKeyOfBucket(t, pass, d, k);
      if Digit(s[|s| - 1].key, pass) == d {
        assert Bucket(s, pass, d)[..|Bucket(s, pass, d)| - 1] == Bucket(t, pass, d);
      }
    }
  }

  lemma {:induction false} WithKeyOfBuckets(s: seq<SymFreq>, pass: nat, d: nat, k: nat)
    requires Keys16(s) && k < 0x1_0000
    ensures WithKey(Buckets(s, pass, d), k) == if Digit(k, pass) < d then WithKey(s, k) else []
  {
    hide Keys16;
    if d > 0 {
      WithKeyOfBuckets(s, pass, d - 1, k);
      JoinWithKey(Buckets(s, pass, d - 1), Bucket(s, pass, d - 1), k);
      WithKeyOfBucket(s, pass, d - 1, k);
    }
  }

  lemma JoinWithKey(a: seq<SymFreq>, b: seq<SymFreq>, k: nat)
    ensures WithKey(a, k) == [] ==> WithKey(a + b, k) == WithKey(b, k)
    ensures WithKey(b, k) == [] ==> WithKey(a + b, k) == WithKey(a, k)
  {
    WithKeyAppend(a, b, k);
  }

  lemma {:induction false} WithKeyTooBig(s: seq<SymFreq>, k: nat)
    requires Keys16(s) && k >= 0x1_0000
    ensures WithKey(s, k) == []
  {
    if s != [] {
      WithKeyTooBig(s[..|s| - 1], k);
    }
  }

  /** Every pass keeps, for each key, the elements with that key and their order. */
  lemma PassKeeps(s: seq<SymFreq>, pass: nat)
    requires Keys16(s)
    ensures forall k :: WithKey(Buckets(s, pass, 256), k) == WithKey(s, k)
  {
    forall k: nat
      ensures WithKey(Buckets(s, pass, 256), k) == WithKey(s, k)
    {
      if k < 0x1_0000 {
        WithKeyOfBuckets(s, pass, 256, k);
      } else {
        WithKeyTooBig(s, k);
        WithKeyTooBig(Buckets(s, pass, 256), k);
      }
    }
  }

  // ----- order

  predicate SortedByLow(s: seq<SymFreq>)
    requires Keys16(s)
  {
    forall i, j :: 0 <= i <= j < |s| ==> Digit(s[i].key, 0) <= Digit(s[j].key, 0)
  }

  predicate SortedByDigit(s: seq<SymFreq>, pass: nat, d: nat)
    requires Keys16(s)
  {
    && (forall i :: 0 <= i < |s| ==> Digit(s[i].key, pass) < d)
    && forall i, j :: 0 <= i <= j < |s| ==> Digit(s[i].key, pass) <= Digit(s[j].key, pass)
  }

  lemma {:induction false} BucketsSorted(s: seq<SymFreq>, pass: nat, d: nat)
    requires Keys16(s)
    ensures SortedByDigit(Buckets(s, pass, d), pass, d)
  {
    if d > 0 {
      BucketsSorted(s, pass, d - 1);
    }
  }

  lemma {:induction false} BucketKeepsOrder(s: seq<SymFreq>, d: nat)
    requires Keys16(s) && SortedByLow(s)
    ensures SortedByLow(Bucket(s, 1, d))
    ensures Bucket(s, 1, d) != [] ==> s != [] && Digit(Bucket(s, 1, d)[|Bucket(s, 1, d)| - 1].key, 0) <= Digit(s[|s| - 1].key, 0)
  {
    if s != [] {
      BucketKeepsOrder(s[..|s| - 1], d);
    }
  }

  /** Sorting by the high byte what is sorted by the low byte sorts by the key. */
  lemma {:induction false} HighAfterLow(s: seq<SymFreq>, d: nat)
    requires Keys16(s) && SortedByLow(s)
    ensures SortedByKey(Buckets(s, 1, d))
  {
    if d > 0 {
      HighAfterLow(s, d - 1);
      BucketsSorted(s, 1, d - 1);
      BucketKeepsOrder(s, d - 1);
      var a, b := Buckets(s, 1, d - 1), Bucket(s, 1, d - 1);
      var c := a + b;
      forall i, j | 0 <= i <= j < |c|
        ensures c[i].key <= c[j].key
      {
        if i < |a| <= j {
          assert Digit(a[i].key, 1) < Digit(b[j - |a|].key, 1);
        } else if |a| <= i {
          assert Digit(b[i - |a|].key, 0) <= Digit(b[j - |a|].key, 0);
          assert Digit(b[i - |a|].key, 1) == Digit(b[j - |a|].key, 1);
        }
      }
    }
  }

  // ----- counting

  function CountDigit(s: seq<SymFreq>, pass: nat, d: nat): nat
    requires Keys16(s)
  {
    |Bucket(s, pass, d)|
  }

  lemma {:induction false} BucketAppend(a: seq<SymFreq>, b: seq<SymFreq>, pass: nat, d: nat)
    requires Keys16(a) && Keys16(b)
    ensures Bucket(a + b, pass, d) == Bucket(a, pass, d) + Bucket(b, pass, d)
  {
    if b == [] {
      assert a + b == a;
    } else {
      assert (a + b)[..|a + b| - 1] == a + b[..|b| - 1];
      BucketAppend(a, b[..|b| - 1], pass, d);
    }
  }

  lemma {:induction false} BucketsSnoc(s: seq<SymFreq>, pass: nat, d: nat, q: nat, e: nat)
    requires Keys16(s) && s != []
    ensures CountDigit(Buckets(s, pass, d), q, e) == CountDigit(Buckets(s[..|s| - 1], pass, d), q, e)
      + (if Digit(s[|s| - 1].key, pass) < d && Digit(s[|s| - 1].key, q) == e then 1 else 0)
  {
    if d > 0 {
      var x, t := s[|s| - 1], s[..|s| - 1];
      BucketsSnoc(s, pass, d - 1, q, e);
      BucketAppend(Buckets(s, pass, d - 1), Bucket(s, pass, d - 1), q, e);
      BucketAppend(Buckets(t, pass, d - 1), Bucket(t, pass, d - 1), q, e);
      if Digit(x.key, pass) == d - 1 {
        BucketAppend(Bucket(t, pass, d - 1), [x], q, e);
        assert [x][..0] == [];
      }
    }
  }

  /** A pass does not change how often a digit occurs, so one histogram serves both passes. */
  lemma {:induction false} PassKeepsCounts(s: seq<SymFreq>, pass: nat, q: nat, e: nat)
    requires Keys16(s)
    ensures CountDigit(Buckets(s, pass, 256), q, e) == CountDigit(s, q, e)
  {
    if s == [] {
      EmptyBuckets(pass, 256);
    } else {
      PassKeepsCounts(s[..|s| - 1], pass, q, e);
      BucketsSnoc(s, pass, 256, q, e);
    }
  }

  lemma {:induction false} EmptyBuckets(pass: nat, d: nat)
    ensures Buckets([], pass, d) == []
  {
    if d > 0 {
      EmptyBuckets(pass, d - 1);
    }
  }

  lemma {:induction false} BucketsLength(s: seq<SymFreq>, pass: nat)
    requires Keys16(s)
    ensures |Buckets(s, pass, 256)| == |s|
  {
    if s == [] {
      EmptyBuckets(pass, 256);
    } else {
      BucketsLength(s[..|s| - 1], pass);
      BucketsGrow(s, pass, 256);
    }
  }

  lemma {:induction false} BucketsGrow(s: seq<SymFreq>, pass: nat, d: nat)
    requires Keys16(s) && s != []
    ensures |Buckets(s, pass, d)| == |Buckets(s[..|s| - 1], pass, d)| + (if Digit(s[|s| - 1].key, pass) < d then 1 else 0)
  {
    if d > 0 {
      BucketsGrow(s, pass, d - 1);
    }
  }

  // ----- the sort itself

  lemma {:induction false} BucketOfPrefix(s: seq<SymFreq>, i: nat, pass: nat, d: nat)
    requires Keys16(s) && i <= |s|
    ensures Bucket(s[..i], pass, d) <= Bucket(s, pass, d)
    ensures i < |s| && Digit(s[i].key, pass) == d ==> |Bucket(s[..i], pass, d)| < |Bucket(s, pass, d)|
    ensures i < |s| ==>
      Bucket(s[..i + 1], pass, d) == Bucket(s[..i], pass, d) + (if Digit(s[i].key, pass) == d then [s[i]] else [])
    decreases |s| - i
  {
    if i < |s| {
      BucketOfPrefix(s, i + 1, pass, d);
      assert s[..i + 1][..i] == s[..i];
    } else {
      assert s[..i] == s;
    }
  }

  lemma {:induction false} BucketsOrdered(s: seq<SymFreq>, pass: nat, d: nat, e: nat)
    requires Keys16(s) && d < e
    ensures |Buckets(s, pass, d)| + |Bucket(s, pass, d)| <= |Buckets(s, pass, e)|
    decreases e
  {
    if d < e - 1 {
      BucketsOrdered(s, pass, d, e - 1);
    }
  }

  /** After `i` elements the array holds the start of every bucket in its place. */
  ghost predicate Placed(a: seq<SymFreq>, s: seq<SymFreq>, i: nat, pass: nat)
    requires Keys16(s) && i <= |s| <= |a|
  {
    forall d :: 0 <= d < 256 ==> PlacedAt(a, s, i, pass, d)
  }

  ghost predicate PlacedAt(a: seq<SymFreq>, s: seq<SymFreq>, i: nat, pass: nat, d: nat)
    requires Keys16(s) && i <= |s| <= |a|
  {
    var start, b := |Buckets(s, pass, d)|, Bucket(s[..i], pass, d);
    start + |b| <= |a| && a[start..start + |b|] == b
  }

  lemma PlaceOne(a: seq<SymFreq>, s: seq<SymFreq>, i: nat, pass: nat, o: nat)
    requires Keys16(s) && i < |s| <= |a| && Placed(a, s, i, pass)
    requires var d := Digit(s[i].key, pass); o == |Buckets(s, pass, d)| + |Bucket(s[..i], pass, d)|
    ensures o < |s| && Placed(a[o := s[i]], s, i + 1, pass)
  {
    var d := Digit(s[i].key, pass);
    BucketOfPrefix(s, i, pass, d);
    BucketsOrdered(s, pass, d, 256);
    BucketsLength(s, pass);
    var a', i' := a[o := s[i]], i + 1;
    forall e: nat | e < 256
      ensures PlacedAt(a', s, i', pass, e)
    {
      PlaceElsewhere(a, s, i, pass, o, e);
    }
  }

  lemma PlaceElsewhere(a: seq<SymFreq>, s: seq<SymFreq>, i: nat, pass: nat, o: nat, e: nat)
    requires Keys16(s) && i < |s| <= |a| && PlacedAt(a, s, i, pass, e) && o < |s| && e < 256
    requires var d := Digit(s[i].key, pass); o == |Buckets(s, pass, d)| + |Bucket(s[..i], pass, d)|
    ensures PlacedAt(a[o := s[i]], s, i + 1, pass, e)
  {
    hide Bucket;
    var d := Digit(s[i].key, pass);
    BucketOfPrefix(s, i, pass, d);
    BucketOfPrefix(s, i, pass, e);
    var start, b := |Buckets(s, pass, e)|, Bucket(s[..i], pass, e);
    if d < e {
      BucketsOrdered(s, pass, d, e);
    } else if e < d {
      BucketsOrdered(s, pass, e, d);
    } else {
      assert a[o := s[i]][start..start + |b| + 1] == b + [s[i]];
    }
  }

  lemma NothingPlaced(a: seq<SymFreq>, s: seq<SymFreq>, pass: nat)
    requires Keys16(s) && |s| <= |a|
    ensures Placed(a, s, 0, pass)
  {
    BucketsLength(s, pass);
    forall d: nat | d < 256
      ensures PlacedAt(a, s, 0, pass, d)
    {
      BucketsOrdered(s, pass, d, 256);
    }
  }

  lemma {:induction false} AllPlaced(a: seq<SymFreq>, s: seq<SymFreq>, pass: nat, d: nat)
    requires Keys16(s) && |s| <= |a| && Placed(a, s, |s|, pass) && d <= 256
    ensures |Buckets(s, pass, d)| <= |a| && a[..|Buckets(s, pass, d)|] == Buckets(s, pass, d)
  {
    if d > 0 {
      AllPlaced(a, s, pass, d - 1);
      assert PlacedAt(a, s, |s|, pass, d - 1);
      assert s[..|s|] == s;
    }
  }

  predicate IsHistogram(hist: seq<nat>, s: seq<SymFreq>, pass: nat)
    requires Keys16(s)
  {
    |hist| == 512 && pass < 2 && forall d :: 0 <= d < 256 ==> HistogramAt(hist, s, pass, d)
  }

  predicate HistogramAt(hist: seq<nat>, s: seq<SymFreq>, pass: nat, d: nat)
    requires Keys16(s) && |hist| == 512 && pass < 2 && d < 256
  {
    hist[256 * pass + d] == CountDigit(s, pass, d)
  }

  method Offsets(hist: array<nat>, offsets: array<nat>, pass: nat, ghost s: seq<SymFreq>)
    requires Keys16(s) && IsHistogram(hist[..], s, pass) && offsets.Length == 256 && offsets != hist
    modifies offsets
    ensures forall d :: 0 <= d < 256 ==> offsets[d] == |Buckets(s, pass, d)|
  {
    var curOfs := 0;
    for i := 0 to 256
      invariant hist[..] == old(hist[..])
      invariant curOfs == |Buckets(s, pass, i)|
      invariant forall d :: 0 <= d < i ==> offsets[d] == |Buckets(s, pass, d)|
    {
      offsets[i] := curOfs;
      assert HistogramAt(hist[..], s, pass, i);
      curOfs := curOfs + hist[256 * pass + i];
    }
  }

  /** One counting pass: moves every element of `cur` to its place in `next`. */
  method Pass(cur: array<SymFreq>, next: array<SymFreq>, n: nat, hist: array<nat>, pass: nat)
    requires n <= cur.Length && n <= next.Length && cur != next && Keys16(cur[..n])
    requires IsHistogram(hist[..], cur[..n], pass)
    modifies next
    ensures next[..n] == Buckets(old(cur[..n]), pass, 256)
  {
    ghost var s := cur[..n];
    var offsets := new nat[256];
    Offsets(hist, offsets, pass, s);
    NothingPlaced(next[..], s, pass);
    for i := 0 to n
      invariant cur[..n] == s && Placed(next[..], s, i, pass)
      invariant forall d :: 0 <= d < 256 ==> offsets[d] == |Buckets(s, pass, d)| + |Bucket(s[..i], pass, d)|
    {
      assert s[i] == cur[i];
      var d := Digit(cur[i].key, pass);
      ghost var a := next[..];
      PlaceOne(a, s, i, pass, offsets[d]);
      next[offsets[d]] := cur[i];
      offsets[d] := offsets[d] + 1;
      assert next[..] == a[offsets[d] - 1 := s[i]];
      forall e | 0 <= e < 256
        ensures offsets[e] == |Buckets(s, pass, e)| + |Bucket(s[..i + 1], pass, e)|
      {
        BucketOfPrefix(s, i, pass, e);
      }
    }
    AllPlaced(next[..], s, pass, 256);
    BucketsLength(s, pass);
    assert next[..][..n] == next[..n];
  }

  lemma HistogramStep(h: seq<nat>, h': seq<nat>, s: seq<SymFreq>, i: nat, pass: nat)
    requires Keys16(s) && i < |s| && IsHistogram(h, s[..i], pass) && |h'| == 512
    requires var o := 256 * pass + Digit(s[i].key, pass);
      h'[o] == h[o] + 1 && forall k :: 256 * pass <= k < 256 * pass + 256 && k != o ==> h'[k] == h[k]
    ensures IsHistogram(h', s[..i + 1], pass)
  {
    var t := s[..i + 1];
    forall d: nat | d < 256
      ensures HistogramAt(h', t, pass, d)
    {
      BucketOfPrefix(s, i, pass, d);
      assert HistogramAt(h, s[..i], pass, d);
    }
  }

  method Histogram(syms: array<SymFreq>, n: nat) returns (hist: array<nat>)
    requires n <= syms.Length && Keys16(syms[..n])
    ensures fresh(hist) && IsHistogram(hist[..], syms[..n], 0) && IsHistogram(hist[..], syms[..n], 1)
  {
    hist := new nat[512](i => 0);
    ghost var s := syms[..n];
    for i := 0 to n
      invariant IsHistogram(hist[..], s[..i], 0) && IsHistogram(hist[..], s[..i], 1)
    {
      assert s[i] == syms[i];
      var freq := syms[i].key;
      var lo, hi := Digit(freq, 0), 256 + Digit(freq, 1);
      ghost var h: seq<nat> := hist[..];
      hist[lo] := hist[lo] + 1;
      hist[hi] := hist[hi] + 1;
      HistogramStep(h, hist[..], s, i, 0);
      HistogramStep(h, hist[..], s, i, 1);
    }
    assert s[..n] == s;
  }

  lemma {:induction false} AllInBucketZero(s: seq<SymFreq>, i: nat)
    requires Keys16(s) && i < |s| && CountDigit(s, 1, 0) == |s|
    ensures s[i].key < 256
    decreases |s|
  {
    if i < |s| - 1 {
      AllInBucketZero(s[..|s| - 1], i);
    }
  }

  /** Sorts by count. The result stands in one of the two arrays, which are both overwritten. */
  method RadixSortSyms(n: nat, syms0: array<SymFreq>, syms1: array<SymFreq>) returns (sorted: array<SymFreq>)
    requires n <= syms0.Length && n <= syms1.Length && syms0 != syms1 && Keys16(syms0[..n])
    modifies syms0, syms1
    ensures sorted == syms0 || sorted == syms1
    ensures StablySorted(old(syms0[..n]), sorted[..n])
  {
    ghost var s := syms0[..n];
    var hist := Histogram(syms0, n);
    var totalPasses := if n == hist[256] then 1 else 2;
    assert HistogramAt(hist[..], s, 1, 0);
    Pass(syms0, syms1, n, hist, 0);
    ghost var r := syms1[..n];
    PassKeeps(s, 0);
    BucketsSorted(s, 0, 256);
    BucketsLength(s, 0);
    if totalPasses == 1 {
      OnePassSorts(s);
      return syms1;
    }
    forall d: nat | d < 256
      ensures CountDigit(r, 1, d) == CountDigit(s, 1, d)
    {
      PassKeepsCounts(s, 0, 1, d);
    }
    forall d: nat | d < 256
      ensures HistogramAt(hist[..], r, 1, d)
    {
      assert HistogramAt(hist[..], s, 1, d);
    }
    Pass(syms1, syms0, n, hist, 1);
    PassKeeps(r, 1);
    HighAfterLow(r, 256);
    BucketsLength(r, 1);
    return syms0;
  }

  lemma OnePassSorts(s: seq<SymFreq>)
    requires Keys16(s) && CountDigit(s, 1, 0) == |s|
    ensures SortedByKey(Buckets(s, 0, 256))
  {
    PassKeepsCounts(s, 0, 1, 0);
    BucketsLength(s, 0);
    BucketsSorted(s, 0, 256);
    LowSorted(Buckets(s, 0, 256));
  }

  lemma LowSorted(r: seq<SymFreq>)
    requires Keys16(r) && CountDigit(r, 1, 0) == |r| && SortedByDigit(r, 0, 256)
    ensures SortedByKey(r)
  {
    forall i | 0 <= i < |r|
      ensures Digit(r[i].key, 0) == r[i].key
    {
      AllInBucketZero(r, i);
    }
  }
}
