/** Merging the two lightest nodes again and again gives code lengths that meet Kraft's sum with
    equality and that no other lengths of a prefix code can beat. */
module MinimumRedundancy {
  import opened Bits
  import opened Sums
  import opened MergeSchedule

  predicate AllEqual(l: seq<nat>, d: nat) {
    forall i :: 0 <= i < |l| ==> l[i] == d
  }

  lemma {:induction false} CostOfConstant(w: seq<nat>, l: seq<nat>, d: nat)
    requires |w| == |l| && AllEqual(l, d)
    ensures Cost(w, l) == Sum(w) * d
  {
    if w != [] {
      CostOfConstant(w[1..], l[1..], d);
      assert Sum(w) * d == w[0] * d + Sum(w[1..]) * d;
    }
  }

  /** The first `a` leaves and `b` inner nodes are two siblings; their parent has depth `d`. */
  ghost predicate Siblings(A: seq<nat>, B: seq<nat>, dl: seq<nat>, di: seq<nat>, a: nat, b: nat, d: nat) {
    && |A| == |dl| && |B| == |di| && a <= |A| && b <= |B| && a + b == 2
    && AllEqual(dl[..a], d + 1) && AllEqual(di[..b], d + 1)
  }

  lemma MergeCost(A: seq<nat>, B: seq<nat>, dl: seq<nat>, di: seq<nat>, a: nat, b: nat, d: nat, x: nat)
    requires Siblings(A, B, dl, di, a, b, d) && x == Sum(A[..a]) + Sum(B[..b])
    ensures Cost(A + B, dl + di) == Cost(A[a..] + (B[b..] + [x]), dl[a..] + (di[b..] + [d])) + x
  {
    CostAppend(A, B, dl, di);
    CostSplit(A, dl, a);
    CostSplit(B, di, b);
    CostOfPair(A[..a], B[..b], dl[..a], di[..b], d, x);
    CostAppend(A[a..], B[b..] + [x], dl[a..], di[b..] + [d]);
    CostAppend(B[b..], [x], di[b..], [d]);
    CostOne(x, d);
  }

  lemma CostOfPair(A: seq<nat>, B: seq<nat>, la: seq<nat>, lb: seq<nat>, d: nat, x: nat)
    requires |A| == |la| && |B| == |lb| && x == Sum(A) + Sum(B) && AllEqual(la, d + 1) && AllEqual(lb, d + 1)
    ensures Cost(A, la) + Cost(B, lb) == x * d + x
  {
    CostOfConstant(A, la, d + 1);
    CostOfConstant(B, lb, d + 1);
    Distribute(Sum(A), Sum(B), x, d);
  }

  lemma Distribute(x: nat, y: nat, z: nat, d: nat)
    requires z == x + y
    ensures x * (d + 1) + y * (d + 1) == z * d + z
  {
    assert z * (d + 1) == z * d + z;
  }

  lemma CostOne(x: nat, d: nat)
    ensures Cost([x], [d]) == x * d
  {
    assert [x][1..] == [] && [d][1..] == [];
  }

  lemma CostSplit(w: seq<nat>, l: seq<nat>, a: nat)
    requires |w| == |l| && a <= |w|
    ensures Cost(w, l) == Cost(w[..a], l[..a]) + Cost(w[a..], l[a..])
  {
    assert w == w[..a] + w[a..] && l == l[..a] + l[a..];
    CostAppend(w[..a], w[a..], l[..a], l[a..]);
  }

  lemma KraftSplit(l: seq<nat>, a: nat, m: nat)
    requires a <= |l| && AtMost(l, m)
    ensures AtMost(l[..a], m) && AtMost(l[a..], m)
    ensures Kraft(l, m) == Kraft(l[..a], m) + Kraft(l[a..], m)
  {
    assert l == l[..a] + l[a..];
    KraftAppend(l[..a], l[a..], m);
  }

  lemma KraftOfPair(x: seq<nat>, y: seq<nat>, d: nat, m: nat)
    requires |x| + |y| == 2 && AllEqual(x, d) && AllEqual(y, d) && 1 <= d <= m
    ensures AtMost(x, m) && AtMost(y, m)
    ensures Kraft(x, m) + Kraft(y, m) == Pow2(m - (d - 1))
  {
    KraftAppend(x, y, m);
    assert x + y == [d] + [d];
    KraftAppend([d], [d], m);
    KraftOne(d, m);
  }

  lemma MergeKraft(A: seq<nat>, B: seq<nat>, dl: seq<nat>, di: seq<nat>, a: nat, b: nat, d: nat, m: nat)
    requires Siblings(A, B, dl, di, a, b, d) && AtMost(dl, m) && AtMost(di, m) && d < m
    ensures AtMost(dl + di, m) && AtMost(dl[a..] + (di[b..] + [d]), m)
    ensures Kraft(dl + di, m) == Kraft(dl[a..] + (di[b..] + [d]), m)
  {
    hide Pow2;
    KraftAppend(dl, di, m);
    KraftSplit(dl, a, m);
    KraftSplit(di, b, m);
    KraftOfPair(dl[..a], di[..b], d + 1, m);
    KraftOne(d, m);
    KraftAppend(di[b..], [d], m);
    KraftAppend(dl[a..], di[b..] + [d], m);
  }

  lemma KraftOne(d: nat, m: nat)
    requires d <= m
    ensures AtMost([d], m) && Kraft([d], m) == Pow2(m - d)
  {
    assert [d][1..] == [];
  }

  // ----- what the builder achieves

  /** The forest before step `t`, in the two queues, and what step `t` makes of it. */
  lemma ForestStep(w: seq<nat>, s: Schedule, t: nat) returns (A: seq<nat>, B: seq<nat>, a: nat, b: nat)
    requires ForestOk(w, s, t) && ForestOk(w, s, t + 1) && StepOk(w, s, t)
    ensures A == w[s.la[t]..] && B == s.W[s.ra[t]..t] && Forest(w, s, t) == A + B
    ensures a == s.la[t + 1] - s.la[t] && b == s.ra[t + 1] - s.ra[t] && a + b == 2
    ensures a <= |A| && b <= |B| && s.W[t] == Sum(A[..a]) + Sum(B[..b])
    ensures Forest(w, s, t + 1) == A[a..] + (B[b..] + [s.W[t]])
  {
    A, B := w[s.la[t]..], s.W[s.ra[t]..t];
    a, b := s.la[t + 1] - s.la[t], s.ra[t + 1] - s.ra[t];
    assert A[..a] == w[s.la[t]..s.la[t + 1]] && B[..b] == s.W[s.ra[t]..s.ra[t + 1]];
    assert B[b..] + [s.W[t]] == s.W[s.ra[t + 1]..t + 1];
  }

  lemma DepthsStep(w: seq<nat>, s: Schedule, delta: seq<nat>, l: seq<nat>, t: nat)
    requires ForestOk(w, s, t) && ForestOk(w, s, t + 1) && StepOk(w, s, t)
    requires IsDelta(w, s, delta) && IsLeafDepth(w, s, delta, l)
    ensures var dl, di, a, b := l[s.la[t]..], delta[s.ra[t]..t], s.la[t + 1] - s.la[t], s.ra[t + 1] - s.ra[t];
            (&& a <= |dl| && b <= |di| && Depths(s, delta, l, t) == dl + di
             && AllEqual(dl[..a], delta[t] + 1) && AllEqual(di[..b], delta[t] + 1)
             && Depths(s, delta, l, t + 1) == dl[a..] + (di[b..] + [delta[t]]))
  {
    var dl, di, a, b := l[s.la[t]..], delta[s.ra[t]..t], s.la[t + 1] - s.la[t], s.ra[t + 1] - s.ra[t];
    assert dl[a..] == l[s.la[t + 1]..];
    assert di[b..] + [delta[t]] == delta[s.ra[t + 1]..t + 1];
  }

  /** Cost and Kraft sum of the depths the schedule gives, from step `t` on. */
  lemma {:induction false} Achieved(w: seq<nat>, s: Schedule, delta: seq<nat>, l: seq<nat>, t: nat)
    requires Finished(w, s) && IsDelta(w, s, delta) && IsLeafDepth(w, s, delta, l) && t < |w|
    ensures ForestOk(w, s, t)
    ensures Cost(Forest(w, s, t), Depths(s, delta, l, t)) == Sum(s.W[t..])
    ensures AtMost(Depths(s, delta, l, t), |w|) && Kraft(Depths(s, delta, l, t), |w|) == Pow2(|w|)
    decreases |w| - t
  {
    ForestIsOk(w, s, t);
    if t == |w| - 1 {
      RootQueue(w, s);
      assert Forest(w, s, t) == [s.W[t - 1]] && Depths(s, delta, l, t) == [0];
      CostOne(s.W[t - 1], 0);
      KraftOne(0, |w|);
    } else {
      Achieved(w, s, delta, l, t + 1);
      AchievedStep(w, s, delta, l, t);
      assert s.W[t..][1..] == s.W[t + 1..];
    }
  }

  lemma AchievedStep(w: seq<nat>, s: Schedule, delta: seq<nat>, l: seq<nat>, t: nat)
    requires Finished(w, s) && IsDelta(w, s, delta) && IsLeafDepth(w, s, delta, l) && t + 1 < |w|
    requires ForestOk(w, s, t) && ForestOk(w, s, t + 1)
    ensures Cost(Forest(w, s, t), Depths(s, delta, l, t))
         == Cost(Forest(w, s, t + 1), Depths(s, delta, l, t + 1)) + s.W[t]
    ensures AtMost(Depths(s, delta, l, t), |w|) && AtMost(Depths(s, delta, l, t + 1), |w|)
    ensures Kraft(Depths(s, delta, l, t), |w|) == Kraft(Depths(s, delta, l, t + 1), |w|)
  {
    var A, B, dl, di, a, b := ForestSiblings(w, s, delta, l, t);
    MergeBoth(A, B, dl, di, a, b, delta[t], s.W[t], |w|);
  }

  lemma ForestSiblings(w: seq<nat>, s: Schedule, delta: seq<nat>, l: seq<nat>, t: nat)
    returns (A: seq<nat>, B: seq<nat>, dl: seq<nat>, di: seq<nat>, a: nat, b: nat)
    requires Finished(w, s) && IsDelta(w, s, delta) && IsLeafDepth(w, s, delta, l) && t + 1 < |w|
    requires ForestOk(w, s, t) && ForestOk(w, s, t + 1)
    ensures Siblings(A, B, dl, di, a, b, delta[t]) && s.W[t] == Sum(A[..a]) + Sum(B[..b])
    ensures AtMost(dl, |w|) && AtMost(di, |w|) && delta[t] < |w|
    ensures Forest(w, s, t) == A + B && Forest(w, s, t + 1) == A[a..] + (B[b..] + [s.W[t]])
    ensures Depths(s, delta, l, t) == dl + di && Depths(s, delta, l, t + 1) == dl[a..] + (di[b..] + [delta[t]])
  {
    StepOf(w, s, |w| - 1, t);
    A, B, a, b := ForestStep(w, s, t);
    dl, di := l[s.la[t]..], delta[s.ra[t]..t];
    DepthsStep(w, s, delta, l, t);
    DepthsBound(w, s, delta, l);
    DeltaBound(w, s, delta, t);
    SlicesAtMost(l, s.la[t], |l|, |w|);
    SlicesAtMost(delta, s.ra[t], t, |w|);
  }

  lemma SlicesAtMost(l: seq<nat>, a: nat, b: nat, m: nat)
    requires a <= b <= |l| && AtMost(l, m)
    ensures AtMost(l[a..b], m)
  {
  }

  lemma MergeBoth(A: seq<nat>, B: seq<nat>, dl: seq<nat>, di: seq<nat>, a: nat, b: nat, d: nat, x: nat, m: nat)
    requires Siblings(A, B, dl, di, a, b, d) && x == Sum(A[..a]) + Sum(B[..b])
    requires AtMost(dl, m) && AtMost(di, m) && d < m
    ensures Cost(A + B, dl + di) == Cost(A[a..] + (B[b..] + [x]), dl[a..] + (di[b..] + [d])) + x
    ensures AtMost(dl + di, m) && AtMost(dl[a..] + (di[b..] + [d]), m)
    ensures Kraft(dl + di, m) == Kraft(dl[a..] + (di[b..] + [d]), m)
  {
    MergeCost(A, B, dl, di, a, b, d, x);
    MergeKraft(A, B, dl, di, a, b, d, m);
  }

  // ----- why nothing is cheaper

  function Swap(l: seq<nat>, i: nat, k: nat): seq<nat>
    requires i < |l| && k < |l|
  {
    l[i := l[k]][k := l[i]]
  }

  lemma SwapCost(w: seq<nat>, l: seq<nat>, i: nat, k: nat)
    requires |w| == |l| && i < |l| && k < |l| && i != k
    requires w[i] <= w[k] && l[i] <= l[k]
    ensures Cost(w, Swap(l, i, k)) <= Cost(w, l)
  {
    CostUpdate(w, l, i, l[k]);
    CostUpdate(w, l[i := l[k]], k, l[i]);
    Rearrangement(w[i], w[k], l[i], l[k]);
  }

  lemma Rearrangement(a: nat, b: nat, x: nat, y: nat)
    requires a <= b && x <= y
    ensures a * y + b * x <= a * x + b * y
  {
    assert (b - a) * (y - x) >= 0;
  }

  lemma SwapKraft(l: seq<nat>, i: nat, k: nat, m: nat)
    requires i < |l| && k < |l| && i != k && AtMost(l, m)
    ensures AtMost(Swap(l, i, k), m) && Kraft(Swap(l, i, k), m) == Kraft(l, m)
  {
    KraftUpdate(l, i, l[k], m);
    KraftUpdate(l[i := l[k]], k, l[i], m);
  }

  lemma {:induction false} LongestExcept(l: seq<nat>, i: nat, n: nat) returns (k: nat)
    requires n <= |l| && (n >= 2 || (n == 1 && i != 0))
    ensures k < n && k != i && forall x :: 0 <= x < n && x != i ==> l[x] <= l[k]
  {
    if n == 1 || (n == 2 && i <= 1) {
      k := if n == 1 then 0 else 1 - i;
    } else if n - 1 == i {
      k := LongestExcept(l, i, n - 1);
    } else {
      k := LongestExcept(l, i, n - 1);
      if l[k] < l[n - 1] {
        k := n - 1;
      }
    }
  }

  /** Lengths `l` of a prefix code for `w`, at scale `m`. */
  predicate IsCode(w: seq<nat>, l: seq<nat>, m: nat) {
    |w| == |l| && AtMost(l, m) && Kraft(l, m) <= Pow2(m)
  }

  predicate TwoLightest(w: seq<nat>, i: nat, j: nat) {
    && i < |w| && j < |w| && i != j
    && forall k :: 0 <= k < |w| && k != i && k != j ==> w[i] <= w[k] && w[j] <= w[k]
  }

  /** Moving the longest code to position `i` costs nothing; `i` and `j` may trade names. */
  lemma LongestFirst(w: seq<nat>, l: seq<nat>, i0: nat, j0: nat, m: nat) returns (k: seq<nat>, i: nat, j: nat)
    requires IsCode(w, l, m) && TwoLightest(w, i0, j0)
    ensures IsCode(w, k, m) && Cost(w, k) <= Cost(w, l)
    ensures (i == i0 && j == j0) || (i == j0 && j == i0)
    ensures AtMost(k, k[i])
  {
    var p := LongestExcept(l, |l|, |l|);
    i, j := if p == j0 then j0 else i0, if p == j0 then i0 else j0;
    if p == i {
      k := l;
    } else {
      SwapCost(w, l, i, p);
      SwapKraft(l, i, p, m);
      k := Swap(l, i, p);
    }
  }

  lemma SecondLongest(w: seq<nat>, l: seq<nat>, i: nat, j: nat, m: nat) returns (k: seq<nat>)
    requires IsCode(w, l, m) && TwoLightest(w, i, j) && AtMost(l, l[i])
    ensures IsCode(w, k, m) && Cost(w, k) <= Cost(w, l)
    ensures k[i] >= k[j] && forall x :: 0 <= x < |k| && x != i ==> k[x] <= k[j]
  {
    var q := LongestExcept(l, i, |l|);
    if q == j {
      k := l;
    } else {
      SwapCost(w, l, j, q);
      SwapKraft(l, j, q, m);
      k := Swap(l, j, q);
    }
  }

  /** A longest code with no equal can be shortened to the second longest length. */
  lemma Shorten(w: seq<nat>, l: seq<nat>, i: nat, j: nat, m: nat) returns (k: seq<nat>)
    requires IsCode(w, l, m) && TwoLightest(w, i, j)
    requires l[i] >= l[j] && forall x :: 0 <= x < |l| && x != i ==> l[x] <= l[j]
    ensures IsCode(w, k, l[j]) && Cost(w, k) <= Cost(w, l)
    ensures k == l[i := l[j]]
  {
    hide Kraft, Cost;
    var d := l[j];
    k := l[i := d];
    CostUpdate(w, l, i, d);
    assert w[i] * d <= w[i] * l[i];
    // k without position i has a Kraft sum below 1: one more code of length d fits
    KraftUpdate(l, i, d, m);
    KraftLowerScale(k, m, d);
    if l[i] > d {
      Parity(k, d, m);
      assert Kraft(l, m) == Kraft(k, m) - Pow2(m - d) + Pow2(m - l[i]);
    }
  }

  /** All lengths being at most d, a code with any room left has room for one more of length d. */
  lemma {:induction false} Parity(k: seq<nat>, d: nat, m: nat)
    requires AtMost(k, d) && d <= m
    ensures AtMost(k, m)
    ensures Kraft(k, m) - Pow2(m - d) < Pow2(m) ==> Kraft(k, m) <= Pow2(m)
    decreases m
  {
    if m > d {
      Parity(k, d, m - 1);
      KraftDouble(k, m - 1);
    }
  }

  lemma {:induction false} KraftCounts(l: seq<nat>, m: nat)
    requires AtMost(l, m)
    ensures Kraft(l, m) >= |l|
  {
    if l != [] {
      KraftCounts(l[1..], m);
    }
  }

  /** Some code at least as cheap gives the two lightest weights the same longest length. */
  lemma Exchange(w: seq<nat>, l: seq<nat>, i0: nat, j0: nat, m: nat) returns (k: seq<nat>, d: nat)
    requires IsCode(w, l, m) && TwoLightest(w, i0, j0)
    ensures IsCode(w, k, d) && Cost(w, k) <= Cost(w, l)
    ensures k[i0] == k[j0] == d >= 1
  {
    var k1, i, j := LongestFirst(w, l, i0, j0, m);
    assert TwoLightest(w, i, j);
    var k2 := SecondLongest(w, k1, i, j, m);
    k := Shorten(w, k2, i, j, m);
    d := k2[j];
    KraftCounts(k, d);
  }

  /** In the forest before step `t`, where the nodes merged in that step stand. */
  lemma LightestInForest(w: seq<nat>, s: Schedule, t: nat) returns (i: nat, j: nat)
    requires ForestOk(w, s, t) && ForestOk(w, s, t + 1) && StepOk(w, s, t)
    ensures TwoLightest(Forest(w, s, t), i, j)
    ensures s.la[t + 1] - s.la[t] == 2 ==> i == 0 && j == 1
    ensures s.la[t + 1] - s.la[t] == 1 ==> i == 0 && j == |w| - s.la[t]
    ensures s.la[t + 1] - s.la[t] == 0 ==> i == |w| - s.la[t] && j == i + 1
  {
    var l0, l1, r0, r1 := s.la[t], s.la[t + 1], s.ra[t], s.ra[t + 1];
    var n := |w| - l0;
    i, j := if l1 - l0 >= 1 then 0 else n, if l1 - l0 == 2 then 1 else if l1 - l0 == 1 then n else n + 1;
    var f := Forest(w, s, t);
    forall k | 0 <= k < |f| && k != i && k != j
      ensures f[i] <= f[k] && f[j] <= f[k]
    {
      if k < n {
        assert f[k] == w[l0 + k] && l0 + k >= l1;
      } else {
        assert f[k] == s.W[..t][r0 + (k - n)] && r0 + (k - n) >= r1;
      }
    }
  }

  /** No code for the forest before step `t` costs less than the merges still to come. */
  lemma {:induction false} LowerBound(w: seq<nat>, s: Schedule, t: nat, k: seq<nat>, m: nat)
    requires Finished(w, s) && t < |w| && ForestOk(w, s, t)
    requires IsCode(Forest(w, s, t), k, m)
    ensures Cost(Forest(w, s, t), k) >= Sum(s.W[t..])
    decreases |w| - t
  {
    if t == |w| - 1 {
      assert s.W[t..] == [];
    } else {
      ForestIsOk(w, s, t + 1);
      StepOf(w, s, |w| - 1, t);
      var i, j := LightestInForest(w, s, t);
      var k', d := Exchange(Forest(w, s, t), k, i, j, m);
      var A, B, a, b := ForestStep(w, s, t);
      var next := MergeTwo(A, B, k', i, j, a, b, d, s.W[t]);
      LowerBound(w, s, t + 1, next, d);
      assert s.W[t..][1..] == s.W[t + 1..];
    }
  }

  /** Merging the two nodes that share the longest length keeps a code a code. */
  lemma MergeTwo(A: seq<nat>, B: seq<nat>, k: seq<nat>, i: nat, j: nat, a: nat, b: nat, d: nat, x: nat)
    returns (next: seq<nat>)
    requires IsCode(A + B, k, d) && i < |k| && j < |k| && k[i] == k[j] == d >= 1
    requires a + b == 2 && a <= |A| && b <= |B| && x == Sum(A[..a]) + Sum(B[..b])
    requires a == 2 ==> i == 0 && j == 1
    requires a == 1 ==> i == 0 && j == |A|
    requires a == 0 ==> i == |A| && j == |A| + 1
    ensures IsCode(A[a..] + (B[b..] + [x]), next, d)
    ensures Cost(A + B, k) == Cost(A[a..] + (B[b..] + [x]), next) + x
  {
    var dl, di := k[..|A|], k[|A|..];
    assert dl + di == k;
    assert AllEqual(dl[..a], d) && AllEqual(di[..b], d);
    SlicesAtMost(k, 0, |A|, d);
    SlicesAtMost(k, |A|, |k|, d);
    assert k[0..|A|] == dl && k[|A|..|k|] == di;
    MergeBoth(A, B, dl, di, a, b, d - 1, x, d);
    var e: nat := d - 1;
    next := dl[a..] + (di[b..] + [e]);
  }

  /** The depths of a finished schedule: exactly a full code, and a cheapest one. */
  ghost predicate Optimal(w: seq<nat>, l: seq<nat>) {
    && |l| == |w| && AtMost(l, |w|) && Kraft(l, |w|) == Pow2(|w|)
    && forall k: seq<nat>, m: nat :: IsCode(w, k, m) ==> Cost(w, l) <= Cost(w, k)
  }

  lemma ScheduleIsOptimal(w: seq<nat>, s: Schedule, delta: seq<nat>, l: seq<nat>)
    requires Finished(w, s) && IsDelta(w, s, delta) && IsLeafDepth(w, s, delta, l)
    ensures Optimal(w, l)
  {
    Achieved(w, s, delta, l, 0);
    assert Forest(w, s, 0) == w && Depths(s, delta, l, 0) == l;
    forall k: seq<nat>, m: nat | IsCode(w, k, m)
      ensures Cost(w, l) <= Cost(w, k)
    {
      LowerBound(w, s, 0, k, m);
    }
  }
}
