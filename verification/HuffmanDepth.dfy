/** How deep a minimum redundancy code can get: depth `d` takes a total weight of at least the
    Fibonacci number F(d + 2). With 16-bit weights no code is longer than 22 bits, so the builder's
    counters, indexed up to 32, are never overrun. */
module HuffmanDepth {
  import opened Sums
  import opened MergeSchedule
  import opened MinimumRedundancy

  function Fib(n: nat): nat {
    if n < 2 then n else Fib(n - 1) + Fib(n - 2)
  }

  lemma {:induction false} FibMonotone(m: nat, n: nat)
    requires m <= n
    ensures Fib(m) <= Fib(n)
    decreases n
  {
    if m < n {
      FibMonotone(m, n - 1);
    }
  }

  lemma FibOf25()
    ensures Fib(25) == 75025
  {
    assert Fib(9) == 34 && Fib(10) == 55;
    assert Fib(11) == 89 && Fib(12) == 144 && Fib(13) == 233 && Fib(14) == 377 && Fib(15) == 610;
    assert Fib(16) == 987 && Fib(17) == 1597 && Fib(18) == 2584 && Fib(19) == 4181 && Fib(20) == 6765;
  }

  /** What step `c` merges with internal node `t` is at least as heavy as anything merged before. */
  lemma PartnerWeight(w: seq<nat>, s: Schedule, t: nat, c: nat, x: nat)
    requires Finished(w, s) && t < c < |w| - 1 && s.ra[c] <= t < s.ra[c + 1]
    requires Lightest(w, s.W[..t], s.la[t + 1], s.ra[t + 1], x) && x <= s.W[t]
    ensures s.W[c] >= s.W[t] + x
  {
    StepOf(w, s, |w| - 1, c);
    PointersMonotone(w, s, |w| - 1, t + 1, c);
    SumOfSlice(w, s.la[c], s.la[c + 1]);
    SumOfSlice(s.W, s.ra[c], s.ra[c + 1]);
    if s.ra[c + 1] == s.ra[c] + 2 {
      var j := if s.ra[c] == t then t + 1 else s.ra[c];
      if j < t {
        assert s.W[..t][j] == s.W[j];
      }
    }
  }

  lemma {:induction false} Climb(w: seq<nat>, s: Schedule, delta: seq<nat>, t: nat, v: nat, k: nat, x: nat)
    requires Finished(w, s) && IsDelta(w, s, delta) && t < |w| - 1
    requires Lightest(w, s.W[..t], s.la[t + 1], s.ra[t + 1], x) && v * Fib(k) <= x <= s.W[t]
    requires s.W[t] >= v * Fib(k + 1)
    ensures s.W[|w| - 2] >= v * Fib(k + 1 + delta[t])
    decreases |w| - t
  {
    RootQueue(w, s);
    if t < |w| - 2 {
      var c := ConsumerOf(w, s, t, |w| - 1);
      PartnerWeight(w, s, t, c, x);
      StepOf(w, s, |w| - 1, c);
      NextFib(v, k);
      Climb(w, s, delta, c, v, k + 1, s.W[t]);
    }
  }

  lemma NextFib(v: nat, k: nat)
    ensures v * Fib(k + 2) == v * Fib(k) + v * Fib(k + 1)
  {
  }

  lemma SumOfMerge(A: seq<nat>, B: seq<nat>, a: nat, b: nat, x: nat)
    requires a <= |A| && b <= |B| && x == Sum(A[..a]) + Sum(B[..b])
    ensures Sum(A + B) == Sum(A[a..] + (B[b..] + [x]))
  {
    SumAppend(A, B);
    SumAppend(A[..a], A[a..]);
    SumAppend(B[..b], B[b..]);
    assert A[..a] + A[a..] == A && B[..b] + B[b..] == B;
    SumAppend(A[a..], B[b..] + [x]);
    SumAppend(B[b..], [x]);
    SumOfTwo(x, 0);
  }

  lemma {:induction false} WeightIsKept(w: seq<nat>, s: Schedule, t: nat)
    requires Finished(w, s) && t < |w|
    ensures ForestOk(w, s, t) && Sum(Forest(w, s, t)) == Sum(w)
    decreases t
  {
    ForestIsOk(w, s, t);
    if t == 0 {
      assert Forest(w, s, 0) == w;
    } else {
      WeightIsKept(w, s, t - 1);
      StepOf(w, s, |w| - 1, t - 1);
      var A, B, a, b := ForestStep(w, s, t - 1);
      SumOfMerge(A, B, a, b, s.W[t - 1]);
    }
  }

  /** The root weighs as much as all leaves. */
  lemma RootWeight(w: seq<nat>, s: Schedule)
    requires Finished(w, s)
    ensures |s.W| >= |w| - 1 && s.W[|w| - 2] == Sum(w)
  {
    RootQueue(w, s);
    WeightIsKept(w, s, |w| - 1);
    assert Forest(w, s, |w| - 1) == [s.W[|w| - 2]];
    SumOfTwo(s.W[|w| - 2], 0);
  }

  lemma DepthTakesWeight(w: seq<nat>, s: Schedule, delta: seq<nat>, l: seq<nat>)
    requires Finished(w, s) && IsDelta(w, s, delta) && IsLeafDepth(w, s, delta, l)
    requires forall i :: 0 <= i < |w| ==> w[i] >= 1
    ensures Sum(w) >= Fib(l[0] + 2)
  {
    StepOf(w, s, |w| - 1, 0);
    SumOfSlice(w, 0, 2);
    assert s.ra[0] == s.ra[1] == 0 && s.la[1] == 2 && s.W[0] == w[0] + w[1] by {
      assert s.W[0..0] == [];
      assert Sum(s.W[0..0]) == 0;
    }
    Climb(w, s, delta, 0, 1, 2, w[0]);
    RootWeight(w, s);
  }

  /** However light the others are, a leaf at depth d is at most the F(d + 1)-th part of the whole. */
  lemma LeafWeight(w: seq<nat>, s: Schedule, delta: seq<nat>, l: seq<nat>, i: nat)
    requires Finished(w, s) && IsDelta(w, s, delta) && IsLeafDepth(w, s, delta, l) && i < |w|
    ensures w[i] * Fib(l[i] + 1) <= Sum(w)
  {
    RootQueue(w, s);
    var t := ConsumerOfLeaf(w, s, i, |w| - 1);
    StepOf(w, s, |w| - 1, t);
    LeafInMerge(w, s, t, i);
    assert Fib(1) == 1 && Fib(2) == 1;
    Climb(w, s, delta, t, w[i], 1, w[i]);
    RootWeight(w, s);
  }

  lemma LeafInMerge(w: seq<nat>, s: Schedule, t: nat, i: nat)
    requires Finished(w, s) && t < |w| - 1 && s.la[t] <= i < s.la[t + 1]
    ensures i < |w| && s.W[t] >= w[i]
  {
    StepOf(w, s, |w| - 1, t);
    PointersMonotone(w, s, |w| - 1, t, t + 1);
    SumOfSlice(w, s.la[t], s.la[t + 1]);
  }

  lemma DepthIsSmall(w: seq<nat>, s: Schedule, delta: seq<nat>, l: seq<nat>)
    requires Finished(w, s) && IsDelta(w, s, delta) && IsLeafDepth(w, s, delta, l)
    requires Sum(w) < 0x1_0000 && forall i :: 0 <= i < |w| ==> w[i] >= 1
    ensures l[0] <= 22
  {
    DepthTakesWeight(w, s, delta, l);
    FibOf25();
    if l[0] > 22 {
      FibMonotone(25, l[0] + 2);
    }
  }
}
