/** The in-place builder of minimum redundancy code lengths (Moffat and Katajainen) over the 16-bit
    keys of the sorted symbols: a merge pass, a depth pass and a leaf pass, all in one array. */
module HuffmanBuilder {
  import opened Sums
  import opened MergeSchedule
  import opened MinimumRedundancy
  import opened HuffmanDepth

  type u16 = x: nat | x < 0x1_0000

  /** After the merge pass the consumed internal nodes hold the number of their parent. */
  ghost predicate Parents(a: seq<nat>, s: Schedule, m: nat)
    requires |s.ra| == m + 1
  {
    forall t, j :: 0 <= t < m && s.ra[t] <= j < s.ra[t + 1] && j < |a| ==> a[j] == t
  }

  /** The live parts of the two queues; they overlap in one array. */
  ghost predicate Queues(w: seq<nat>, a: seq<nat>, s: Schedule, m: nat, leaf: nat, root: nat) {
    && |a| == |w| && |s.W| == m && m + 1 < |w| && root <= m < leaf <= |w|
    && (forall k :: root <= k < m ==> a[k] == s.W[k])
    && (forall k :: leaf <= k < |w| ==> a[k] == w[k])
  }

  /** Taking the front of the internal queue, or of the leaf queue: the array afterwards. */
  function Take(a: seq<nat>, m: nat, leaf: nat, root: nat, inner: bool, sofar: nat): seq<nat>
    requires m < |a| && (inner ==> root < m) && (!inner ==> leaf < |a|)
  {
    if inner then a[m := sofar + a[root]][root := m] else a[m := sofar + a[leaf]]
  }

  ghost predicate Lighter(w: seq<nat>, s: Schedule, leaf: nat, root: nat, inner: bool) {
    if inner then root < |s.W| && (leaf >= |w| || s.W[root] < w[leaf])
    else leaf < |w| && (root >= |s.W| || w[leaf] <= s.W[root])
  }

  lemma TakeKeepsQueues(w: seq<nat>, a: seq<nat>, s: Schedule, m: nat, leaf: nat, root: nat, inner: bool, sofar: nat)
    requires Queues(w, a, s, m, leaf, root) && Sorted(w) && Sorted(s.W)
    requires Lighter(w, s, leaf, root, inner)
    ensures var a' := Take(a, m, leaf, root, inner, sofar);
            var x := if inner then s.W[root] else w[leaf];
            var leaf', root' := if inner then leaf else leaf + 1, if inner then root + 1 else root;
            (&& Queues(w, a', s, m, leaf', root') && a'[m] == sofar + x
             && Lightest(w, s.W, leaf', root', x)
             && a'[..root] == a[..root] && (inner ==> a'[root] == m))
  {
  }

  /** Appending a correct step to a correct schedule. */
  lemma Extend(w: seq<nat>, s: Schedule, m: nat, l1: nat, r1: nat, x: nat)
    requires m > 0 && Steps(w, s, m) && s.la[m] <= l1 <= |w| && s.ra[m] <= r1 <= m
    requires s.la[m] + s.ra[m] == 2 * m && l1 + r1 == 2 * m + 2
    requires x == Sum(w[s.la[m]..l1]) + Sum(s.W[s.ra[m]..r1]) && x >= s.W[m - 1]
    requires forall i :: s.la[m] <= i < l1 ==> Lightest(w, s.W, l1, r1, w[i])
    requires forall j :: s.ra[m] <= j < r1 ==> Lightest(w, s.W, l1, r1, s.W[j])
    ensures Steps(w, Schedule(s.la + [l1], s.ra + [r1], s.W + [x]), m + 1)
  {
    hide Sum;
    var s' := Schedule(s.la + [l1], s.ra + [r1], s.W + [x]);
    forall t | 0 <= t < m + 1
      ensures StepOk(w, s', t)
    {
      assert s'.W[..t] == s.W[..t];
      if t < m {
        StepOf(w, s, m, t);
        assert s'.W[s.ra[t]..s.ra[t + 1]] == s.W[s.ra[t]..s.ra[t + 1]];
      } else {
        assert s.W[..m] == s.W;
        assert s'.W[s.ra[m]..r1] == s.W[s.ra[m]..r1];
      }
    }
  }

  /** All that one more merge needs to know about the queues. */
  ghost predicate Ready(w: seq<nat>, s: Schedule, m: nat, lo: nat) {
    && Shape(w, s, m) && 0 < m < |w| && s.la[m] + s.ra[m] == 2 * m && s.ra[m] < m && s.la[m] <= |w|
    && Lightest(w, s.W, s.la[m], s.ra[m], lo) && s.W[m - 1] <= 2 * lo
    && Sum(w[s.la[m]..]) + Sum(s.W[s.ra[m]..]) == Sum(w)
  }

  /** `x1` and `x2` are the values the step to `l1`, `r1` takes from the two queues. */
  ghost predicate Takes(w: seq<nat>, s: Schedule, m: nat, l1: nat, r1: nat, x1: nat, x2: nat)
    requires m < |s.la| && m < |s.ra|
  {
    && s.la[m] <= l1 <= |w| && s.ra[m] <= r1 <= |s.W| && l1 + r1 == 2 * m + 2 == s.la[m] + s.ra[m] + 2
    && (l1 == s.la[m] + 2 ==> x1 == w[l1 - 2] && x2 == w[l1 - 1])
    && (r1 == s.ra[m] + 2 ==> x1 == s.W[r1 - 2] && x2 == s.W[r1 - 1])
    && (l1 == s.la[m] + 1 ==> (x1 == w[l1 - 1] && x2 == s.W[r1 - 1]) || (x2 == w[l1 - 1] && x1 == s.W[r1 - 1]))
  }

  lemma TakenSum(w: seq<nat>, s: Schedule, m: nat, l1: nat, r1: nat, x1: nat, x2: nat)
    requires m < |s.la| && m < |s.ra| && Takes(w, s, m, l1, r1, x1, x2)
    ensures Sum(w[s.la[m]..l1]) + Sum(s.W[s.ra[m]..r1]) == x1 + x2
    ensures Sum(w[s.la[m]..]) + Sum(s.W[s.ra[m]..]) == x1 + x2 + Sum(w[l1..]) + Sum(s.W[r1..])
  {
    SumOfSlice(w, s.la[m], l1);
    SumOfSlice(s.W, s.ra[m], r1);
  }

  lemma MergedSteps(w: seq<nat>, s: Schedule, m: nat, lo: nat, l1: nat, r1: nat, x1: nat, x2: nat)
    requires Steps(w, s, m) && Ready(w, s, m, lo) && Takes(w, s, m, l1, r1, x1, x2) && r1 <= m
    requires lo <= x1 <= x2 && Lightest(w, s.W, l1, r1, x1) && Lightest(w, s.W, l1, r1, x2)
    ensures Steps(w, Schedule(s.la + [l1], s.ra + [r1], s.W + [x1 + x2]), m + 1)
  {
    TakenSum(w, s, m, l1, r1, x1, x2);
    Extend(w, s, m, l1, r1, x1 + x2);
  }

  lemma LightestSnoc(w: seq<nat>, W: seq<nat>, l: nat, r: nat, x1: nat, x2: nat)
    requires x1 <= x2 && Lightest(w, W, l, r, x2)
    ensures Lightest(w, W, l, r, x1) && Lightest(w, W + [x1 + x2], l, r, x2)
  {
  }

  /** A merge of the two lightest keeps the queues ready, and its weight fits. */
  lemma Merged(w: seq<nat>, s: Schedule, m: nat, lo: nat, l1: nat, r1: nat, x1: nat, x2: nat)
    requires Ready(w, s, m, lo) && m + 1 < |w| && Takes(w, s, m, l1, r1, x1, x2) && r1 <= m
    requires lo <= x1 <= x2 && Lightest(w, s.W, l1, r1, x2)
    ensures x1 + x2 <= Sum(w)
    ensures Ready(w, Schedule(s.la + [l1], s.ra + [r1], s.W + [x1 + x2]), m + 1, x2)
  {
    hide Sum;
    LightestSnoc(w, s.W, l1, r1, x1, x2);
    TakenSum(w, s, m, l1, r1, x1, x2);
    SumSnoc(s.W, r1, x1 + x2);
  }

  /** The first selection of a merge starts the weight of node `next`. */
  method TakeFirst(A: array<u16>, next: nat, leaf0: nat, root0: nat, ghost w: seq<nat>, ghost s: Schedule)
    returns (leaf: nat, root: nat, ghost inner: bool)
    requires Queues(w, A[..], s, next, leaf0, root0) && A.Length < 0x1_0000 && root0 < next
    modifies A
    ensures inner == (leaf0 >= |w| || s.W[root0] < w[leaf0])
    ensures A[..] == Take(old(A[..]), next, leaf0, root0, inner, 0)
    ensures leaf == (if inner then leaf0 else leaf0 + 1) && root == (if inner then root0 + 1 else root0)
  {
    var n := A.Length;
    leaf, root, inner := leaf0, root0, false;
    if leaf >= n || A[root] < A[leaf] {
      inner := true;
      A[next] := A[root];
      A[root] := next;
      root := root + 1;
    } else {
      A[next] := A[leaf];
      leaf := leaf + 1;
    }
  }

  /** The second selection adds to it. */
  method TakeSecond(A: array<u16>, next: nat, leaf0: nat, root0: nat, ghost w: seq<nat>, ghost s: Schedule)
    returns (leaf: nat, root: nat, ghost inner: bool)
    requires Queues(w, A[..], s, next, leaf0, root0) && A.Length < 0x1_0000
    requires leaf0 >= |w| ==> root0 < next
    requires leaf0 < |w| ==> A[next] + w[leaf0] < 0x1_0000
    requires root0 < next ==> A[next] + s.W[root0] < 0x1_0000
    modifies A
    ensures inner == (leaf0 >= |w| || (root0 < next && s.W[root0] < w[leaf0]))
    ensures A[..] == Take(old(A[..]), next, leaf0, root0, inner, old(A[next]))
    ensures leaf == (if inner then leaf0 else leaf0 + 1) && root == (if inner then root0 + 1 else root0)
  {
    var n := A.Length;
    leaf, root, inner := leaf0, root0, false;
    if leaf >= n || (root < next && A[root] < A[leaf]) {
      inner := true;
      A[next] := A[next] + A[root];
      A[root] := next;
      root := root + 1;
    } else {
      A[next] := A[next] + A[leaf];
      leaf := leaf + 1;
    }
  }

  /** What the two selections of merge `m` do: values `x1`, `x2` taken, array `b`, queue fronts moved. */
  ghost predicate TwoTaken(w: seq<nat>, s: Schedule, m: nat, lo: nat, a: seq<nat>, b: seq<nat>,
                           root0: nat, leaf: nat, root: nat, x1: nat, x2: nat)
    requires m < |s.la| && m < |s.ra|
  {
    && Takes(w, s, m, leaf, root, x1, x2) && root <= m && lo <= x1 <= x2 && Lightest(w, s.W, leaf, root, x2)
    && m < |b| && b[m] == x1 + x2
    && Queues(w, b, s, m, leaf, root)
    && root0 <= |a| && root <= |b| && root0 <= root && b[..root0] == a[..root0]
    && forall j :: root0 <= j < root ==> b[j] == m
  }

  lemma TwoSelections(w: seq<nat>, a: seq<nat>, s: Schedule, m: nat, leaf: nat, root: nat, lo: nat,
                      inner: bool, inner2: bool)
    returns (x1: nat, x2: nat)
    requires Queues(w, a, s, m, leaf, root) && Shape(w, s, m) && Ready(w, s, m, lo)
    requires Sorted(w) && Sorted(s.W) && leaf == s.la[m] && root == s.ra[m]
    requires Lighter(w, s, leaf, root, inner)
    requires var leaf1, root1 := if inner then leaf else leaf + 1, if inner then root + 1 else root;
             Lighter(w, s, leaf1, root1, inner2)
    ensures x1 == (if inner then s.W[root] else w[leaf])
    ensures var leaf1, root1 := if inner then leaf else leaf + 1, if inner then root + 1 else root;
            var leaf2, root2 := if inner2 then leaf1 else leaf1 + 1, if inner2 then root1 + 1 else root1;
            TwoTaken(w, s, m, lo, a, Take(Take(a, m, leaf, root, inner, 0), m, leaf1, root1, inner2, x1),
                     root, leaf2, root2, x1, x2)
  {
    hide Sorted, Lighter;
    TakeKeepsQueues(w, a, s, m, leaf, root, inner, 0);
    x1 := if inner then s.W[root] else w[leaf];
    var a1 := Take(a, m, leaf, root, inner, 0);
    var leaf1, root1 := if inner then leaf else leaf + 1, if inner then root + 1 else root;
    TakeKeepsQueues(w, a1, s, m, leaf1, root1, inner2, x1);
    x2 := if inner2 then s.W[root1] else w[leaf1];
    TakesFit(w, s, m, leaf, root, inner, inner2, x1, x2);
    assert a1[..root1][..root] == a1[..root];
    var b := Take(a1, m, leaf1, root1, inner2, x1);
    assert b[..root1][..root] == b[..root];
    assert inner ==> b[root] == b[..root1][root] == a1[..root1][root];
  }

  /** The two selections of one merge. */
  method TakeTwo(A: array<u16>, next: nat, leaf0: nat, root0: nat, ghost w: seq<nat>, ghost s: Schedule, ghost lo: nat)
    returns (leaf: nat, root: nat, ghost x1: nat, ghost x2: nat)
    requires Queues(w, A[..], s, next, leaf0, root0) && Shape(w, s, next) && Ready(w, s, next, lo)
    requires Sorted(w) && Sorted(s.W)
    requires leaf0 == s.la[next] && root0 == s.ra[next] && Sum(w) < 0x1_0000 && A.Length < 0x1_0000
    modifies A
    ensures TwoTaken(w, s, next, lo, old(A[..]), A[..], root0, leaf, root, x1, x2)
  {
    ghost var a: seq<nat> := A[..];
    ghost var inner, inner2;
    leaf, root, inner := TakeFirst(A, next, leaf0, root0, w, s);
    TakeKeepsQueues(w, a, s, next, leaf0, root0, inner, 0);
    x1 := if inner then s.W[root0] else w[leaf0];
    SecondFits(w, s, next, leaf0, root0, inner, x1);
    leaf, root, inner2 := TakeSecond(A, next, leaf, root, w, s);
    x1, x2 := TwoSelections(w, a, s, next, leaf0, root0, lo, inner, inner2);
  }

  /** Whatever the second selection takes, the sum stays within the total weight. */
  lemma SecondFits(w: seq<nat>, s: Schedule, m: nat, leaf: nat, root: nat, inner: bool, x1: nat)
    requires Shape(w, s, m) && leaf == s.la[m] && root == s.ra[m] && leaf + root == 2 * m && leaf <= |w| && root < m
    requires Lighter(w, s, leaf, root, inner) && x1 == (if inner then s.W[root] else w[leaf])
    ensures var leaf1, root1 := if inner then leaf else leaf + 1, if inner then root + 1 else root;
            (&& (leaf1 < |w| ==> x1 + w[leaf1] <= Sum(w[leaf..]) + Sum(s.W[root..]))
             && (root1 < m ==> x1 + s.W[root1] <= Sum(w[leaf..]) + Sum(s.W[root..])))
  {
    var leaf1, root1 := if inner then leaf else leaf + 1, if inner then root + 1 else root;
    SumOfSlice(w, leaf, leaf1);
    SumOfSlice(s.W, root, root1);
    if leaf1 < |w| {
      SumHasTerm(w[leaf1..], 0);
    }
    if root1 < m {
      SumHasTerm(s.W[root1..], 0);
    }
  }

  lemma TakesFit(w: seq<nat>, s: Schedule, m: nat, leaf: nat, root: nat, inner: bool, inner2: bool, x1: nat, x2: nat)
    requires Shape(w, s, m) && leaf == s.la[m] && root == s.ra[m] && leaf + root == 2 * m && leaf <= |w| && root <= m
    requires Lighter(w, s, leaf, root, inner) && x1 == (if inner then s.W[root] else w[leaf])
    requires var leaf1, root1 := if inner then leaf else leaf + 1, if inner then root + 1 else root;
             Lighter(w, s, leaf1, root1, inner2) && x2 == (if inner2 then s.W[root1] else w[leaf1])
    ensures var leaf2 := leaf + (if inner then 0 else 1) + (if inner2 then 0 else 1);
            Takes(w, s, m, leaf2, 2 * m + 2 - leaf2, x1, x2)
    ensures x1 + x2 <= Sum(w[leaf..]) + Sum(s.W[root..])
  {
    var leaf2 := leaf + (if inner then 0 else 1) + (if inner2 then 0 else 1);
    TakenSum(w, s, m, leaf2, 2 * m + 2 - leaf2, x1, x2);
  }

  lemma ParentsExtend(w: seq<nat>, s: Schedule, s': Schedule, m: nat, a: seq<nat>, b: seq<nat>)
    requires Steps(w, s, m) && |s'.ra| == m + 2 && s'.ra[..m + 1] == s.ra
    requires s.ra[m] <= |a| && s.ra[m] <= s'.ra[m + 1] <= |b| && Parents(a[..s.ra[m]], s, m)
    requires b[..s.ra[m]] == a[..s.ra[m]] && forall j :: s.ra[m] <= j < s'.ra[m + 1] ==> b[j] == m
    ensures Parents(b[..s'.ra[m + 1]], s', m + 1)
  {
    forall t, j | 0 <= t < m + 1 && s'.ra[t] <= j < s'.ra[t + 1] && j < s'.ra[m + 1]
      ensures b[j] == t
    {
      assert s'.ra[t] == s.ra[t];
      if t < m {
        assert s'.ra[t + 1] == s.ra[t + 1];
        PointersMonotone(w, s, m, t + 1, m);
        assert b[j] == b[..s.ra[m]][j] == a[..s.ra[m]][j];
      }
    }
  }

  /** Joins the facts about one merge into the loop invariant of the merge pass. */
  lemma MergeDone(w: seq<nat>, s: Schedule, m: nat, lo: nat, a: seq<nat>, b: seq<nat>, leaf: nat, root: nat, x1: nat, x2: nat)
    returns (s': Schedule)
    requires Steps(w, s, m) && Ready(w, s, m, lo) && m + 1 < |w| && s.ra[m] <= |a|
    requires Parents(a[..s.ra[m]], s, m) && TwoTaken(w, s, m, lo, a, b, s.ra[m], leaf, root, x1, x2)
    ensures s' == Schedule(s.la + [leaf], s.ra + [root], s.W + [x1 + x2])
    ensures Steps(w, s', m + 1) && Ready(w, s', m + 1, x2)
    ensures m + 2 < |w| ==> Queues(w, b, s', m + 1, leaf, root)
    ensures Parents(b[..root], s', m + 1)
  {
    hide Ready;
    s' := Schedule(s.la + [leaf], s.ra + [root], s.W + [x1 + x2]);
    LightestSnoc(w, s.W, leaf, root, x1, x2);
    MergedSteps(w, s, m, lo, leaf, root, x1, x2);
    Merged(w, s, m, lo, leaf, root, x1, x2);
    ParentsExtend(w, s, s', m, a, b);
  }

  /** First pass: merges the two lightest nodes n - 1 times. A[next] is first the weight of internal
      node `next`, later the number of its parent. */
  method MergePass(A: array<u16>) returns (ghost s: Schedule)
    requires 2 <= A.Length < 0x1_0000 && Sorted(A[..]) && Sum(A[..]) < 0x1_0000
    modifies A
    ensures Finished(old(A[..]), s)
    ensures Parents(A[..A.Length - 2], s, A.Length - 1)
  {
    var n := A.Length;
    ghost var w: seq<nat> := A[..];
    s := FirstMerge(w);
    A[0] := A[0] + A[1];
    var root, leaf, next := 0, 2, 1;
    ghost var lo := w[1];
    while next < n - 1
      invariant 1 <= next <= n - 1
      invariant Steps(w, s, next) && Ready(w, s, next, lo)
      invariant leaf == s.la[next] && root == s.ra[next] <= n
      invariant next < n - 1 ==> Queues(w, A[..], s, next, leaf, root)
      invariant Parents(A[..][..root], s, next)
    {
      ghost var a: seq<nat> := A[..];
      ghost var x1, x2;
      leaf, root, x1, x2 := TakeTwo(A, next, leaf, root, w, s, lo);
      s := MergeDone(w, s, next, lo, a, A[..], leaf, root, x1, x2);
      lo := x2;
      next := next + 1;
    }
    RootQueue(w, s);
  }

  lemma FirstMerge(w: seq<nat>) returns (s: Schedule)
    requires |w| >= 2 && Sorted(w)
    ensures s == Schedule([0, 2], [0, 0], [w[0] + w[1]])
    ensures Steps(w, s, 1) && Ready(w, s, 1, w[1])
    ensures w[0] + w[1] <= Sum(w)
  {
    s := Schedule([0, 2], [0, 0], [w[0] + w[1]]);
    SumOfSlice(w, 0, 2);
    assert w[0..] == w && w[0..2] == w[..2];
    assert s.W[0..] == s.W && s.W[0..0] == [] && s.W[..0] == [];
    SumOfTwo(s.W[0], 0);
    assert StepOk(w, s, 0);
  }

  // ----- second pass: depths of the internal nodes

  /** From node `next` + 1 up the array holds depths: each one more than its consumer's. */
  ghost predicate DepthsAbove(a: seq<nat>, s: Schedule, next: int)
    requires |s.ra| == |a| && |a| >= 2
  {
    && a[|a| - 2] == 0 && (forall j :: 0 <= j && next < j < |a| - 1 ==> a[j] <= |a| - 2 - j)
    && forall t, j :: 0 <= t < |a| - 1 && s.ra[t] <= j < s.ra[t + 1] && next < j < |a| - 2 ==> a[j] == a[t] + 1
  }

  lemma DepthStep(w: seq<nat>, s: Schedule, a: seq<nat>, next: nat, t: nat)
    requires Finished(w, s) && |a| == |w| && next < t < |w| - 1 && s.ra[t] <= next < s.ra[t + 1] && next < |w| - 2
    requires DepthsAbove(a, s, next)
    ensures a[t] <= |w| - 3 - next
    ensures DepthsAbove(a[next := a[t] + 1], s, next - 1)
  {
    var b := a[next := a[t] + 1];
    forall t', j | 0 <= t' < |a| - 1 && s.ra[t'] <= j < s.ra[t' + 1] && next - 1 < j < |a| - 2
      ensures b[j] == b[t'] + 1
    {
      PointersOrder(w, s, t', |w| - 1);
      var c := ConsumerOf(w, s, j, |w| - 1);
      OneConsumer(w, s, j, c, t');
      if j == next {
        OneConsumer(w, s, j, t, t');
      } else {
        assert a[j] == a[t'] + 1;
      }
    }
  }

  lemma ParentOf(w: seq<nat>, s: Schedule, p: seq<nat>, j: nat) returns (t: nat)
    requires Finished(w, s) && |p| == |w| - 2 && Parents(p, s, |w| - 1) && j < |p|
    ensures t == p[j] && j < t < |w| - 1 && s.ra[t] <= j < s.ra[t + 1]
  {
    RootQueue(w, s);
    t := ConsumerOf(w, s, j, |w| - 1);
  }

  /** Second pass: parent numbers become depths, from the root down. */
  method DepthPass(A: array<u16>, ghost w: seq<nat>, ghost s: Schedule)
    requires 2 <= A.Length == |w| < 0x1_0000 && Finished(w, s)
    requires Parents(A[..A.Length - 2], s, A.Length - 1)
    modifies A
    ensures IsDelta(w, s, A[..A.Length - 1])
  {
    hide Sum, Parents, StepOk;
    var n := A.Length;
    ghost var p: seq<nat> := A[..n - 2];
    A[n - 2] := 0;
    RootQueue(w, s);
    var next := n - 3;
    while next >= 0
      invariant -1 <= next <= n - 3
      invariant forall j :: 0 <= j <= next ==> A[j] == p[j]
      invariant DepthsAbove(A[..], s, next)
    {
      ghost var t := ParentOf(w, s, p, next);
      ghost var a: seq<nat> := A[..];
      DepthStep(w, s, a, next, t);
      A[next] := A[A[next]] + 1;
      assert A[..] == a[next := a[t] + 1];
      next := next - 1;
    }
    DepthsAreDelta(w, s, A[..]);
  }

  lemma DepthsAreDelta(w: seq<nat>, s: Schedule, a: seq<nat>)
    requires Finished(w, s) && |a| == |w| && DepthsAbove(a, s, -1)
    ensures IsDelta(w, s, a[..|w| - 1])
  {
    RootQueue(w, s);
    var delta := a[..|w| - 1];
    forall t, j | 0 <= t < |w| - 1 && s.ra[t] <= j < s.ra[t + 1] && j < |delta|
      ensures delta[j] == delta[t] + 1
    {
      PointersOrder(w, s, t, |w| - 1);
      assert a[j] == a[t] + 1;
    }
  }

  lemma OneConsumer(w: seq<nat>, s: Schedule, j: nat, t: nat, t': nat)
    requires Finished(w, s) && t < |w| - 1 && t' < |w| - 1
    requires s.ra[t] <= j < s.ra[t + 1] && s.ra[t'] <= j < s.ra[t' + 1]
    ensures t == t'
  {
    if t < t' {
      PointersMonotone(w, s, |w| - 1, t + 1, t');
    } else if t' < t {
      PointersMonotone(w, s, |w| - 1, t' + 1, t);
    }
  }

  // ----- third pass: depths of the leaves

  /** The first `T` internal nodes, and no others, have depth at least `d`. */
  ghost predicate DeepNodes(delta: seq<nat>, T: int, d: nat) {
    0 <= T <= |delta| && forall j :: 0 <= j < |delta| ==> (j < T <==> delta[j] >= d)
  }

  lemma SameCut(delta: seq<nat>, x: nat, y: nat, d: nat)
    requires DeepNodes(delta, x, d) && DeepNodes(delta, y, d)
    ensures x == y
  {
    var k := if x < y then x else y;
    if k < |delta| {
      assert k < x <==> delta[k] >= d;
    }
  }

  lemma LevelCount(w: seq<nat>, s: Schedule, delta: seq<nat>, l: seq<nat>, T: nat, R: nat, d: nat)
    requires Finished(w, s) && IsDelta(w, s, delta) && IsLeafDepth(w, s, delta, l)
    requires DeepNodes(delta, T, d) && DeepNodes(delta, R, d + 1)
    ensures s.ra[T] == R && s.la[T] == 2 * T - R <= |w| && (T > 0 ==> R < T)
    ensures forall i :: 0 <= i < |l| ==> (i < 2 * T - R <==> l[i] >= d + 1)
  {
    RootQueue(w, s);
    PointersMonotone(w, s, |w| - 1, T, T);
    forall j | 0 <= j < |delta|
      ensures j < s.ra[T] <==> delta[j] >= d + 1
    {
      if j < |w| - 2 {
        var t := ConsumerOf(w, s, j, |w| - 1);
        PointersOrder(w, s, t, T);
      }
    }
    SameCut(delta, s.ra[T], R, d + 1);
    forall i | 0 <= i < |l|
      ensures i < s.la[T] <==> l[i] >= d + 1
    {
      var t := ConsumerOfLeaf(w, s, i, |w| - 1);
      PointersOrder(w, s, t, T);
    }
  }

  lemma PointersOrder(w: seq<nat>, s: Schedule, t: nat, T: nat)
    requires Finished(w, s) && t < |w| - 1 && T < |w|
    ensures t < T ==> s.ra[t + 1] <= s.ra[T] && s.la[t + 1] <= s.la[T]
    ensures t >= T ==> s.ra[T] <= s.ra[t] && s.la[T] <= s.la[t]
  {
    if t < T {
      PointersMonotone(w, s, |w| - 1, t + 1, T);
    } else {
      PointersMonotone(w, s, |w| - 1, T, t);
    }
  }

  lemma {:induction false} LeafDepths(w: seq<nat>, s: Schedule, delta: seq<nat>, n: nat) returns (l: seq<nat>)
    requires Finished(w, s) && IsDelta(w, s, delta) && n <= |w|
    ensures |l| == n
    ensures forall t, i :: 0 <= t < |w| - 1 && s.la[t] <= i < s.la[t + 1] && i < n ==> l[i] == delta[t] + 1
  {
    if n == 0 {
      l := [];
    } else {
      var k := LeafDepths(w, s, delta, n - 1);
      RootQueue(w, s);
      var t := ConsumerOfLeaf(w, s, n - 1, |w| - 1);
      l := k + [delta[t] + 1];
      forall t', i | 0 <= t' < |w| - 1 && s.la[t'] <= i < s.la[t' + 1] && i < n
        ensures l[i] == delta[t'] + 1
      {
        if i == n - 1 {
          PointersOrder(w, s, t', t);
          PointersOrder(w, s, t, t');
        }
      }
    }
  }

  /** What the leaf pass has done when it starts level `d`. */
  ghost predicate Level(a: seq<nat>, delta: seq<nat>, l: seq<nat>, root: int, next: int, d: nat) {
    && |a| == |l| == |delta| + 1 && -1 <= root <= next < |l| && DeepNodes(delta, root + 1, d)
    && (forall j :: 0 <= j <= root ==> a[j] == delta[j])
    && (forall i :: 0 <= i < |l| ==> (i > next <==> l[i] < d))
    && (forall i :: next < i < |l| ==> a[i] == l[i])
  }

  /** Passing over the internal nodes of depth `d` tells how many leaves have that depth. */
  lemma LevelEnds(w: seq<nat>, s: Schedule, delta: seq<nat>, l: seq<nat>, a: seq<nat>, root0: int, root: int, next: int, d: nat)
    requires Finished(w, s) && IsDelta(w, s, delta) && IsLeafDepth(w, s, delta, l)
    requires Level(a, delta, l, root0, next, d) && -1 <= root <= root0
    requires (forall j :: root < j <= root0 ==> delta[j] == d) && (root >= 0 ==> delta[root] != d)
    ensures DeepNodes(delta, root + 1, d + 1)
    ensures root0 + (root0 - root) <= next
    ensures forall i :: 0 <= i < |l| ==> (i > root0 + (root0 - root) <==> l[i] < d + 1)
    ensures root0 == root ==> root == -1
  {
    forall j | 0 <= j < |delta|
      ensures j < root + 1 <==> delta[j] >= d + 1
    {
      if j <= root {
        DeltaMonotone(w, s, delta, j, root);
      }
    }
    LevelCount(w, s, delta, l, root0 + 1, root + 1, d);
    var last := root0 + (root0 - root);
    if next + 1 < |l| {
      assert next + 1 > last <==> l[next + 1] < d + 1;
    }
  }

  method CountUsed(A: array<u16>, root0: int, dpth: nat) returns (root: int, used: nat)
    requires -1 <= root0 < A.Length
    ensures -1 <= root <= root0 && used == root0 - root
    ensures forall j :: root < j <= root0 ==> A[j] == dpth
    ensures root >= 0 ==> A[root] != dpth
  {
    root, used := root0, 0;
    while root >= 0 && A[root] == dpth
      invariant -1 <= root <= root0 && used == root0 - root
      invariant forall j :: root < j <= root0 ==> A[j] == dpth
    {
      used := used + 1;
      root := root - 1;
    }
  }

  method GiveOut(A: array<u16>, next0: int, avbl0: int, used: nat, dpth: u16) returns (next: int)
    requires used <= avbl0 && -1 <= next0 - (avbl0 - used) && next0 < A.Length
    modifies A
    ensures next == next0 - (avbl0 - used)
    ensures forall i :: 0 <= i < A.Length ==> A[i] == if next < i <= next0 then dpth else old(A[i])
  {
    var avbl := avbl0;
    next := next0;
    while avbl > used
      invariant used <= avbl && next == next0 - (avbl0 - avbl)
      invariant forall i :: 0 <= i < A.Length ==> A[i] == if next < i <= next0 then dpth else old(A[i])
    {
      A[next] := dpth;
      next := next - 1;
      avbl := avbl - 1;
    }
  }

  /** Third pass: the number of nodes left over at each level is the number of leaves there;
      they are given out from the heaviest weight down. */
  method LeafPass(A: array<u16>, ghost w: seq<nat>, ghost s: Schedule) returns (ghost delta: seq<nat>)
    requires 2 <= A.Length == |w| < 0x1_0000 && Finished(w, s) && IsDelta(w, s, A[..A.Length - 1])
    modifies A
    ensures IsDelta(w, s, delta) && IsLeafDepth(w, s, delta, A[..])
  {
    var n := A.Length;
    delta := A[..n - 1];
    ghost var l := LeafDepths(w, s, delta, n);
    LevelZero(w, s, delta, l, A[..]);
    var avbl, dpth, root, next := 1, 0, n - 2, n - 1;
    while avbl > 0
      invariant Level(A[..], delta, l, root, next, dpth)
      invariant next == root + avbl && avbl >= 0
      invariant avbl == 0 ==> root == -1
      decreases root + (if avbl > 0 then 1 else 0)
    {
      ghost var root0, next0, a0: seq<nat> := root, next, A[..];
      DepthFits(w, s, delta, l, a0, root, next, dpth);
      var used;
      root, used := CountUsed(A, root, dpth);
      LevelEnds(w, s, delta, l, a0, root0, root, next, dpth);
      next := GiveOut(A, next, avbl, used, dpth);
      NextLevel(a0, A[..], delta, l, root0, root, next0, next, dpth);
      avbl := 2 * used;
      dpth := dpth + 1;
    }
  }

  lemma DepthFits(w: seq<nat>, s: Schedule, delta: seq<nat>, l: seq<nat>, a: seq<nat>, root: int, next: int, d: nat)
    requires Finished(w, s) && IsDelta(w, s, delta) && IsLeafDepth(w, s, delta, l)
    requires Level(a, delta, l, root, next, d) && next >= 0
    ensures d < |w|
  {
    DepthsBound(w, s, delta, l);
    assert l[next] >= d;
  }

  lemma NextLevel(a: seq<nat>, b: seq<nat>, delta: seq<nat>, l: seq<nat>, root0: int, root: int, next0: int, next: int, d: nat)
    requires Level(a, delta, l, root0, next0, d) && -1 <= root <= root0 && next == root0 + (root0 - root) <= next0
    requires DeepNodes(delta, root + 1, d + 1)
    requires forall i :: 0 <= i < |l| ==> (i > next <==> l[i] < d + 1)
    requires |b| == |a| && forall i :: 0 <= i < |a| ==> b[i] == if next < i <= next0 then d else a[i]
    ensures Level(b, delta, l, root, next, d + 1)
  {
    forall i | next < i < |l|
      ensures b[i] == l[i]
    {
      assert i > next0 <==> l[i] < d;
      assert i > next <==> l[i] < d + 1;
    }
  }

  lemma LevelZero(w: seq<nat>, s: Schedule, delta: seq<nat>, l: seq<nat>, a: seq<nat>)
    requires Finished(w, s) && IsDelta(w, s, delta) && IsLeafDepth(w, s, delta, l)
    requires |a| == |w| && a[..|w| - 1] == delta
    ensures Level(a, delta, l, |w| - 2, |w| - 1, 0)
  {
  }

  /** The whole builder: sorted positive weights in, a cheapest full set of code lengths out. */
  method CalculateMinimumRedundancy(A: array<u16>)
    requires A.Length < 0x1_0000 && Sorted(A[..]) && Sum(A[..]) < 0x1_0000
    modifies A
    ensures A.Length == 1 ==> A[0] == 1
    ensures A.Length >= 2 ==> Optimal(old(A[..]), A[..])
    ensures A.Length >= 2 ==> forall i, j :: 0 <= i <= j < A.Length ==> A[i] >= A[j] >= 1
    ensures A.Length >= 2 && old(forall i :: 0 <= i < A.Length ==> A[i] >= 1) ==>
      A[0] <= 22 && old(Sum(A[..])) >= Fib(A[0] + 2)
    ensures A.Length >= 2 ==> LightBelow(old(A[..]), A[..])
  {
    if A.Length == 0 {
      return;
    } else if A.Length == 1 {
      A[0] := 1;
      return;
    }
    ghost var w: seq<nat> := A[..];
    ghost var s := MergePass(A);
    DepthPass(A, w, s);
    ghost var delta := LeafPass(A, w, s);
    ScheduleIsOptimal(w, s, delta, A[..]);
    if forall i :: 0 <= i < |w| ==> w[i] >= 1 {
      DepthIsSmall(w, s, delta, A[..]);
      DepthTakesWeight(w, s, delta, A[..]);
    }
    ghost var l: seq<nat> := A[..];
    forall i | 0 <= i < |w|
      ensures w[i] * Fib(l[i] + 1) <= Sum(w)
    {
      LeafWeight(w, s, delta, l, i);
    }
    forall i, j | 0 <= i <= j < A.Length
      ensures A[i] >= A[j] >= 1
    {
      LeafDepthMonotone(w, s, delta, A[..], i, j);
    }
  }

  /** A symbol of length l weighs at most the F(l + 1)-th part of the whole. */
  ghost predicate LightBelow(w: seq<nat>, l: seq<nat>) {
    |l| == |w| && forall i :: 0 <= i < |w| ==> w[i] * Fib(l[i] + 1) <= Sum(w)
  }
}
