/** What the in-place builder computes, seen from outside: at step `t` the two lightest nodes of
    a forest are merged into internal node `t`. Leaves are the sorted weights `w`, consumed left to
    right; internal nodes have weights `W` and are consumed left to right as well, so the forest
    before step `t` is `w[la[t]..]` together with `W[ra[t]..t]`. */
module MergeSchedule {
  import opened Sums

  predicate Sorted(w: seq<nat>) {
    forall i, j :: 0 <= i <= j < |w| ==> w[i] <= w[j]
  }

  datatype Schedule = Schedule(la: seq<nat>, ra: seq<nat>, W: seq<nat>)

  predicate Shape(w: seq<nat>, s: Schedule, m: nat) {
    |s.la| == m + 1 && |s.ra| == m + 1 && |s.W| == m && s.la[0] == 0 && s.ra[0] == 0
  }

  /** Step `t` consumes two nodes from the fronts of the two queues, none of them heavier than
      a node that stays. */
  ghost predicate StepOk(w: seq<nat>, s: Schedule, t: nat)
    requires t < |s.W| && |s.la| == |s.ra| == |s.W| + 1
  {
    var l0, l1, r0, r1 := s.la[t], s.la[t + 1], s.ra[t], s.ra[t + 1];
    && l0 + r0 == 2 * t && l1 + r1 == 2 * t + 2
    && l0 <= l1 <= |w| && r0 <= r1 <= t
    && s.W[t] == Sum(w[l0..l1]) + Sum(s.W[r0..r1])
    && (forall i :: l0 <= i < l1 ==> Lightest(w, s.W[..t], l1, r1, w[i]))
    && (forall j :: r0 <= j < r1 ==> Lightest(w, s.W[..t], l1, r1, s.W[j]))
  }

  predicate Lightest(w: seq<nat>, W: seq<nat>, l: nat, r: nat, x: nat) {
    && (forall k :: l <= k < |w| ==> x <= w[k])
    && (forall k :: r <= k < |W| ==> x <= W[k])
  }

  /** The first `m` steps were done right. */
  ghost predicate Steps(w: seq<nat>, s: Schedule, m: nat) {
    Shape(w, s, m) && Sorted(w) && Sorted(s.W) && forall t :: 0 <= t < m ==> StepOk(w, s, t)
  }

  /** A finished schedule: n - 1 merges of n leaves. */
  ghost predicate Finished(w: seq<nat>, s: Schedule) {
    |w| >= 2 && Steps(w, s, |w| - 1)
  }

  lemma StepOf(w: seq<nat>, s: Schedule, m: nat, t: nat)
    requires Steps(w, s, m) && t < m
    ensures StepOk(w, s, t)
  {
  }

  lemma {:induction false} PointersMonotone(w: seq<nat>, s: Schedule, m: nat, a: nat, b: nat)
    requires Steps(w, s, m) && a <= b <= m
    ensures s.la[a] <= s.la[b] <= |w|
    ensures s.ra[a] <= s.ra[b]
    ensures s.la[b] + s.ra[b] == 2 * b
    ensures s.ra[b] <= b && (b > 0 ==> s.ra[b] < b)
    decreases b
  {
    if b > 0 {
      StepOf(w, s, m, b - 1);
      if a < b {
        PointersMonotone(w, s, m, a, b - 1);
      }
    }
  }

  /** Weights of the forest before step `t`. */
  function Forest(w: seq<nat>, s: Schedule, t: nat): (f: seq<nat>)
    requires t < |s.la| && t < |s.ra| && t <= |s.W| && s.la[t] <= |w| && s.ra[t] <= t
  {
    w[s.la[t]..] + s.W[s.ra[t]..t]
  }

  ghost predicate ForestOk(w: seq<nat>, s: Schedule, t: nat) {
    Finished(w, s) && t < |w| && s.la[t] <= |w| && s.ra[t] <= t && s.la[t] + s.ra[t] == 2 * t
  }

  lemma ForestIsOk(w: seq<nat>, s: Schedule, t: nat)
    requires Finished(w, s) && t < |w|
    ensures ForestOk(w, s, t)
    ensures |Forest(w, s, t)| == |w| - t
  {
    PointersMonotone(w, s, |w| - 1, t, t);
  }

  // ----- depths

  /** `delta[t]` is the depth of internal node `t`: the root has depth 0 and a node consumed in
      step `t` lies one below node `t`. This is what the second pass of the builder computes. */
  ghost predicate IsDelta(w: seq<nat>, s: Schedule, delta: seq<nat>)
    requires Finished(w, s)
  {
    && |delta| == |w| - 1 && delta[|w| - 2] == 0
    && forall t, j :: 0 <= t < |w| - 1 && s.ra[t] <= j < s.ra[t + 1] && j < |delta| ==> delta[j] == delta[t] + 1
  }

  /** Depth of the leaves, likewise: what the third pass leaves in the array. */
  ghost predicate IsLeafDepth(w: seq<nat>, s: Schedule, delta: seq<nat>, l: seq<nat>)
    requires Finished(w, s)
  {
    && |delta| == |w| - 1 && |l| == |w|
    && forall t, i :: 0 <= t < |w| - 1 && s.la[t] <= i < s.la[t + 1] && i < |l| ==> l[i] == delta[t] + 1
  }

  /** The step that consumes internal node `j`. */
  lemma {:induction false} ConsumerOf(w: seq<nat>, s: Schedule, j: nat, m: nat) returns (t: nat)
    requires Finished(w, s) && m < |w| && j < s.ra[m]
    ensures j < t < m && s.ra[t] <= j < s.ra[t + 1]
    decreases m
  {
    PointersMonotone(w, s, |w| - 1, m, m);
    StepOf(w, s, |w| - 1, m - 1);
    if s.ra[m - 1] <= j {
      t := m - 1;
    } else {
      t := ConsumerOf(w, s, j, m - 1);
    }
  }

  lemma {:induction false} ConsumerOfLeaf(w: seq<nat>, s: Schedule, i: nat, m: nat) returns (t: nat)
    requires Finished(w, s) && m < |w| && i < s.la[m]
    ensures t < m && s.la[t] <= i < s.la[t + 1]
    decreases m
  {
    if s.la[m - 1] <= i {
      t := m - 1;
    } else {
      t := ConsumerOfLeaf(w, s, i, m - 1);
    }
  }

  lemma RootQueue(w: seq<nat>, s: Schedule)
    requires Finished(w, s)
    ensures s.la[|w| - 1] == |w| && s.ra[|w| - 1] == |w| - 2
  {
    PointersMonotone(w, s, |w| - 1, |w| - 1, |w| - 1);
  }

  /** Later nodes are never deeper. */
  lemma {:induction false} DeltaMonotone(w: seq<nat>, s: Schedule, delta: seq<nat>, a: nat, b: nat)
    requires Finished(w, s) && IsDelta(w, s, delta) && a <= b < |delta|
    ensures delta[a] >= delta[b]
    decreases |delta| - a
  {
    RootQueue(w, s);
    if a < b {
      if b == |delta| - 1 {
      } else {
        var ta := ConsumerOf(w, s, a, |w| - 1);
        var tb := ConsumerOf(w, s, b, |w| - 1);
        if ta > tb {
          PointersMonotone(w, s, |w| - 1, tb + 1, ta);
          assert false;
        }
        DeltaMonotone(w, s, delta, ta, tb);
      }
    }
  }

  lemma LeafDepthMonotone(w: seq<nat>, s: Schedule, delta: seq<nat>, l: seq<nat>, a: nat, b: nat)
    requires Finished(w, s) && IsDelta(w, s, delta) && IsLeafDepth(w, s, delta, l) && a <= b < |l|
    ensures l[a] >= l[b] >= 1
  {
    RootQueue(w, s);
    var ta := ConsumerOfLeaf(w, s, a, |w| - 1);
    var tb := ConsumerOfLeaf(w, s, b, |w| - 1);
    if ta > tb {
      PointersMonotone(w, s, |w| - 1, tb + 1, ta);
      assert false;
    }
    DeltaMonotone(w, s, delta, ta, tb);
  }

  /** Depth of everything in the forest before step `t`. */
  function Depths(s: Schedule, delta: seq<nat>, l: seq<nat>, t: nat): seq<nat>
    requires t < |s.la| && t < |s.ra| && s.la[t] <= |l| && s.ra[t] <= t <= |delta|
  {
    l[s.la[t]..] + delta[s.ra[t]..t]
  }

  lemma {:induction false} DeltaBound(w: seq<nat>, s: Schedule, delta: seq<nat>, j: nat)
    requires Finished(w, s) && IsDelta(w, s, delta) && j < |delta|
    ensures delta[j] <= |w| - 2 - j
    decreases |w| - j
  {
    RootQueue(w, s);
    if j < |w| - 2 {
      var t := ConsumerOf(w, s, j, |w| - 1);
      DeltaBound(w, s, delta, t);
    }
  }

  lemma DepthsBound(w: seq<nat>, s: Schedule, delta: seq<nat>, l: seq<nat>)
    requires Finished(w, s) && IsDelta(w, s, delta) && IsLeafDepth(w, s, delta, l)
    ensures AtMost(delta, |w|) && AtMost(l, |w| - 1)
  {
    forall j | 0 <= j < |delta| ensures delta[j] <= |w| {
      DeltaBound(w, s, delta, j);
    }
    RootQueue(w, s);
    forall i | 0 <= i < |l| ensures l[i] <= |w| - 1 {
      var t := ConsumerOfLeaf(w, s, i, |w| - 1);
      DeltaBound(w, s, delta, t);
    }
  }
}
