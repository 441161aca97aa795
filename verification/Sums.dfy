/** Weighted code lengths: the cost of an assignment and its Kraft sum, the two quantities
    that minimum redundancy is about. */
module Sums {
  import opened Bits

  function Sum(w: seq<nat>): nat {
    if w == [] then 0 else w[0] + Sum(w[1..])
  }

  /** Total number of bits spent when symbol `i` of weight `w[i]` gets `l[i]` bits. */
  function Cost(w: seq<nat>, l: seq<nat>): nat
    requires |w| == |l|
  {
    if w == [] then 0 else w[0] * l[0] + Cost(w[1..], l[1..])
  }

  predicate AtMost(l: seq<nat>, m: nat) {
    forall i :: 0 <= i < |l| ==> l[i] <= m
  }

  /** Kraft's sum scaled by 2^m: the lengths belong to some prefix code iff this is <= 2^m. */
  function Kraft(l: seq<nat>, m: nat): nat
    requires AtMost(l, m)
  {
    if l == [] then 0 else Pow2(m - l[0]) + Kraft(l[1..], m)
  }

  lemma {:induction false} SumAppend(a: seq<nat>, b: seq<nat>)
    ensures Sum(a + b) == Sum(a) + Sum(b)
  {
    if a == [] {
      assert a + b == b;
    } else {
      SumAppend(a[1..], b);
      assert (a + b)[1..] == a[1..] + b;
    }
  }

  lemma {:induction false} CostAppend(w: seq<nat>, v: seq<nat>, l: seq<nat>, k: seq<nat>)
    requires |w| == |l| && |v| == |k|
    ensures Cost(w + v, l + k) == Cost(w, l) + Cost(v, k)
  {
    if w == [] {
      assert w + v == v && l + k == k;
    } else {
      CostAppend(w[1..], v, l[1..], k);
      assert (w + v)[1..] == w[1..] + v && (l + k)[1..] == l[1..] + k;
    }
  }

  lemma {:induction false} KraftAppend(l: seq<nat>, k: seq<nat>, m: nat)
    requires AtMost(l, m) && AtMost(k, m)
    ensures AtMost(l + k, m) && Kraft(l + k, m) == Kraft(l, m) + Kraft(k, m)
  {
    if l == [] {
      assert l + k == k;
    } else {
      KraftAppend(l[1..], k, m);
      assert (l + k)[1..] == l[1..] + k;
    }
  }

  lemma {:induction false} CostUpdate(w: seq<nat>, l: seq<nat>, i: nat, v: nat)
    requires |w| == |l| && i < |l|
    ensures Cost(w, l[i := v]) == Cost(w, l) - w[i] * l[i] + w[i] * v
  {
    if i == 0 {
      assert l[0 := v][1..] == l[1..];
    } else {
      CostUpdate(w[1..], l[1..], i - 1, v);
      assert l[i := v][1..] == l[1..][i - 1 := v];
    }
  }

  lemma {:induction false} KraftUpdate(l: seq<nat>, i: nat, v: nat, m: nat)
    requires AtMost(l, m) && i < |l| && v <= m
    ensures Kraft(l[i := v], m) == Kraft(l, m) - Pow2(m - l[i]) + Pow2(m - v)
  {
    if i == 0 {
      assert l[0 := v][1..] == l[1..];
    } else {
      KraftUpdate(l[1..], i - 1, v, m);
      assert l[i := v][1..] == l[1..][i - 1 := v];
    }
  }

  /** Changing the scale of a Kraft sum by one bit doubles it. */
  lemma {:induction false} KraftDouble(l: seq<nat>, m: nat)
    requires AtMost(l, m)
    ensures Kraft(l, m + 1) == 2 * Kraft(l, m)
  {
    if l != [] {
      KraftDouble(l[1..], m);
    }
  }

  lemma {:induction false} KraftLowerScale(l: seq<nat>, m: nat, k: nat)
    requires AtMost(l, k) && k <= m
    ensures Kraft(l, m) <= Pow2(m) <==> Kraft(l, k) <= Pow2(k)
    ensures Kraft(l, m) < Pow2(m) <==> Kraft(l, k) < Pow2(k)
    ensures Kraft(l, m) == Pow2(m) <==> Kraft(l, k) == Pow2(k)
    decreases m
  {
    if k < m {
      KraftLowerScale(l, m - 1, k);
      KraftDouble(l, m - 1);
    }
  }

  lemma {:induction false} KraftHasTerm(l: seq<nat>, i: nat, m: nat)
    requires AtMost(l, m) && i < |l|
    ensures Kraft(l, m) >= Pow2(m - l[i])
  {
    if i > 0 {
      KraftHasTerm(l[1..], i - 1, m);
    }
  }

  lemma {:induction false} SumHasTerm(w: seq<nat>, i: nat)
    requires i < |w|
    ensures Sum(w) >= w[i]
  {
    if i > 0 {
      SumHasTerm(w[1..], i - 1);
    }
  }

  lemma SumOfTwo(x: nat, y: nat)
    ensures Sum([x, y]) == x + y && Sum([x]) == x && Sum([]) == 0
  {
    assert [x, y][1..] == [y] && [y][1..] == [] && [x][1..] == [];
    assert Sum([y]) == y;
  }

  /** Sum of what a step takes from one queue. */
  lemma SumOfSlice(v: seq<nat>, a: nat, b: nat)
    requires a <= b <= |v| && b - a <= 2
    ensures Sum(v[a..b]) == if b == a then 0 else if b == a + 1 then v[a] else v[a] + v[a + 1]
    ensures Sum(v[a..]) == Sum(v[a..b]) + Sum(v[b..])
  {
    assert v[a..] == v[a..b] + v[b..];
    SumAppend(v[a..b], v[b..]);
    if b == a + 1 {
      assert v[a..b] == [v[a]];
      SumOfTwo(v[a], 0);
    } else if b == a + 2 {
      assert v[a..b] == [v[a], v[a + 1]];
      SumOfTwo(v[a], v[a + 1]);
    }
  }

  lemma SumSnoc(v: seq<nat>, r: nat, x: nat)
    requires r <= |v|
    ensures Sum((v + [x])[r..]) == Sum(v[r..]) + x
  {
    assert (v + [x])[r..] == v[r..] + [x];
    SumAppend(v[r..], [x]);
    SumOfTwo(x, 0);
  }

  lemma SumUpdate(v: seq<nat>, i: nat, x: nat)
    requires i < |v|
    ensures Sum(v[i := x]) == Sum(v) - v[i] + x
  {
    var u, w, t := v[..i], v[i..], v[i := x];
    assert v == u + w && t == u + t[i..];
    SumAppend(u, w);
    SumAppend(u, t[i..]);
    assert t[i..][1..] == w[1..];
  }

  lemma {:induction false} SumOfZeros(count: seq<nat>)
    requires forall i :: 0 <= i < |count| ==> count[i] == 0
    ensures Sum(count) == 0
    decreases |count|
  {
    if count != [] {
      SumOfZeros(count[1..]);
    }
  }
}
