/** What the limiter costs. Seen by rank, rarest symbol first, every round lengthens the code of the first
    symbol that is shorter than the limit. So only a front part of the ranks is touched, and the symbols
    in it are light: what they lose by going to the limit is bounded by the room they give up. */
module LimitPenalty {
  import opened Bits
  import opened Canonical
  import opened Sums
  import opened MinimumRedundancy
  import opened HuffmanDepth
  import opened HuffmanBuilder
  import opened LengthLimit
  import opened CodeAssignment
  import opened RankedSizes

  // ----- cutting by rank

  function CutTo(l: seq<nat>, max: nat): (c: seq<nat>)
    ensures |c| == |l| && forall q :: 0 <= q < |l| ==> c[q] == if l[q] <= max then l[q] else max
  {
    seq(|l|, q requires 0 <= q < |l| => if l[q] <= max then l[q] else max)
  }

  lemma {:induction false} CutCount(l: seq<nat>, max: nat, v: nat)
    requires 1 <= v <= max && forall q :: 0 <= q < |l| ==> l[q] >= 1
    ensures Count(CutTo(l, max), v) == if v < max then Count(l, v) else |l| - CountAtMost(l, max - 1)
    decreases |l|
  {
    if l != [] {
      var n := |l| - 1;
      CutCount(l[..n], max, v);
      assert CutTo(l, max)[..n] == CutTo(l[..n], max);
    }
  }

  /** Cutting the lengths and folding the counts are the same. */
  lemma CutCounts(l: seq<nat>, num: seq<nat>, max: nat)
    requires 1 <= max < |num| && (forall q :: 0 <= q < |l| ==> l[q] >= 1)
    requires (forall v :: 1 <= v <= max ==> num[v] == Count(l, v)) && Symbols(num, max) <= |l|
    ensures CountsUpTo(Folded(num, |l|, max), CutTo(l, max), max)
  {
    SymbolsAtMost(l, num, max - 1);
    forall v | 1 <= v <= max
      ensures Folded(num, |l|, max)[v] == Count(CutTo(l, max), v)
    {
      CutCount(l, max, v);
    }
  }

  /** Lengths in rank order with these counts. */
  predicate Sized(num: seq<nat>, z: seq<nat>, max: nat) {
    NonIncreasing(z) && (forall q :: 0 <= q < |z| ==> 1 <= z[q] <= max) && CountsUpTo(num, z, max)
  }

  // ----- one round

  lemma {:induction false} CountHas(z: seq<nat>, v: nat) returns (p: nat)
    requires Count(z, v) > 0
    ensures p < |z| && z[p] == v
    decreases |z|
  {
    var n := |z| - 1;
    if z[n] == v {
      p := n;
    } else {
      p := CountHas(z[..n], v);
    }
  }

  /** The symbols at the limit come first, and the next one is split. */
  lemma FirstShorter(num: seq<nat>, n: nat, max: nat, z: seq<nat>)
    requires Repairing(num, n, max) && Space(num, max) > Pow2(max) && Sized(num, z, max) && |z| == n
    ensures 1 <= num[max] < n && z[num[max]] == ToSplit(num, n, max)
    ensures forall q :: 0 <= q < num[max] ==> z[q] == max
  {
    hide Space, Pow2;
    var i, a := ToSplit(num, n, max), num[max];
    assert Symbols(num, max) == Symbols(num, max - 1) + num[max];
    forall q | 0 <= q < n
      ensures z[q] <= max - 1 <==> q >= a
    {
      SuffixAtMost(z, num, max - 1, q);
    }
    var p := CountHas(z, i);
    CountPositive(z, a);
    assert num[z[a]] > 0;
  }

  function Lengthened(z: seq<nat>, a: nat, i: nat): seq<nat>
    requires 1 <= a < |z|
  {
    z[a := i + 1][a - 1 := i + 1]
  }

  /** A round lengthens that code, and shortens the last one at the limit to the same length. */
  lemma RoundByRank(num: seq<nat>, n: nat, max: nat, z: seq<nat>)
    requires Repairing(num, n, max) && Space(num, max) > Pow2(max) && Sized(num, z, max) && |z| == n
    ensures 1 <= num[max] < n
    ensures Sized(Split(num, max, ToSplit(num, n, max)), Lengthened(z, num[max], ToSplit(num, n, max)), max)
  {
    hide Space, Pow2, Repairing, Count;
    FirstShorter(num, n, max, z);
    var i, a := ToSplit(num, n, max), num[max];
    LengthenedCounts(num, max, z, i, a);
    LengthenedOrder(max, z, i, a);
  }

  lemma LengthenedCounts(num: seq<nat>, max: nat, z: seq<nat>, i: nat, a: nat)
    requires CountsUpTo(num, z, max) && 1 <= i < max && num[i] > 0 && num[max] > 0
    requires 1 <= a < |z| && z[a] == i && z[a - 1] == max
    ensures CountsUpTo(Split(num, max, i), Lengthened(z, a, i), max)
  {
    hide Count;
    var y := z[a := i + 1];
    forall v | 1 <= v <= max
      ensures Split(num, max, i)[v] == Count(Lengthened(z, a, i), v)
    {
      CountUpdate(z, a, i + 1, v);
      CountUpdate(y, a - 1, i + 1, v);
    }
  }

  lemma LengthenedOrder(max: nat, z: seq<nat>, i: nat, a: nat)
    requires NonIncreasing(z) && (forall q :: 0 <= q < |z| ==> 1 <= z[q] <= max) && 1 <= i < max
    requires 1 <= a < |z| && z[a] == i && forall q :: 0 <= q < a ==> z[q] == max
    ensures NonIncreasing(Lengthened(z, a, i))
    ensures forall q :: 0 <= q < |z| ==> 1 <= Lengthened(z, a, i)[q] <= max
  {
  }

  // ----- all rounds

  /** The ranks from `a` on are as they were; the last one touched was reached while those before it, all
      at the limit, still left the code oversubscribed. */
  ghost predicate Touched(l: seq<nat>, z: seq<nat>, a: nat, max: nat) {
    && |z| == |l| && a <= |l| && AtMost(l, max) && (forall q :: a <= q < |l| ==> z[q] == l[q])
    && (a > 0 ==> a - 1 + Kraft(l[a - 1..], max) > Pow2(max))
  }

  lemma {:induction false} KraftAtLimit(l: seq<nat>, max: nat)
    requires forall q :: 0 <= q < |l| ==> l[q] == max
    ensures AtMost(l, max) && Kraft(l, max) == |l|
    decreases |l|
  {
    if l != [] {
      KraftAtLimit(l[1..], max);
    }
  }

  lemma TouchedFurther(num: seq<nat>, n: nat, max: nat, z: seq<nat>, l: seq<nat>, a: nat)
    requires Repairing(num, n, max) && Space(num, max) > Pow2(max) && Sized(num, z, max) && |z| == n && Touched(l, z, a, max)
    requires 1 <= num[max] < n && a <= num[max]
    ensures num[max] + Kraft(l[num[max]..], max) > Pow2(max)
  {
    hide Pow2, Space, Repairing, Count, Touched;
    var c := num[max];
    FirstShorter(num, n, max, z);
    SameTail(l, z, a, c, max);
    assert max < |num| && AtMost(z, max);
    SpaceIsKraft(z, num, max);
    KraftSplit(z, c, max);
    KraftAtLimit(z[..c], max);
  }

  lemma SameTail(l: seq<nat>, z: seq<nat>, a: nat, c: nat, max: nat)
    requires Touched(l, z, a, max) && a <= c < |z|
    ensures |l| == |z| && AtMost(l, max) && AtMost(l[c..], max) && z[c..] == l[c..]
  {
  }

  lemma {:induction false} AllRounds(num: seq<nat>, n: nat, max: nat, z: seq<nat>, l: seq<nat>, a: nat) returns (z2: seq<nat>, a2: nat)
    requires Repairing(num, n, max) && Sized(num, z, max) && |z| == n && Touched(l, z, a, max)
    ensures Sized(Repaired(num, n, max), z2, max) && Touched(l, z2, a2, max)
    decreases Space(num, max)
  {
    hide Split, Sized;
    z2, a2 := z, a;
    if Space(num, max) != Pow2(max) {
      var i, c := ToSplit(num, n, max), num[max];
      RoundByRank(num, n, max, z);
      if a <= c {
        TouchedFurther(num, n, max, z, l, a);
        a2 := c + 1;
      }
      z2, a2 := AllRounds(Split(num, max, i), n, max, Lengthened(z, c, i), l, a2);
    }
  }

  // ----- what it costs

  function Gaps(l: seq<nat>, max: nat): (g: seq<nat>)
    ensures |g| == |l| && forall q :: 0 <= q < |l| ==> g[q] == if l[q] <= max then max - l[q] else 0
  {
    seq(|l|, q requires 0 <= q < |l| => if l[q] <= max then max - l[q] else 0)
  }

  lemma {:induction false} CostWithin(w: seq<nat>, z: seq<nat>, l: seq<nat>, g: seq<nat>)
    requires |w| == |z| == |l| == |g| && forall q :: 0 <= q < |w| ==> z[q] <= l[q] + g[q]
    ensures Cost(w, z) <= Cost(w, l) + Cost(w, g)
    decreases |w|
  {
    if w != [] {
      CostWithin(w[1..], z[1..], l[1..], g[1..]);
      TimesWithin(w[0], z[0], l[0], g[0]);
    }
  }

  lemma TimesWithin(w: nat, z: nat, l: nat, g: nat)
    requires z <= l + g
    ensures w * z <= w * l + w * g
  {
    assert w * (l + g - z) >= 0;
  }

  lemma FibValues()
    ensures Fib(8) == 21 && Fib(9) == 34 && Fib(10) == 55 && Fib(11) == 89 && Fib(12) == 144
    ensures Fib(13) == 233 && Fib(14) == 377 && Fib(15) == 610 && Fib(16) == 987
  {
    assert Fib(7) == 13 && Fib(8) == 21 && Fib(9) == 34 && Fib(10) == 55;
    assert Fib(11) == 89 && Fib(12) == 144 && Fib(13) == 233 && Fib(14) == 377 && Fib(15) == 610;
  }

  /** A light symbol: what it loses by going up `k` to the limit, against the room it gives up. */
  lemma LightLoss(w: nat, k: nat)
    requires k <= 8 && w * Fib(16 - k) < 0x1_0000
    ensures w * k <= 122 * (Pow2(k) - 1) && w * k <= 24960 && (k <= 4 ==> w * k <= 1820)
  {
    FibValues();
    Pow2Values();
    assert Pow2(6) == 2 * Pow2(5);
    hide Fib, Pow2;
  }

  lemma {:induction false} LossOfFront(w: seq<nat>, l: seq<nat>)
    requires |w| == |l| && (forall q :: 0 <= q < |l| ==> 7 <= l[q] <= 15)
    requires forall q :: 0 <= q < |l| && l[q] < 15 ==> w[q] * Fib(l[q] + 1) < 0x1_0000
    ensures AtMost(l, 15) && Cost(w, Gaps(l, 15)) <= 122 * (Kraft(l, 15) - |l|)
    decreases |w|
  {
    hide Fib, Pow2;
    if w != [] {
      LossOfFront(w[1..], l[1..]);
      assert Gaps(l, 15)[1..] == Gaps(l[1..], 15);
      var k: nat := 15 - l[0];
      if k > 0 {
        LightLoss(w[0], k);
      } else {
        assert Pow2(0) == 1 by { NoPower(); }
      }
    }
  }

  lemma NoPower()
    ensures Pow2(0) == 1
  {
  }

  lemma {:induction false} KraftScale(l: seq<nat>, m: nat, k: nat)
    requires AtMost(l, k) && k <= m
    ensures AtMost(l, m) && Kraft(l, m) == Pow2(m - k) * Kraft(l, k)
    decreases m
  {
    hide Kraft;
    if k < m {
      KraftScale(l, m - 1, k);
      KraftDouble(l, m - 1);
      var p, x := Pow2(m - 1 - k), Kraft(l, k);
      assert Pow2(m - k) == 2 * p;
      assert 2 * (p * x) == (2 * p) * x;
    }
  }

  /** The last rank touched has many more before it, so its code was not short. */
  lemma NotShort(l: seq<nat>, b: nat)
    requires NonIncreasing(l) && AtMost(l, 32) && Kraft(l, 32) == Pow2(32) && b < |l| && l[b] < 15
    requires b + Kraft(CutTo(l, 15)[b..], 15) > Pow2(15)
    ensures Pow2(15 - l[b]) < b
  {
    hide Pow2;
    var d, tail := l[b], l[b..];
    assert AtMost(tail, d) && CutTo(l, 15)[b..] == tail;
    KraftScale(tail, 15, d);
    if b == 0 {
      assert tail == l;
      KraftLowerScale(l, 32, 15);
    } else {
      KraftSplit(l, b, 32);
      KraftHasTerm(l[..b], 0, 32);
      KraftLowerScale(tail, 32, d);
      Pow2Add(15 - d, d);
      OneLess(Pow2(15 - d), Kraft(tail, d), Pow2(d));
    }
  }

  lemma OneLess(p: nat, k: nat, q: nat)
    requires k < q
    ensures p * k <= p * q - p
  {
    assert p * (q - 1 - k) >= 0;
  }

  lemma {:induction false} CostMonotone(w: seq<nat>, z: seq<nat>, l: seq<nat>)
    requires |w| == |z| == |l| && forall q :: 0 <= q < |w| ==> z[q] <= l[q]
    ensures Cost(w, z) <= Cost(w, l)
    decreases |w|
  {
    if w != [] {
      CostMonotone(w[1..], z[1..], l[1..]);
      TimesWithin(w[0], z[0], l[0], 0);
    }
  }

  /** What the last rank touched may lose: with few symbols its code cannot have been short. */
  function LastLoss(n: nat): nat {
    if n <= 32 then 1820 else 24960
  }

  /** Lengths before the limiter, as the builder leaves them for light symbols. */
  ghost predicate Built(w: seq<nat>, l: seq<nat>) {
    && |w| == |l| && NonIncreasing(l) && (forall q :: 0 <= q < |l| ==> 1 <= l[q] <= 32) && Kraft(l, 32) == Pow2(32)
    && LightBelow(w, l) && Sum(w) < 0x1_0000
  }

  lemma FarFromLimit(w: seq<nat>, l: seq<nat>, z: seq<nat>, b: nat)
    requires Built(w, l) && b < |l| <= 288 && b + Kraft(CutTo(l, 15)[b..], 15) > Pow2(15)
    ensures forall q :: 0 <= q <= b ==> 7 <= CutTo(l, 15)[q] <= 15
    ensures |l| <= 32 ==> CutTo(l, 15)[b] >= 11
  {
    hide Pow2;
    if l[b] < 15 {
      NotShort(l, b);
      SmallPower(15 - l[b]);
    }
    assert forall q :: 0 <= q <= b ==> l[q] >= l[b];
  }

  lemma SmallPower(k: nat)
    ensures Pow2(k) < 288 ==> k <= 8
    ensures Pow2(k) < 32 ==> k <= 4
  {
    Pow2Values();
    if k >= 9 {
      assert Pow2(9) == 2 * Pow2(8);
      Pow2Monotone(9, k);
    }
    if k >= 5 {
      Pow2Monotone(5, k);
    }
  }

  lemma FrontLoss(w: seq<nat>, l: seq<nat>, b: nat)
    requires Built(w, l) && b < |l| <= 288 && b + Kraft(CutTo(l, 15)[b..], 15) > Pow2(15)
    requires Kraft(CutTo(l, 15), 15) <= Pow2(15) + |l|
    ensures Cost(w[..b + 1], Gaps(CutTo(l, 15)[..b + 1], 15)) <= 122 * |l| + LastLoss(|l|)
  {
    hide Pow2, Fib, NonIncreasing, Sum, Cost, Kraft;
    var c := CutTo(l, 15);
    FarFromLimit(w, l, c, b);
    var g := Gaps(c[..b + 1], 15);
    assert g[..b] == Gaps(c[..b], 15) && w[..b + 1][..b] == w[..b] && w[..b + 1][b..] == [w[b]] && g[b..] == [g[b]];
    CostSplit(w[..b + 1], g, b);
    CostOne(w[b], g[b]);
    LossOfFront(w[..b], c[..b]);
    KraftSplit(c, b, 15);
    if c[b] < 15 {
      LightLoss(w[b], 15 - c[b]);
    }
  }

  /** Limiting to 15 costs at most 122 bits for every symbol and what the last one touched loses. */
  lemma TouchedCosts(w: seq<nat>, l: seq<nat>, z: seq<nat>, a: nat)
    requires Built(w, l) && |l| <= 288 && Touched(CutTo(l, 15), z, a, 15) && AtMost(z, 15)
    requires Kraft(CutTo(l, 15), 15) <= Pow2(15) + |l|
    ensures Cost(w, z) <= Cost(w, l) + 122 * |l| + LastLoss(|l|)
  {
    hide Pow2, Kraft, NonIncreasing, LightBelow, Cost;
    var c := CutTo(l, 15);
    CostMonotone(w, c, l);
    if a == 0 {
      assert z == c;
    } else {
      CostSplit(w, z, a);
      CostSplit(w, c, a);
      assert z[a..] == c[a..];
      CostWithin(w[..a], z[..a], c[..a], Gaps(c[..a], 15));
      FrontLoss(w, l, a - 1);
    }
  }

  /** The lengths given out after the limiter, against those before it. */
  lemma LimitCosts(w: seq<nat>, l: seq<nat>, z: seq<nat>, num0: seq<nat>, num: seq<nat>)
    requires Built(w, l) && 2 <= |l| <= 288 && |num0| > 32 && forall v :: 1 <= v <= 32 ==> num0[v] == Count(l, v)
    requires IsRepaired(num0, num, |l|, 15) && Sized(num, z, 15) && |z| == |l|
    ensures Cost(w, z) <= Cost(w, l) + 122 * |l| + LastLoss(|l|)
  {
    hide Pow2, Space, Symbols, Repairing, Kraft, LightBelow, Sum, Count, Cost;
    var n, c, folded := |l|, CutTo(l, 15), Folded(num0, |l|, 15);
    CutCounts(l, num0, 15);
    CutOrder(l, 15);
    SpaceIsKraft(c, folded, 15);
    KraftWhole(c);
    var z2, a := AllRounds(folded, n, 15, c, c, 0);
    SameCountsSameSizes(z, z2, num, 15);
    TouchedCosts(w, l, z, a);
  }

  lemma CutOrder(l: seq<nat>, max: nat)
    requires NonIncreasing(l) && max >= 1 && forall q :: 0 <= q < |l| ==> l[q] >= 1
    ensures NonIncreasing(CutTo(l, max)) && forall q :: 0 <= q < |l| ==> 1 <= CutTo(l, max)[q] <= max
  {
  }

  lemma KraftWhole(c: seq<nat>)
    ensures c[0..] == c
  {
  }
}
