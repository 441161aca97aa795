/** Limiting code lengths: all codes above the limit are cut to it, which oversubscribes the code,
    and then, one unit at a time, a code at the limit is removed and a shorter one is split in two. */
module LengthLimit {
  import opened Bits

  const MAX_SUPPORTED := 32

  /** Code space used by the codes of length 1 to `m`, in units of length `m`. */
  function Space(num: seq<nat>, m: nat): nat
    requires m < |num|
  {
    if m == 0 then 0 else 2 * Space(num, m - 1) + num[m]
  }

  function Symbols(num: seq<nat>, m: nat): nat
    requires m < |num|
  {
    if m == 0 then 0 else Symbols(num, m - 1) + num[m]
  }

  lemma {:induction false} SpaceAdd(num: seq<nat>, i: nat, v: nat, m: nat)
    requires 0 < i < |num| && m < |num|
    ensures Space(num[i := num[i] + v], m) == Space(num, m) + (if i <= m then v * Pow2(m - i) else 0)
    ensures Symbols(num[i := num[i] + v], m) == Symbols(num, m) + (if i <= m then v else 0)
  {
    if m > 0 {
      SpaceAdd(num, i, v, m - 1);
      if i < m {
        assert v * Pow2(m - i) == 2 * (v * Pow2(m - 1 - i));
      }
    }
  }

  lemma {:induction false} SpaceSame(num: seq<nat>, num': seq<nat>, m: nat)
    requires m < |num| && m < |num'| && forall i :: 1 <= i <= m ==> num[i] == num'[i]
    ensures Space(num, m) == Space(num', m) && Symbols(num, m) == Symbols(num', m)
  {
    if m > 0 {
      SpaceSame(num, num', m - 1);
    }
  }

  /** In a full code the room left above length `m` is at least one and at most one unit per code. */
  lemma {:induction false} RoomLeft(num: seq<nat>, m: nat, k: nat)
    requires k <= m < |num| && Space(num, m) == Pow2(m)
    ensures Space(num, k) <= Pow2(k) <= Space(num, k) + Symbols(num, m) - Symbols(num, k)
    decreases m - k
  {
    if k < m {
      RoomLeft(num, m, k + 1);
    }
  }

  lemma {:induction false} NoneShorter(num: seq<nat>, m: nat)
    requires m < |num| && forall i :: 1 <= i <= m ==> num[i] == 0
    ensures Space(num, m) == 0 && Symbols(num, m) == 0
  {
    if m > 0 {
      NoneShorter(num, m - 1);
    }
  }

  /** The state of the repair loop: an oversubscribed code of `n` symbols. */
  ghost predicate Repairing(num: seq<nat>, n: nat, max: nat) {
    && 1 <= max < |num| && Symbols(num, max) == n <= Pow2(max)
    && Space(num, max - 1) <= Pow2(max - 1) && Space(num, max) >= Pow2(max)
  }

  lemma RemoveOne(num: seq<nat>, i: nat, m: nat) returns (num': seq<nat>)
    requires 0 < i < |num| && m < |num| && num[i] > 0
    ensures num' == num[i := num[i] - 1] && |num'| == |num|
    ensures Space(num', m) == Space(num, m) - (if i <= m then Pow2(m - i) else 0)
    ensures Symbols(num', m) == Symbols(num, m) - (if i <= m then 1 else 0)
  {
    var v: nat := num[i] - 1;
    num' := num[i := v];
    assert num'[i := num'[i] + 1] == num;
    SpaceAdd(num', i, 1, m);
  }

  /** Removes a code of length `max`, takes one of length `i` and adds two of length i + 1. */
  function Split(num: seq<nat>, max: nat, i: nat): seq<nat>
    requires 1 <= i < max < |num| && num[max] > 0 && num[i] > 0
  {
    var b: nat, c: nat := num[max] - 1, num[i] - 1;
    var s := num[max := b][i := c];
    s[i + 1 := s[i + 1] + 2]
  }

  lemma SplitSpace(num: seq<nat>, max: nat, i: nat, m: nat)
    requires 1 <= i < max < |num| && num[max] > 0 && num[i] > 0 && i <= m <= max
    ensures Space(Split(num, max, i), m) == Space(num, m) - (if m == max then 1 else 0) - (if m == i then 1 else 0)
    ensures Symbols(Split(num, max, i), m) == Symbols(num, m) - (if m == max then 1 else 0) + (if m == i then -1 else 1)
  {
    var a := RemoveOne(num, max, m);
    var b := RemoveOne(a, i, m);
    SpaceAdd(b, i + 1, 2, m);
    if m > i {
      assert Pow2(m - i) == 2 * Pow2(m - (i + 1));
    }
  }

  /** Splitting the longest shorter code: one unit of excess less, all the rest as before. */
  lemma SplitOne(num: seq<nat>, n: nat, max: nat, i: nat)
    requires Repairing(num, n, max) && Space(num, max) > Pow2(max)
    requires 1 <= i < max && num[i] > 0 && num[max] > 0
    ensures Repairing(Split(num, max, i), n, max) && Space(Split(num, max, i), max) == Space(num, max) - 1
  {
    SplitSpace(num, max, i, max);
    SplitSpace(num, max, i, max - 1);
  }

  lemma SomethingToSplit(num: seq<nat>, n: nat, max: nat)
    requires Repairing(num, n, max) && Space(num, max) > Pow2(max)
    ensures num[max] > 0 && UsedWithin(num, max - 1)
  {
    if !UsedWithin(num, max - 1) {
      NoneShorter(num, max - 1);
    }
  }

  /** Some length from 1 to `i` is in use. */
  predicate UsedWithin(num: seq<nat>, i: nat)
    requires i < |num|
  {
    exists k :: 1 <= k <= i && num[k] > 0
  }

  /** The longest length below the limit that is in use. */
  predicate LastUsed(num: seq<nat>, max: nat, i: nat) {
    1 <= i < max <= |num| && num[i] > 0 && forall j :: i < j < max ==> num[j] == 0
  }

  /** What the repair loop makes of the counts: it is the only thing the rounds can lead to. */
  ghost function Repaired(num: seq<nat>, n: nat, max: nat): (r: seq<nat>)
    requires Repairing(num, n, max)
    ensures Repairing(r, n, max) && Space(r, max) == Pow2(max)
    decreases Space(num, max)
  {
    if Space(num, max) == Pow2(max) then num
    else
      var i := ToSplit(num, n, max);
      Repaired(Split(num, max, i), n, max)
  }

  /** The length of which a code is split in the next round. */
  ghost function ToSplit(num: seq<nat>, n: nat, max: nat): (i: nat)
    requires Repairing(num, n, max) && Space(num, max) > Pow2(max)
    ensures LastUsed(num, max, i) && num[max] > 0
    ensures Repairing(Split(num, max, i), n, max) && Space(Split(num, max, i), max) == Space(num, max) - 1
  {
    SomethingToSplit(num, n, max);
    var i := LastOf(num, max - 1);
    SplitOne(num, n, max, i);
    i
  }

  ghost function LastOf(num: seq<nat>, i: nat): (r: nat)
    requires i < |num| && UsedWithin(num, i)
    ensures 1 <= r <= i && num[r] > 0 && forall j :: r < j <= i ==> num[j] == 0
    decreases i
  {
    if num[i] > 0 then i else LastOf(num, i - 1)
  }

  lemma LastIsOne(num: seq<nat>, max: nat, i: nat, j: nat)
    requires LastUsed(num, max, i) && LastUsed(num, max, j)
    ensures i == j
  {
  }

  /** The counts with all longer codes cut to `max`. */
  function Folded(num: seq<nat>, n: nat, max: nat): seq<nat>
    requires max < |num| && Symbols(num, max) <= n
  {
    num[max := num[max] + (n - Symbols(num, max))]
  }

  method LastUsedBelow(num: array<nat>, max: nat) returns (i: nat)
    requires max < num.Length && exists i :: 1 <= i < max && num[i] > 0
    ensures LastUsed(num[..], max, i)
  {
    i := max - 1;
    while num[i] == 0
      invariant 1 <= i < max && forall j :: i < j < max ==> num[j] == 0
      decreases i
    {
      i := i - 1;
    }
  }

  /** One round of the repair loop. */
  method RepairOne(num: array<nat>, ghost n: nat, max: nat)
    requires Repairing(num[..], n, max) && Space(num[..], max) > Pow2(max)
    modifies num
    ensures Repairing(num[..], n, max) && Space(num[..], max) == old(Space(num[..], max)) - 1
    ensures num[..] == Split(old(num[..]), max, ToSplit(old(num[..]), n, max))
  {
    hide Space, Symbols, Pow2, Split;
    ghost var c: seq<nat> := num[..];
    ghost var k := ToSplit(c, n, max);
    num[max] := num[max] - 1;
    assert num[k] > 0;
    var i := LastUsedBelow(num, max);
    ghost var d := num[..];
    assert forall j :: 0 <= j < max ==> c[j] == d[j];
    LastIsOne(c, max, k, i);
    num[i] := num[i] - 1;
    num[i + 1] := num[i + 1] + 2;
    SplitIs(c, max, i, num[..]);
  }

  lemma SplitIs(num: seq<nat>, max: nat, i: nat, num': seq<nat>)
    requires 1 <= i < max < |num| && num[max] > 0 && num[i] > 0
    requires var b: nat, c: nat := num[max] - 1, num[i] - 1; var s := num[max := b][i := c]; num' == s[i + 1 := s[i + 1] + 2]
    ensures num' == Split(num, max, i)
  {
  }

  /** Cuts `num` so that no code is longer than `max`; entries above `max` are left as they are. */
  method EnforceMaxCodeSize(num: array<nat>, codeListLen: nat, max: nat)
    requires num.Length == MAX_SUPPORTED + 1 && 1 <= max <= MAX_SUPPORTED
    requires Symbols(num[..], MAX_SUPPORTED) == codeListLen
    requires codeListLen > 1 ==> Space(num[..], MAX_SUPPORTED) == Pow2(MAX_SUPPORTED) && codeListLen <= Pow2(max)
    modifies num
    ensures codeListLen <= 1 ==> num[..] == old(num[..])
    ensures codeListLen > 1 ==> IsRepaired(old(num[..]), num[..], codeListLen, max)
    ensures codeListLen > 1 ==> Space(num[..], max) == Pow2(max) && Symbols(num[..], max) == codeListLen
    ensures (forall i :: max < i <= MAX_SUPPORTED ==> old(num[i]) == 0) ==> num[..] == old(num[..])
  {
    hide Pow2, Repairing, Space, Split;
    if codeListLen <= 1 {
      return;
    }
    ghost var before: seq<nat> := num[..];
    Fold(num, max);
    ghost var folded := num[..];
    FoldedRepairs(before, folded, codeListLen, max, MAX_SUPPORTED);
    var total := TotalSpace(num, max);
    while total != Pow2(max)
      invariant Repairing(num[..], codeListLen, max) && total == Space(num[..], max)
      invariant Repaired(num[..], codeListLen, max) == Repaired(folded, codeListLen, max)
      decreases total
    {
      SpaceAtLeast(num[..], codeListLen, max);
      RepairOne(num, codeListLen, max);
      total := total - 1;
    }
    SpaceAtLeast(num[..], codeListLen, max);
  }

  lemma SpaceAtLeast(num: seq<nat>, n: nat, max: nat)
    requires Repairing(num, n, max)
    ensures Space(num, max) >= Pow2(max) && Symbols(num, max) == n
  {
  }

  /** The counts after the limiter, from those before. */
  ghost predicate IsRepaired(before: seq<nat>, after: seq<nat>, n: nat, max: nat) {
    && max < |before| && Symbols(before, max) <= n
    && Repairing(Folded(before, n, max), n, max) && after == Repaired(Folded(before, n, max), n, max)
    && Space(Folded(before, n, max), max) <= Pow2(max) + n
  }

  method Fold(num: array<nat>, max: nat)
    requires num.Length == MAX_SUPPORTED + 1 && 1 <= max <= MAX_SUPPORTED
    modifies num
    ensures Symbols(old(num[..]), max) <= Symbols(old(num[..]), MAX_SUPPORTED)
    ensures num[..] == old(num[..])[max := old(num[max]) + (Symbols(old(num[..]), MAX_SUPPORTED) - Symbols(old(num[..]), max))]
  {
    ghost var before: seq<nat> := num[..];
    for i := max + 1 to MAX_SUPPORTED + 1
      invariant Symbols(before, i - 1) >= Symbols(before, max)
      invariant num[..] == before[max := before[max] + (Symbols(before, i - 1) - Symbols(before, max))]
    {
      assert num[i] == before[i];
      num[max] := num[max] + num[i];
    }
  }

  /** Cutting a full code to the limit leaves it full or oversubscribed. */
  lemma FoldedRepairs(num: seq<nat>, folded: seq<nat>, n: nat, max: nat, m: nat)
    requires |num| == m + 1 && 1 <= max <= m
    requires Symbols(num, m) == n <= Pow2(max) && Space(num, m) == Pow2(m)
    requires Symbols(num, max) <= n && folded == num[max := num[max] + (n - Symbols(num, max))]
    ensures Repairing(folded, n, max) && Space(folded, max) <= Pow2(max) + n
    ensures (forall i :: max < i <= m ==> num[i] == 0) ==> folded == num && Space(folded, max) == Pow2(max)
  {
    hide Space;
    var cut: nat := n - Symbols(num, max);
    RoomLeft(num, m, max);
    RoomLeft(num, m, max - 1);
    SpaceAddLast(num, max, cut);
    SpaceAdd(num, max, cut, max - 1);
    if forall i :: max < i <= m ==> num[i] == 0 {
      NoneLonger(num, max, m);
    }
  }

  lemma SpaceAddLast(num: seq<nat>, i: nat, v: nat)
    requires 0 < i < |num|
    ensures Space(num[i := num[i] + v], i) == Space(num, i) + v
    ensures Symbols(num[i := num[i] + v], i) == Symbols(num, i) + v
  {
    SpaceAdd(num, i, v, i);
    assert v * Pow2(0) == v;
  }

  lemma {:induction false} NoneLonger(num: seq<nat>, max: nat, m: nat)
    requires max <= m < |num| && forall i :: max < i <= m ==> num[i] == 0
    ensures Symbols(num, m) == Symbols(num, max)
    decreases m
  {
    if max < m {
      NoneLonger(num, max, m - 1);
    }
  }

  method TotalSpace(num: array<nat>, max: nat) returns (total: nat)
    requires max < num.Length
    ensures total == Space(num[..], max)
  {
    total := 0;
    var i := max;
    while i > 0
      invariant 0 <= i <= max && total + Space(num[..], i) * Pow2(max - i) == Space(num[..], max)
    {
      ShiftOne(Space(num[..], i - 1), num[i], Pow2(max - i));
      total := total + num[i] * Pow2(max - i);
      i := i - 1;
    }
  }

  lemma ShiftOne(a: nat, b: nat, p: nat)
    ensures (2 * a + b) * p == b * p + a * (2 * p)
  {
  }
}
