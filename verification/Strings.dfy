/** Ordering and splitting of strings. */
module Strings {

  /** Negative, zero or positive as `a` is before, equal to or after `b`, character by character. */
  function Compare(a: string, b: string): int
    decreases |a|
  {
    if a == [] || b == [] then |a| - |b|
    else if a[0] != b[0] then a[0] as int - b[0] as int
    else Compare(a[1..], b[1..])
  }

  predicate LessAt(a: string, b: string, k: nat) {
    k <= |a| && k < |b| && a[..k] == b[..k] && (k < |a| ==> a[k] < b[k])
  }

  lemma LessInTail(a: string, b: string, k: nat)
    requires a != [] && b != [] && a[0] == b[0]
    ensures LessAt(a, b, k + 1) <==> LessAt(a[1..], b[1..], k)
  {
    if k < |a| && k < |b| {
      assert a[..k + 1] == [a[0]] + a[1..][..k] && b[..k + 1] == [b[0]] + b[1..][..k];
      assert a[1..][..k] == a[..k + 1][1..] && b[1..][..k] == b[..k + 1][1..];
    }
  }

  lemma LessAtOnce(a: string, b: string, k: nat)
    requires a == [] || b == [] || a[0] != b[0]
    ensures LessAt(a, b, k) <==> k == 0 && b != [] && (a == [] || a[0] < b[0])
  {
    if 0 < k <= |a| && k <= |b| {
      assert a[..k][0] == a[0] && b[..k][0] == b[0];
    }
  }

  lemma {:induction false} CompareFinds(a: string, b: string)
    ensures Compare(a, b) < 0 <==> exists k: nat :: LessAt(a, b, k)
    decreases |a|
  {
    hide LessAt;
    if a == [] || b == [] || a[0] != b[0] {
      forall k: nat
        ensures LessAt(a, b, k) <==> k == 0 && b != [] && (a == [] || a[0] < b[0])
      {
        LessAtOnce(a, b, k);
      }
      assert LessAt(a, b, 0) <==> b != [] && (a == [] || a[0] < b[0]);
    } else {
      CompareFinds(a[1..], b[1..]);
      forall k: nat
        ensures LessAt(a, b, k + 1) <==> LessAt(a[1..], b[1..], k)
      {
        LessInTail(a, b, k);
      }
      NotAtOnce(a, b);
      if k: nat :| LessAt(a, b, k) {
        LessInTail(a, b, k - 1);
      }
    }
  }

  lemma NotAtOnce(a: string, b: string)
    requires a != [] && b != [] && a[0] == b[0]
    ensures !LessAt(a, b, 0)
  {
  }

  /** A string is before another if it ends where the other goes on, or has the lesser character at the first
      place where they differ. */
  lemma CompareMeans(a: string, b: string)
    ensures Compare(a, b) < 0
      <==> exists k :: 0 <= k <= |a| && k < |b| && a[..k] == b[..k] && (k < |a| ==> a[k] < b[k])
  {
    CompareFinds(a, b);
    if Compare(a, b) < 0 {
      var k: nat :| LessAt(a, b, k);
      assert 0 <= k <= |a| && k < |b| && a[..k] == b[..k];
    }
    if k :| 0 <= k <= |a| && k < |b| && a[..k] == b[..k] && (k < |a| ==> a[k] < b[k]) {
      assert LessAt(a, b, k);
    }
  }

  lemma {:induction false} CompareSwap(a: string, b: string)
    ensures Compare(a, b) < 0 <==> Compare(b, a) > 0
    ensures Compare(a, b) == 0 <==> a == b
    decreases |a|
  {
    if a != [] && b != [] {
      assert a == [a[0]] + a[1..] && b == [b[0]] + b[1..];
      CompareSwap(a[1..], b[1..]);
    }
  }

  lemma {:induction false} CompareTrans(a: string, b: string, c: string)
    requires Compare(a, b) <= 0 && Compare(b, c) <= 0
    ensures Compare(a, c) <= 0 && (Compare(a, b) < 0 || Compare(b, c) < 0 ==> Compare(a, c) < 0)
    decreases |a|
  {
    if a != [] && b != [] && c != [] && a[0] == b[0] == c[0] {
      CompareTrans(a[1..], b[1..], c[1..]);
    }
  }

  // ----- splitting at a character

  /** The first place of `c` in `s` from `from` on, or the length of `s`. */
  function Find(s: string, c: char, from: nat): (i: nat)
    requires from <= |s|
    ensures from <= i <= |s| && (i < |s| ==> s[i] == c) && c !in s[from..i]
    decreases |s| - from
  {
    if from == |s| || s[from] == c then from
    else
      var i := Find(s, c, from + 1);
      assert s[from..i] == [s[from]] + s[from + 1..i];
      i
  }

  /** The parts of `s` between the places of `c`: one more than there are places. */
  function Split(s: string, c: char): (parts: seq<string>)
    ensures |parts| >= 1 && forall i :: 0 <= i < |parts| ==> c !in parts[i]
    decreases |s|
  {
    var i := Find(s, c, 0);
    assert s[0..i] == s[..i];
    if i == |s| then [s] else [s[..i]] + Split(s[i + 1..], c)
  }

  function Join(parts: seq<string>, c: char): string
    requires |parts| >= 1
  {
    if |parts| == 1 then parts[0] else parts[0] + [c] + Join(parts[1..], c)
  }

  lemma {:induction false} FindSkips(a: string, c: char, b: string, from: nat)
    requires c !in a && from <= |a|
    ensures Find(a + [c] + b, c, from) == |a|
    decreases |a| - from
  {
    if from < |a| {
      assert (a + [c] + b)[from] == a[from];
      FindSkips(a, c, b, from + 1);
    }
  }

  lemma {:induction false} FindNothing(a: string, c: char, from: nat)
    requires c !in a && from <= |a|
    ensures Find(a, c, from) == |a|
    decreases |a| - from
  {
    if from < |a| {
      FindNothing(a, c, from + 1);
    }
  }

  lemma SplitFirst(a: string, c: char, b: string)
    requires c !in a
    ensures Split(a + [c] + b, c) == [a] + Split(b, c)
  {
    var s := a + [c] + b;
    FindSkips(a, c, b, 0);
    assert s[..|a|] == a && s[|a| + 1..] == b;
  }

  lemma {:induction false} SplitOfJoin(parts: seq<string>, c: char)
    requires |parts| >= 1 && forall i :: 0 <= i < |parts| ==> c !in parts[i]
    ensures Split(Join(parts, c), c) == parts
    decreases |parts|
  {
    if |parts| == 1 {
      FindNothing(parts[0], c, 0);
    } else {
      hide Split;
      SplitFirst(parts[0], c, Join(parts[1..], c));
      SplitOfJoin(parts[1..], c);
    }
  }

  lemma {:induction false} JoinOfSplit(s: string, c: char)
    ensures Join(Split(s, c), c) == s
    decreases |s|
  {
    var i := Find(s, c, 0);
    if i < |s| {
      JoinOfSplit(s[i + 1..], c);
      assert ([s[..i]] + Split(s[i + 1..], c))[1..] == Split(s[i + 1..], c);
      assert s == s[..i] + [c] + s[i + 1..];
    }
  }
}
