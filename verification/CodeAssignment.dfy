/** Canonical codes given out from code sizes, as the compressor does for its tables. */
module CodeAssignment {
  import opened Bits
  import opened Canonical
  import opened LengthLimit

  // ----- codes from sizes

  predicate CountsUpTo(num: seq<nat>, sizes: Sizes, limit: nat) {
    |num| > limit && forall l :: 1 <= l <= limit ==> num[l] == Count(sizes, l)
  }

  /** Code space up to a length, seen from the counters and from the canonical codes. */
  lemma {:induction false} SpaceIsFirst(num: seq<nat>, sizes: Sizes, limit: nat, l: nat)
    requires CountsUpTo(num, sizes, limit) && 1 <= l <= limit
    ensures Space(num, l) == First(sizes, l) + Count(sizes, l)
  {
    if l > 1 {
      SpaceIsFirst(num, sizes, limit, l - 1);
    }
  }

  lemma {:induction false} NoneOfSize(sizes: Sizes, l: nat)
    requires forall i :: 0 <= i < |sizes| ==> sizes[i] != l
    ensures Count(sizes, l) == 0
  {
    if sizes != [] {
      NoneOfSize(sizes[..|sizes| - 1], l);
    }
  }

  lemma {:induction false} FirstAboveLimit(sizes: Sizes, limit: nat, l: nat)
    requires 1 <= limit <= l <= MAX_SIZE && forall i :: 0 <= i < |sizes| ==> sizes[i] <= limit
    requires First(sizes, limit) + Count(sizes, limit) == Pow2(limit)
    ensures First(sizes, l) + Count(sizes, l) == Pow2(l)
    decreases l
  {
    if l > limit {
      FirstAboveLimit(sizes, limit, l - 1);
      NoneOfSize(sizes, l);
    }
  }

  /** A full code at the limit is exactly what the decompressor asks for. */
  lemma FullIsComplete(num: seq<nat>, sizes: Sizes, limit: nat)
    requires 1 <= limit <= MAX_SIZE && CountsUpTo(num, sizes, limit) && Space(num, limit) == Pow2(limit)
    requires forall i :: 0 <= i < |sizes| ==> sizes[i] <= limit
    ensures Complete(sizes)
  {
    SpaceIsFirst(num, sizes, limit, limit);
    FirstAboveLimit(sizes, limit, MAX_SIZE);
    Pow2Values();
  }

  /** Codes are right for the first `i` symbols. */
  ghost predicate CodesOk(codes: seq<nat>, sizes: Sizes, i: nat) {
    i <= |sizes| && i <= |codes| &&
    forall s :: 0 <= s < i && sizes[s] > 0 ==> codes[s] < Pow2(sizes[s]) && ToBits(codes[s], sizes[s]) == SymbolBits(sizes, s)
  }

  ghost predicate NextCodes(next: seq<nat>, sizes: Sizes, i: nat, limit: nat) {
    i <= |sizes| && |next| > limit &&
    forall l :: 1 <= l <= limit ==> NextCode(next, sizes, i, l)
  }

  ghost predicate NextCode(next: seq<nat>, sizes: Sizes, i: nat, l: nat)
    requires i <= |sizes| && l < |next|
  {
    next[l] == First(sizes, l) + Count(sizes[..i], l)
  }

  lemma {:induction false} CountSnoc(sizes: Sizes, i: nat, l: nat)
    requires i < |sizes|
    ensures Count(sizes[..i + 1], l) == Count(sizes[..i], l) + (if sizes[i] == l then 1 else 0)
  {
    assert sizes[..i + 1][..i] == sizes[..i];
  }

  lemma NextCodesStep(next: seq<nat>, sizes: Sizes, i: nat, limit: nat)
    requires NextCodes(next, sizes, i, limit) && i < |sizes| && sizes[i] <= limit
    ensures sizes[i] == 0 ==> NextCodes(next, sizes, i + 1, limit)
    ensures sizes[i] > 0 ==> NextCodes(next[sizes[i] := next[sizes[i]] + 1], sizes, i + 1, limit)
    ensures sizes[i] > 0 ==> next[sizes[i]] == Code(sizes, i)
  {
    var i' := i + 1;
    var next' := if sizes[i] > 0 then next[sizes[i] := next[sizes[i]] + 1] else next;
    forall l: nat | 1 <= l <= limit
      ensures NextCode(next', sizes, i', l)
    {
      assert NextCode(next, sizes, i, l);
      CountSnoc(sizes, i, l);
    }
    if sizes[i] > 0 {
      assert NextCode(next, sizes, i, sizes[i]);
    }
  }

  method FirstCodes(num: array<nat>, limit: nat, ghost sizes: Sizes) returns (next: array<nat>)
    requires 1 <= limit < num.Length && CountsUpTo(num[..], sizes, limit)
    ensures fresh(next) && NextCodes(next[..], sizes, 0, limit)
  {
    hide First, CountsUpTo, NextCodes;
    next := new nat[MAX_SUPPORTED + 1 + limit](i => 0);
    var j := 0;
    ghost var counts := num[..];
    FirstStarts(sizes);
    for i := 2 to limit + 1
      invariant j == First(sizes, i - 1)
      invariant forall l :: 1 <= l < i ==> next[l] == First(sizes, l)
    {
      FirstStep(counts, sizes, limit, i);
      assert counts[i - 1] == num[i - 1];
      j := (j + num[i - 1]) * 2;
      next[i] := j;
    }
    NextAtStart(next[..], sizes, limit);
  }

  lemma FirstStarts(sizes: Sizes)
    ensures First(sizes, 1) == 0
  {
  }

  lemma FirstStep(num: seq<nat>, sizes: Sizes, limit: nat, i: nat)
    requires CountsUpTo(num, sizes, limit) && 2 <= i <= limit < |num|
    ensures First(sizes, i) == (First(sizes, i - 1) + num[i - 1]) * 2
  {
    hide Count;
  }

  lemma NextAtStart(next: seq<nat>, sizes: Sizes, limit: nat)
    requires |next| > limit && forall l :: 1 <= l <= limit ==> next[l] == First(sizes, l)
    ensures NextCodes(next, sizes, 0, limit)
  {
    hide First;
    assert sizes[..0] == [];
    forall l: nat | 1 <= l <= limit
      ensures NextCode(next, sizes, 0, l)
    {
    }
  }

  /** Gives every used symbol its canonical code, bit-reversed for the LSB-first bit buffer. */
  method AssignCodes(num: array<nat>, sizes: array<nat>, codes: array<nat>, tableLen: nat, limit: nat)
    requires tableLen <= sizes.Length && tableLen <= codes.Length && sizes != codes && num != codes
    requires 1 <= limit < num.Length && CountsUpTo(num[..], sizes[..tableLen], limit)
    requires Fits(sizes[..tableLen]) && forall i :: 0 <= i < tableLen ==> sizes[i] <= limit
    modifies codes
    ensures CodesOk(codes[..], sizes[..tableLen], tableLen)
  {
    ghost var z := sizes[..tableLen];
    var next := FirstCodes(num, limit, z);
    for i := 0 to tableLen
      invariant sizes[..tableLen] == z
      invariant NextCodes(next[..], z, i, limit)
      invariant CodesOk(codes[..], z, i)
    {
      var codeSize := sizes[i];
      assert codeSize == z[i];
      NextCodesStep(next[..], z, i, limit);
      if codeSize == 0 {
        continue;
      }
      ghost var n: seq<nat> := next[..];
      var code := next[codeSize];
      next[codeSize] := next[codeSize] + 1;
      assert next[..] == n[codeSize := n[codeSize] + 1];
      CodeInRange(z, i);
      var rev := ReverseCode(code, codeSize);
      codes[i] := rev;
    }
  }
}
