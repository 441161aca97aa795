/** Canonical Huffman codes (RFC 1951, section 3.2.2): the code of every symbol is fixed by the
    sequence of code sizes alone, size 0 meaning that the symbol is not used. */
module Canonical {
  import opened Bits

  type Sizes = seq<nat>

  const MAX_SIZE := 15

  /** How many symbols have code size `l`. */
  function Count(sizes: Sizes, l: nat): (n: nat)
    ensures n <= |sizes|
  {
    if sizes == [] then 0
    else Count(sizes[..|sizes| - 1], l) + (if sizes[|sizes| - 1] == l then 1 else 0)
  }

  /** The first code of size `l`: the value `next_code[l]` starts from. */
  function First(sizes: Sizes, l: nat): nat {
    if l <= 1 then 0 else 2 * (First(sizes, l - 1) + Count(sizes, l - 1))
  }

  function Code(sizes: Sizes, s: nat): nat
    requires s < |sizes|
  {
    First(sizes, sizes[s]) + Count(sizes[..s], sizes[s])
  }

  /** The bits of a used symbol's code, in stream order. */
  function SymbolBits(sizes: Sizes, s: nat): (b: Stream)
    requires s < |sizes|
    ensures |b| == sizes[s]
  {
    CodeBits(Code(sizes, s), sizes[s])
  }

  predicate Valid(sizes: Sizes) {
    forall s :: 0 <= s < |sizes| ==> sizes[s] <= MAX_SIZE
  }

  /** Kraft's sum is exactly 1; this is the test `total == 65536` of the decompressor. */
  predicate Complete(sizes: Sizes) {
    Valid(sizes) && First(sizes, MAX_SIZE + 1) == 65536
  }

  /** Symbols with a code of size between 1 and `l`. */
  function Used(sizes: Sizes, l: nat): nat {
    if l == 0 then 0 else Used(sizes, l - 1) + Count(sizes, l)
  }

  /** What the decompressor accepts as a code: complete, or with at most one used symbol. */
  predicate IsTable(sizes: Sizes) {
    Valid(sizes) && (First(sizes, MAX_SIZE + 1) == 65536 || Used(sizes, MAX_SIZE) <= 1)
  }

  /** No size has more codes than there are numbers left for it. */
  ghost predicate Fits(sizes: Sizes) {
    Valid(sizes) && forall l :: 1 <= l <= MAX_SIZE ==> FitsAt(sizes, l)
  }

  predicate FitsAt(sizes: Sizes, l: nat) {
    First(sizes, l) + Count(sizes, l) <= Pow2(l)
  }

  lemma {:induction false} CompleteFits(sizes: Sizes, l: nat)
    requires Complete(sizes) && 1 <= l <= MAX_SIZE
    ensures First(sizes, l) + Count(sizes, l) <= Pow2(l)
    ensures l == MAX_SIZE ==> First(sizes, l) + Count(sizes, l) == Pow2(l)
    decreases MAX_SIZE - l
  {
    if l == MAX_SIZE {
      Pow2Values();
    } else {
      CompleteFits(sizes, l + 1);
      assert Pow2(l + 1) == 2 * Pow2(l);
    }
  }

  lemma {:induction false} FewFit(sizes: Sizes, l: nat)
    requires l >= 1 && Used(sizes, l) <= 1
    ensures First(sizes, l) + Count(sizes, l) <= (if Used(sizes, l) == 0 then 0 else Pow2(l - 1))
  {
    if l > 1 {
      FewFit(sizes, l - 1);
      assert Pow2(l - 1) == 2 * Pow2(l - 2);
    } else {
      assert Used(sizes, 1) == Used(sizes, 0) + Count(sizes, 1);
    }
  }

  lemma {:induction false} UsedMonotone(sizes: Sizes, l: nat, m: nat)
    requires l <= m
    ensures Used(sizes, l) <= Used(sizes, m)
    decreases m
  {
    if l < m {
      UsedMonotone(sizes, l, m - 1);
    }
  }

  lemma TableFits(sizes: Sizes)
    requires IsTable(sizes)
    ensures Fits(sizes)
  {
    forall l | 1 <= l <= MAX_SIZE
      ensures FitsAt(sizes, l)
    {
      if First(sizes, MAX_SIZE + 1) == 65536 {
        CompleteFits(sizes, l);
      } else {
        UsedMonotone(sizes, l, MAX_SIZE);
        FewFit(sizes, l);
        assert Pow2(l) == 2 * Pow2(l - 1);
      }
    }
  }

  // ----- codes and their ranks

  lemma {:induction false} RankBelowCount(sizes: Sizes, s: nat, t: nat)
    requires s < t <= |sizes|
    ensures Count(sizes[..s], sizes[s]) < Count(sizes[..t], sizes[s])
    decreases t
  {
    assert sizes[..t][..t - 1] == sizes[..t - 1];
    if s < t - 1 {
      RankBelowCount(sizes, s, t - 1);
    }
  }

  lemma CodeInRange(sizes: Sizes, s: nat)
    requires s < |sizes|
    ensures First(sizes, sizes[s]) <= Code(sizes, s) < First(sizes, sizes[s]) + Count(sizes, sizes[s])
    ensures Fits(sizes) && sizes[s] > 0 ==> Code(sizes, s) < Pow2(sizes[s])
  {
    RankBelowCount(sizes, s, |sizes|);
    assert sizes[..|sizes|] == sizes;
    if Fits(sizes) && sizes[s] > 0 {
      assert FitsAt(sizes, sizes[s]);
    }
  }

  lemma {:induction false} SymbolOfRank(sizes: Sizes, l: nat, r: nat) returns (s: nat)
    requires r < Count(sizes, l)
    ensures s < |sizes| && sizes[s] == l && Count(sizes[..s], l) == r
  {
    var n := |sizes| - 1;
    if sizes[n] == l && r == Count(sizes[..n], l) {
      s := n;
    } else {
      s := SymbolOfRank(sizes[..n], l, r);
      assert sizes[..n][..s] == sizes[..s];
    }
  }

  lemma {:induction false} ShrAboveFirst(sizes: Sizes, c: nat, a: nat, b: nat)
    requires 1 <= a < b && c >= First(sizes, b)
    ensures Shr(c, b - a) >= First(sizes, a) + Count(sizes, a)
    decreases b
  {
    assert c / 2 >= First(sizes, b - 1) + Count(sizes, b - 1);
    if a < b - 1 {
      ShrAboveFirst(sizes, c / 2, a, b - 1);
    } else {
      assert Shr(c, 1) == Shr(c / 2, 0);
    }
  }

  lemma ShorterIsNoPrefix(sizes: Sizes, s: nat, t: nat)
    requires Fits(sizes)
    requires s < |sizes| && t < |sizes| && 0 < sizes[s] < sizes[t]
    ensures !(SymbolBits(sizes, s) <= SymbolBits(sizes, t))
  {
    var a, b, c := sizes[s], sizes[t], Code(sizes, t);
    CodeInRange(sizes, s);
    CodeInRange(sizes, t);
    ShrAboveFirst(sizes, c, a, b);
    ShrBound(c, b - a, a);
    CodeBitsPrefix(c, b, a);
    if SymbolBits(sizes, s) <= SymbolBits(sizes, t) {
      CodeBitsInjective(Code(sizes, s), Shr(c, b - a), a);
    }
  }

  /** No code is a prefix of another: decoding is never ambiguous. */
  lemma PrefixFree(sizes: Sizes, s: nat, t: nat)
    requires Fits(sizes)
    requires s < |sizes| && t < |sizes| && sizes[s] > 0 && sizes[t] > 0
    requires SymbolBits(sizes, s) <= SymbolBits(sizes, t)
    ensures s == t
  {
    if sizes[s] < sizes[t] {
      ShorterIsNoPrefix(sizes, s, t);
    } else {
      CodeInRange(sizes, s);
      CodeInRange(sizes, t);
      CodeBitsInjective(Code(sizes, s), Code(sizes, t), sizes[s]);
      if s < t {
        RankBelowCount(sizes, s, t);
      } else if t < s {
        RankBelowCount(sizes, t, s);
      }
    }
  }

  lemma {:induction false} ShrBound(c: nat, m: nat, n: nat)
    requires c < Pow2(m + n)
    ensures Shr(c, m) < Pow2(n)
    decreases m
  {
    if m > 0 {
      assert Pow2(m + n) == 2 * Pow2(m - 1 + n);
      ShrBound(c / 2, m - 1, n);
    }
  }

  /** A complete code leaves no stream undecodable: some code starts any 15 bits. */
  lemma Covering(sizes: Sizes, bits: Stream) returns (s: nat)
    requires Complete(sizes) && |bits| >= MAX_SIZE
    ensures s < |sizes| && sizes[s] > 0 && SymbolBits(sizes, s) <= bits
  {
    s := CoveringFrom(sizes, bits, 1);
  }

  lemma {:induction false} CoveringFrom(sizes: Sizes, bits: Stream, l: nat) returns (s: nat)
    requires Complete(sizes) && 1 <= l <= MAX_SIZE <= |bits|
    requires CodeValue(bits[..l]) >= First(sizes, l)
    ensures s < |sizes| && sizes[s] > 0 && SymbolBits(sizes, s) <= bits
    decreases MAX_SIZE - l
  {
    var c := CodeValue(bits[..l]);
    if c < First(sizes, l) + Count(sizes, l) {
      s := SymbolOfRank(sizes, l, c - First(sizes, l));
      assert SymbolBits(sizes, s) == bits[..l];
    } else if l == MAX_SIZE {
      CompleteFits(sizes, l);
      assert false;
    } else {
      assert bits[..l + 1][..l] == bits[..l];
      s := CoveringFrom(sizes, bits, l + 1);
    }
  }

  // ----- decoding one symbol

  datatype Option<+T> = None | Some(value: T)

  ghost predicate Starts(sizes: Sizes, s: nat, bits: Stream) {
    s < |sizes| && sizes[s] > 0 && SymbolBits(sizes, s) <= bits
  }

  /** The one symbol whose code starts the stream, if there is one. */
  ghost function DecodeSymbol(sizes: Sizes, bits: Stream): (r: Option<nat>)
    ensures r.Some? ==> Starts(sizes, r.value, bits)
    ensures r.None? ==> forall s :: !Starts(sizes, s, bits)
  {
    if s: nat :| Starts(sizes, s, bits) then Some(s) else None
  }

  /** Encoding a symbol and decoding it from any longer stream gives it back. */
  lemma DecodeOfSymbolBits(sizes: Sizes, s: nat, bits: Stream)
    requires Fits(sizes) && Starts(sizes, s, bits)
    ensures DecodeSymbol(sizes, bits) == Some(s)
  {
    assert Starts(sizes, s, bits);
    var t := DecodeSymbol(sizes, bits).value;
    if sizes[s] <= sizes[t] {
      assert SymbolBits(sizes, s) == bits[..sizes[s]] <= bits[..sizes[t]] == SymbolBits(sizes, t);
      PrefixFree(sizes, s, t);
    } else {
      assert SymbolBits(sizes, t) == bits[..sizes[t]] <= bits[..sizes[s]] == SymbolBits(sizes, s);
      PrefixFree(sizes, t, s);
    }
  }

  lemma DecodeTotal(sizes: Sizes, bits: Stream)
    requires Complete(sizes) && |bits| >= MAX_SIZE
    ensures DecodeSymbol(sizes, bits).Some?
  {
    var s := Covering(sizes, bits);
    assert Starts(sizes, s, bits);
  }
}
