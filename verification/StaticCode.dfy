/** What the canonical codes are, symbol by symbol: the two rules of RFC 1951, section 3.2.2, and the
    fixed codes of section 3.2.6. */
module StaticCode {
  import opened Bits
  import opened Canonical
  import opened InflateSpec
  import opened Blocks

  // ----- the rules

  lemma {:induction false} CountGrows(sizes: Sizes, s: nat, t: nat, l: nat)
    requires s <= t <= |sizes|
    ensures Count(sizes[..s], l) <= Count(sizes[..t], l)
    decreases t
  {
    if s < t {
      assert sizes[..t][..t - 1] == sizes[..t - 1];
      CountGrows(sizes, s, t - 1, l);
    }
  }

  /** Codes of one size are consecutive numbers in the order of their symbols. */
  lemma SameSizeConsecutive(sizes: Sizes, s: nat, t: nat)
    requires s < t < |sizes| && sizes[s] == sizes[t] && forall u :: s < u < t ==> sizes[u] != sizes[s]
    ensures Code(sizes, t) == Code(sizes, s) + 1
  {
    NoneBetween(sizes, s, t);
  }

  lemma {:induction false} NoneBetween(sizes: Sizes, s: nat, t: nat)
    requires s < t < |sizes| && forall u :: s < u < t ==> sizes[u] != sizes[s]
    ensures Count(sizes[..t], sizes[s]) == Count(sizes[..s], sizes[s]) + 1
    decreases t
  {
    assert sizes[..t][..t - 1] == sizes[..t - 1];
    if s < t - 1 {
      NoneBetween(sizes, s, t - 1);
    }
  }

  /** A shorter code comes before a longer one cut to its size. */
  lemma ShorterFirst(sizes: Sizes, s: nat, t: nat)
    requires s < |sizes| && t < |sizes| && 0 < sizes[s] < sizes[t]
    ensures Code(sizes, s) < Shr(Code(sizes, t), sizes[t] - sizes[s])
  {
    CodeInRange(sizes, s);
    CodeInRange(sizes, t);
    ShrAboveFirst(sizes, Code(sizes, t), sizes[s], sizes[t]);
  }

  /** The first symbol of the shortest size has the code of zeros. */
  lemma {:induction false} ZerosFirst(sizes: Sizes, s: nat)
    requires s < |sizes| && sizes[s] > 0 && forall u :: 0 <= u < |sizes| ==> sizes[u] == 0 || sizes[u] >= sizes[s]
    requires forall u :: 0 <= u < s ==> sizes[u] != sizes[s]
    ensures Code(sizes, s) == 0
  {
    NoneYet(sizes[..s], sizes[s]);
    NothingShorter(sizes, sizes[s]);
  }

  lemma {:induction false} NoneYet(sizes: Sizes, l: nat)
    requires forall u :: 0 <= u < |sizes| ==> sizes[u] != l
    ensures Count(sizes, l) == 0
    decreases |sizes|
  {
    if sizes != [] {
      NoneYet(sizes[..|sizes| - 1], l);
    }
  }

  lemma {:induction false} NothingShorter(sizes: Sizes, l: nat)
    requires forall u :: 0 <= u < |sizes| ==> sizes[u] == 0 || sizes[u] >= l
    ensures First(sizes, l) == 0
    decreases l
  {
    if l > 1 {
      NoneYet(sizes, l - 1);
      NothingShorter(sizes, l - 1);
    }
  }

  /** A code is sent from its highest bit down. */
  lemma {:induction false} CodeBitAt(c: nat, n: nat, k: nat)
    requires k < n
    ensures CodeBits(c, n)[k] == (Shr(c, n - 1 - k) % 2 == 1)
    decreases n
  {
    if k < n - 1 {
      CodeBitAt(c / 2, n - 1, k);
      ShrHalf(c, n - 2 - k);
    }
  }

  lemma {:induction false} ShrHalf(c: nat, n: nat)
    ensures Shr(c, n + 1) == Shr(c / 2, n)
  {
  }

  // ----- the fixed codes

  function StaticSize(s: nat): nat {
    if s < 144 then 8 else if s < 256 then 9 else if s < 280 then 7 else 8
  }

  function StaticNumber(s: nat): nat {
    if s < 144 then 48 + s else if s < 256 then 400 + (s - 144) else if s < 280 then s - 256 else 192 + (s - 280)
  }

  lemma StaticSizes(s: nat)
    requires s < 288
    ensures |StaticLit| == 288 && StaticLit[s] == StaticSize(s)
  {
  }

  /** How many codes of a size come before symbol `s`. */
  lemma StaticBefore(s: nat, l: nat)
    requires s < 288
    ensures Count(StaticLit[..s], l) ==
      (if l == 8 then (if s < 144 then s else if s < 280 then 144 else s - 136)
       else if l == 9 then (if s < 144 then 0 else if s < 256 then s - 144 else 112)
       else if l == 7 then (if s < 256 then 0 else if s < 280 then s - 256 else 24) else 0)
  {
    var a, b, c := Repeat(8, 144), Repeat(9, 112), Repeat(7, 24);
    CountRepeat(8, 144, l);
    CountRepeat(9, 112, l);
    CountRepeat(7, 24, l);
    CountAppend(a, b, l);
    CountAppend(a + b, c, l);
    if s < 144 {
      assert StaticLit[..s] == Repeat(8, s);
      CountRepeat(8, s, l);
    } else if s < 256 {
      assert StaticLit[..s] == a + Repeat(9, s - 144);
      CountAppend(a, Repeat(9, s - 144), l);
      CountRepeat(9, s - 144, l);
    } else if s < 280 {
      assert StaticLit[..s] == a + b + Repeat(7, s - 256);
      CountAppend(a + b, Repeat(7, s - 256), l);
      CountRepeat(7, s - 256, l);
    } else {
      assert StaticLit[..s] == a + b + c + Repeat(8, s - 280);
      CountAppend(a + b + c, Repeat(8, s - 280), l);
      CountRepeat(8, s - 280, l);
    }
  }

  /** Literals 0 to 143 have 8 bits from 00110000 on, 144 to 255 9 bits from 110010000 on, 256 to 279 7 bits
      from 0000000 on, 280 to 287 8 bits from 11000000 on. */
  lemma StaticCodes(s: nat)
    requires s < 288
    ensures StaticLit[s] == StaticSize(s) && Code(StaticLit, s) == StaticNumber(s)
  {
    hide Repeat;
    StaticSizes(s);
    StaticBefore(s, StaticSize(s));
    StaticFirst(StaticSize(s));
  }

  /** Distances have 5 bits, each its own number. */
  lemma StaticDistances(s: nat)
    requires s < 32
    ensures |StaticDist| == 32 && StaticDist[s] == 5 && Code(StaticDist, s) == s
  {
    assert StaticDist[..s] == Repeat(5, s);
    CountRepeat(5, s, 5);
    StaticFirst(5);
  }

  // ----- the example of section 3.2.2

  /** Sizes 3, 3, 3, 3, 3, 2, 4, 4 give the codes 010, 011, 100, 101, 110, 00, 1110, 1111. */
  lemma ExampleCodes()
    ensures var sizes := [3, 3, 3, 3, 3, 2, 4, 4];
      forall s :: 0 <= s < 8 ==> Code(sizes, s) == [2, 3, 4, 5, 6, 0, 14, 15][s]
  {
    var sizes := [3, 3, 3, 3, 3, 2, 4, 4];
    ZerosFirst(sizes, 5);
    assert sizes[..0] == [];
    CountOf8(sizes, 2);
    CountOf8(sizes, 3);
    assert First(sizes, 2) == 2 * (First(sizes, 1) + Count(sizes, 1)) by {
      NoneYet(sizes, 1);
    }
    NoneYet(sizes, 1);
    assert First(sizes, 3) == 2;
    assert First(sizes, 4) == 14;
    assert Code(sizes, 0) == 2;
    NoneYet(sizes[..6], 4);
    assert Code(sizes, 6) == 14;
    SameSizeConsecutive(sizes, 0, 1);
    SameSizeConsecutive(sizes, 1, 2);
    SameSizeConsecutive(sizes, 2, 3);
    SameSizeConsecutive(sizes, 3, 4);
    SameSizeConsecutive(sizes, 6, 7);
  }

  lemma CountOf8(sizes: Sizes, l: nat)
    requires |sizes| == 8
    ensures Count(sizes, l) == (if sizes[0] == l then 1 else 0) + (if sizes[1] == l then 1 else 0) + (if sizes[2] == l then 1 else 0)
      + (if sizes[3] == l then 1 else 0) + (if sizes[4] == l then 1 else 0) + (if sizes[5] == l then 1 else 0)
      + (if sizes[6] == l then 1 else 0) + (if sizes[7] == l then 1 else 0)
  {
    var a, b := sizes[..4], sizes[4..];
    assert sizes == a + b;
    CountAppend(a, b, l);
    CountOf4(a, l);
    CountOf4(b, l);
  }

  lemma CountOf4(sizes: Sizes, l: nat)
    requires |sizes| == 4
    ensures Count(sizes, l) == (if sizes[0] == l then 1 else 0) + (if sizes[1] == l then 1 else 0)
      + (if sizes[2] == l then 1 else 0) + (if sizes[3] == l then 1 else 0)
  {
    assert sizes[..3][..2] == sizes[..2] && sizes[..2][..1] == sizes[..1] && sizes[..1][..0] == [];
    assert Count(sizes[..1], l) == if sizes[0] == l then 1 else 0;
    assert Count(sizes[..2], l) == Count(sizes[..1], l) + if sizes[1] == l then 1 else 0;
    assert Count(sizes[..3], l) == Count(sizes[..2], l) + if sizes[2] == l then 1 else 0;
  }
}
