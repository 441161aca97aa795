/** Bits, bytes and binary numbers in the order DEFLATE uses (RFC 1951, section 3.1.1):
    a byte's least significant bit comes first in the stream, while a Huffman code is
    sent starting from its most significant bit. A stream of bits is a `seq<bool>`. */
module Bits {

  type byte = b: nat | b < 256

  type Stream = seq<bool>

  function Pow2(n: nat): (p: nat)
    ensures p >= 1
  {
    if n == 0 then 1 else 2 * Pow2(n - 1)
  }

  lemma {:induction false} Pow2Add(m: nat, n: nat)
    ensures Pow2(m + n) == Pow2(m) * Pow2(n)
  {
    if m > 0 {
      Pow2Add(m - 1, n);
      assert Pow2(m) * Pow2(n) == 2 * (Pow2(m - 1) * Pow2(n));
    }
  }

  lemma {:induction false} Pow2Monotone(m: nat, n: nat)
    requires m <= n
    ensures Pow2(m) <= Pow2(n)
    decreases n - m
  {
    if m < n {
      Pow2Monotone(m + 1, n);
    }
  }

  lemma Pow2Values()
    ensures Pow2(0) == 1 && Pow2(1) == 2 && Pow2(2) == 4 && Pow2(3) == 8 && Pow2(4) == 16
    ensures Pow2(5) == 32 && Pow2(7) == 128 && Pow2(8) == 256 && Pow2(10) == 1024
    ensures Pow2(13) == 8192 && Pow2(15) == 32768 && Pow2(16) == 65536
  {
    assert Pow2(8) == 256 && Pow2(7) == 128 by {
      assert Pow2(4) == 16;
    }
    Pow2Add(8, 2);
    Pow2Add(8, 5);
    Pow2Add(8, 7);
    Pow2Add(8, 8);
  }

  /** The low `n` bits of `v`, least significant first. */
  function ToBits(v: nat, n: nat): (s: Stream)
    ensures |s| == n
    decreases v, n
  {
    if n == 0 then [] else [v % 2 == 1] + ToBits(v / 2, n - 1)
  }

  /** The number a stream denotes, least significant bit first. */
  function Value(s: Stream): nat {
    if s == [] then 0 else (if s[0] then 1 else 0) + 2 * Value(s[1..])
  }

  /** The low `n` bits of `c`, most significant first: the order of a Huffman code. */
  function CodeBits(c: nat, n: nat): (s: Stream)
    ensures |s| == n
    decreases c, n
  {
    if n == 0 then [] else CodeBits(c / 2, n - 1) + [c % 2 == 1]
  }

  function BytesToBits(bs: seq<byte>): (s: Stream)
    ensures |s| == 8 * |bs|
  {
    if bs == [] then [] else ToBits(bs[0], 8) + BytesToBits(bs[1..])
  }

  lemma {:induction false} ValueBound(s: Stream)
    ensures Value(s) < Pow2(|s|)
  {
    if s != [] {
      ValueBound(s[1..]);
    }
  }

  lemma {:induction false} ToBitsOfValue(s: Stream)
    ensures ToBits(Value(s), |s|) == s
  {
    if s != [] {
      ToBitsOfValue(s[1..]);
      assert Value(s) / 2 == Value(s[1..]);
      assert s == [s[0]] + s[1..];
    }
  }

  lemma {:induction false} ValueOfToBits(v: nat, n: nat)
    requires v < Pow2(n)
    ensures Value(ToBits(v, n)) == v
    decreases n
  {
    if n > 0 {
      ValueOfToBits(v / 2, n - 1);
      assert ToBits(v, n)[1..] == ToBits(v / 2, n - 1);
    }
  }

  lemma {:induction false} ValueAppend(s: Stream, t: Stream)
    ensures Value(s + t) == Value(s) + Pow2(|s|) * Value(t)
  {
    if s == [] {
      assert s + t == t;
    } else {
      ValueAppend(s[1..], t);
      assert (s + t)[1..] == s[1..] + t;
      assert Pow2(|s|) * Value(t) == 2 * (Pow2(|s| - 1) * Value(t));
    }
  }

  /** Shifting `b` left by `m` and or-ing it onto `a < 2^m` queues b's bits after a's. */
  lemma {:induction false} ToBitsAppend(a: nat, m: nat, b: nat, n: nat)
    requires a < Pow2(m)
    ensures ToBits(a + Pow2(m) * b, m + n) == ToBits(a, m) + ToBits(b, n)
    decreases m
  {
    if m == 0 {
      assert ToBits(a, m) + ToBits(b, n) == ToBits(b, n);
    } else {
      var rest := Pow2(m - 1) * b;
      assert Pow2(m) * b == 2 * rest;
      assert (a + 2 * rest) / 2 == a / 2 + rest;
      assert (a + 2 * rest) % 2 == a % 2;
      ToBitsAppend(a / 2, m - 1, b, n);
    }
  }

  /** `v` shifted right by `m` bits. */
  function Shr(v: nat, m: nat): (r: nat)
    decreases v, m
  {
    if m == 0 then v else Shr(v / 2, m - 1)
  }

  lemma {:induction false} ShrIsDivision(v: nat, m: nat, low: nat, high: nat)
    requires low < Pow2(m) && v == low + Pow2(m) * high
    ensures Shr(v, m) == high
    decreases m
  {
    if m > 0 {
      assert Pow2(m) * high == 2 * (Pow2(m - 1) * high);
      ShrIsDivision(v / 2, m - 1, low / 2, high);
    }
  }

  /** Splitting a number at bit `m` splits its bits, the low part first. */
  lemma {:induction false} ToBitsSplit(v: nat, m: nat, n: nat)
    ensures ToBits(v, m + n) == ToBits(v, m) + ToBits(Shr(v, m), n)
    decreases m
  {
    if m == 0 {
      assert ToBits(v, 0) + ToBits(v, n) == ToBits(v, n);
    } else {
      ToBitsSplit(v / 2, m - 1, n);
      assert [v % 2 == 1] + (ToBits(v / 2, m - 1) + ToBits(Shr(v, m), n)) == ToBits(v, m) + ToBits(Shr(v, m), n);
    }
  }

  lemma {:induction false} BytesToBitsAppend(a: seq<byte>, b: seq<byte>)
    ensures BytesToBits(a + b) == BytesToBits(a) + BytesToBits(b)
  {
    hide ToBits;
    if a == [] {
      assert a + b == b;
    } else {
      BytesToBitsAppend(a[1..], b);
      assert (a + b)[1..] == a[1..] + b;
    }
  }

  lemma BytesToBitsOne(b: byte)
    ensures BytesToBits([b]) == ToBits(b, 8)
  {
    assert BytesToBits([b][1..]) == [];
  }

  /** The first `m` bits of a code are the code shifted right. */
  lemma {:induction false} CodeBitsPrefix(c: nat, n: nat, m: nat)
    requires m <= n
    ensures CodeBits(c, n)[..m] == CodeBits(Shr(c, n - m), m)
    decreases n
  {
    if m == n {
    } else {
      CodeBitsPrefix(c / 2, n - 1, m);
      assert CodeBits(c, n)[..m] == CodeBits(c / 2, n - 1)[..m];
    }
  }

  lemma {:induction false} CodeBitsInjective(c: nat, d: nat, n: nat)
    requires c < Pow2(n) && d < Pow2(n)
    requires CodeBits(c, n) == CodeBits(d, n)
    ensures c == d
    decreases n
  {
    if n > 0 {
      var x, y := CodeBits(c / 2, n - 1), CodeBits(d / 2, n - 1);
      assert x == CodeBits(c, n)[..n - 1] && y == CodeBits(d, n)[..n - 1];
      assert CodeBits(c, n)[n - 1] == CodeBits(d, n)[n - 1];
      CodeBitsInjective(c / 2, d / 2, n - 1);
    }
  }

  /** Every stream of `n` bits is the code of some number below `2^n`. */
  function CodeValue(s: Stream): (c: nat)
    ensures c < Pow2(|s|) && CodeBits(c, |s|) == s
  {
    if s == [] then 0
    else
      var c := 2 * CodeValue(s[..|s| - 1]) + (if s[|s| - 1] then 1 else 0);
      assert c / 2 == CodeValue(s[..|s| - 1]);
      c
  }

  /** Reverses the low `size` bits of a code, as both the compressor and the decompressor do
      so that a code can be sent through an LSB-first bit buffer. */
  method ReverseCode(code: nat, size: nat) returns (rev: nat)
    requires code < Pow2(size)
    ensures rev < Pow2(size)
    ensures ToBits(rev, size) == CodeBits(code, size)
  {
    rev := 0;
    var c: nat, l: nat := code, size;
    while l > 0
      invariant l <= size && c < Pow2(l)
      invariant rev < Pow2(size - l)
      invariant CodeBits(code, size) == CodeBits(c, l) + ToBits(rev, size - l)
    {
      ghost var before := rev;
      rev := rev * 2 + c % 2;
      assert ToBits(rev, size - l + 1) == [c % 2 == 1] + ToBits(before, size - l);
      assert CodeBits(c, l) + ToBits(before, size - l)
          == CodeBits(c / 2, l - 1) + ([c % 2 == 1] + ToBits(before, size - l));
      c := c / 2;
      l := l - 1;
    }
    assert CodeBits(c, 0) + ToBits(rev, size) == ToBits(rev, size);
  }
}
