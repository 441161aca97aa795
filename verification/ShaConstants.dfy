/** What the functions and constants of SHA-256 are: each function bit by bit, and the constants as the
    fractions of the cube and square roots of the first primes (FIPS 180-4, sections 4.1.2, 4.2.2 and 5.3.3). */
module ShaConstants {
  import opened Sha256
  import opened ShaVectors

  // ----- bits

  predicate Bit(x: Word, i: bv6)
    requires i < 32
  {
    (x >> i) & 1 == 1
  }

  lemma BitIs(x: Word, i: bv6)
    requires i < 32
    ensures Bit(x, i) == ((x >> i) & 1 == 1)
  {
  }

  lemma BitByMask(x: Word, i: bv6)
    requires i < 32
    ensures Bit(x, i) == (x & (1 << i) != 0)
  {
  }

  lemma ChBits(x: Word, y: Word, z: Word, i: bv6)
    requires i < 32
    ensures (((x & y) ^ (!x & z)) & (1 << i) != 0) == if (x & (1 << i) != 0) then (y & (1 << i) != 0) else (z & (1 << i) != 0)
  {
  }

  lemma ChOf(x: Word, y: Word, z: Word, i: bv6)
    requires i < 32
    ensures Bit((x & y) ^ (!x & z), i) == if Bit(x, i) then Bit(y, i) else Bit(z, i)
  {
    hide *;
    BitByMask((x & y) ^ (!x & z), i);
    BitByMask(x, i);
    BitByMask(y, i);
    BitByMask(z, i);
    ChBits(x, y, z, i);
  }

  /** Ch takes the bit of y where x has one, and that of z elsewhere. */
  lemma ChBit(x: Word, y: Word, z: Word, i: bv6)
    requires i < 32
    ensures Bit(Ch(x, y, z), i) == if Bit(x, i) then Bit(y, i) else Bit(z, i)
  {
    hide Bit;
    ChOf(x, y, z, i);
  }

  lemma MajBits(x: Word, y: Word, z: Word, i: bv6)
    requires i < 32
    ensures (((x & y) ^ (x & z) ^ (y & z)) & (1 << i) != 0)
         == if (x & (1 << i) != 0) == (y & (1 << i) != 0) then (x & (1 << i) != 0) else (z & (1 << i) != 0)
  {
  }

  lemma MajOf(x: Word, y: Word, z: Word, i: bv6)
    requires i < 32
    ensures Bit((x & y) ^ (x & z) ^ (y & z), i) == if Bit(x, i) == Bit(y, i) then Bit(x, i) else Bit(z, i)
  {
    hide *;
    BitByMask((x & y) ^ (x & z) ^ (y & z), i);
    BitByMask(x, i);
    BitByMask(y, i);
    BitByMask(z, i);
    MajBits(x, y, z, i);
  }

  /** Maj takes the bit that two of the three have. */
  lemma MajBit(x: Word, y: Word, z: Word, i: bv6)
    requires i < 32
    ensures Bit(Maj(x, y, z), i) == if Bit(x, i) == Bit(y, i) then Bit(x, i) else Bit(z, i)
  {
    hide Bit;
    MajOf(x, y, z, i);
  }

  // The other functions are sums modulo two of three rotated words, the last of them shifted in Sig0 and Sig1.

  lemma Ep0Bits(x: Word, i: bv6)
    requires i < 32
    ensures (((((x >> 2) | (x << 30)) ^ ((x >> 13) | (x << 19)) ^ ((x >> 22) | (x << 10))) >> i) & 1 == 1)
         == ((((x >> ((i + 2) & 31)) & 1 == 1) != ((x >> ((i + 13) & 31)) & 1 == 1)) != ((x >> ((i + 22) & 31)) & 1 == 1))
  {
  }

  lemma Ep0Of(x: Word, i: bv6)
    requires i < 32
    ensures Bit(((x >> 2) | (x << 30)) ^ ((x >> 13) | (x << 19)) ^ ((x >> 22) | (x << 10)), i)
         == ((Bit(x, (i + 2) & 31) != Bit(x, (i + 13) & 31)) != Bit(x, (i + 22) & 31))
  {
    hide *;
    Ep0Bits(x, i);
    BitIs(((x >> 2) | (x << 30)) ^ ((x >> 13) | (x << 19)) ^ ((x >> 22) | (x << 10)), i);
    BitIs(x, (i + 2) & 31);
    BitIs(x, (i + 13) & 31);
    BitIs(x, (i + 22) & 31);
  }

  lemma Ep0Bit(x: Word, i: bv6)
    requires i < 32
    ensures Bit(Ep0(x), i) == ((Bit(x, (i + 2) & 31) != Bit(x, (i + 13) & 31)) != Bit(x, (i + 22) & 31))
  {
    hide Bit;
    Ep0Of(x, i);
  }

  lemma Ep1Bits(x: Word, i: bv6)
    requires i < 32
    ensures (((((x >> 6) | (x << 26)) ^ ((x >> 11) | (x << 21)) ^ ((x >> 25) | (x << 7))) >> i) & 1 == 1)
         == ((((x >> ((i + 6) & 31)) & 1 == 1) != ((x >> ((i + 11) & 31)) & 1 == 1)) != ((x >> ((i + 25) & 31)) & 1 == 1))
  {
  }

  lemma Ep1Of(x: Word, i: bv6)
    requires i < 32
    ensures Bit(((x >> 6) | (x << 26)) ^ ((x >> 11) | (x << 21)) ^ ((x >> 25) | (x << 7)), i)
         == ((Bit(x, (i + 6) & 31) != Bit(x, (i + 11) & 31)) != Bit(x, (i + 25) & 31))
  {
    hide *;
    Ep1Bits(x, i);
    BitIs(((x >> 6) | (x << 26)) ^ ((x >> 11) | (x << 21)) ^ ((x >> 25) | (x << 7)), i);
    BitIs(x, (i + 6) & 31);
    BitIs(x, (i + 11) & 31);
    BitIs(x, (i + 25) & 31);
  }

  lemma Ep1Bit(x: Word, i: bv6)
    requires i < 32
    ensures Bit(Ep1(x), i) == ((Bit(x, (i + 6) & 31) != Bit(x, (i + 11) & 31)) != Bit(x, (i + 25) & 31))
  {
    hide Bit;
    Ep1Of(x, i);
  }

  lemma Sig0Bits(x: Word, i: bv6)
    requires i < 32
    ensures (((((x >> 7) | (x << 25)) ^ ((x >> 18) | (x << 14)) ^ (x >> 3)) >> i) & 1 == 1)
         == ((((x >> ((i + 7) & 31)) & 1 == 1) != ((x >> ((i + 18) & 31)) & 1 == 1)) != (i < 29 && ((x >> ((i + 3) & 31)) & 1 == 1)))
  {
  }

  lemma Sig0Of(x: Word, i: bv6)
    requires i < 32
    ensures Bit(((x >> 7) | (x << 25)) ^ ((x >> 18) | (x << 14)) ^ (x >> 3), i)
         == ((Bit(x, (i + 7) & 31) != Bit(x, (i + 18) & 31)) != (i < 29 && Bit(x, (i + 3) & 31)))
  {
    hide *;
    Sig0Bits(x, i);
    BitIs(((x >> 7) | (x << 25)) ^ ((x >> 18) | (x << 14)) ^ (x >> 3), i);
    BitIs(x, (i + 7) & 31);
    BitIs(x, (i + 18) & 31);
    BitIs(x, (i + 3) & 31);
  }

  lemma Sig0Bit(x: Word, i: bv6)
    requires i < 32
    ensures Bit(Sig0(x), i) == ((Bit(x, (i + 7) & 31) != Bit(x, (i + 18) & 31)) != (i < 29 && Bit(x, (i + 3) & 31)))
  {
    hide Bit;
    Sig0Of(x, i);
  }

  lemma Sig1Bits(x: Word, i: bv6)
    requires i < 32
    ensures (((((x >> 17) | (x << 15)) ^ ((x >> 19) | (x << 13)) ^ (x >> 10)) >> i) & 1 == 1)
         == ((((x >> ((i + 17) & 31)) & 1 == 1) != ((x >> ((i + 19) & 31)) & 1 == 1)) != (i < 22 && ((x >> ((i + 10) & 31)) & 1 == 1)))
  {
  }

  lemma Sig1Of(x: Word, i: bv6)
    requires i < 32
    ensures Bit(((x >> 17) | (x << 15)) ^ ((x >> 19) | (x << 13)) ^ (x >> 10), i)
         == ((Bit(x, (i + 17) & 31) != Bit(x, (i + 19) & 31)) != (i < 22 && Bit(x, (i + 10) & 31)))
  {
    hide *;
    Sig1Bits(x, i);
    BitIs(((x >> 17) | (x << 15)) ^ ((x >> 19) | (x << 13)) ^ (x >> 10), i);
    BitIs(x, (i + 17) & 31);
    BitIs(x, (i + 19) & 31);
    BitIs(x, (i + 10) & 31);
  }

  lemma Sig1Bit(x: Word, i: bv6)
    requires i < 32
    ensures Bit(Sig1(x), i) == ((Bit(x, (i + 17) & 31) != Bit(x, (i + 19) & 31)) != (i < 22 && Bit(x, (i + 10) & 31)))
  {
    hide Bit;
    Sig1Of(x, i);
  }

  // ----- the first primes

  predicate IsPrime(n: nat) {
    n >= 2 && forall d :: 2 <= d < n ==> n % d != 0
  }

  /** The least of the primes up to 17 that divides `n`; `n` itself if none does. */
  function Factor(n: nat): nat {
    if n % 2 == 0 then 2 else if n % 3 == 0 then 3 else if n % 5 == 0 then 5 else if n % 7 == 0 then 7
    else if n % 11 == 0 then 11 else if n % 13 == 0 then 13 else if n % 17 == 0 then 17 else n
  }

  lemma MultipleOf(d: nat, e: nat)
    requires e > 0
    ensures (d * e) % e == 0
  {
    var x := d * e;
    var q: int, r: int := x / e, x % e;
    assert x == e * q + r;
    var k: int := d - q;
    assert r == e * k;
    assert k >= 1 ==> e * k >= e;
    assert k <= -1 ==> e * k + e <= 0;
  }

  lemma DividesToo(n: nat, d: nat, q: nat)
    requires q > 0 && d > 0 && n % d == 0 && d % q == 0
    ensures n % q == 0
  {
    var m, k := n / d, d / q;
    assert n == m * d && d == k * q;
    assert m * (k * q) == (m * k) * q;
    MultipleOf(m * k, q);
  }

  /** The least prime that divides a number up to 17. */
  lemma SmallDivisor(n: nat, d: nat)
    requires 2 <= d <= 17 && d < n && n % d == 0
    ensures Factor(n) != n
  {
    var q := Factor(d);
    assert q <= 17 && d % q == 0;
    DividesToo(n, d, q);
    HasFactor(n, q);
  }

  lemma HasFactor(n: nat, q: nat)
    requires q in {2, 3, 5, 7, 11, 13, 17} && q < n && n % q == 0
    ensures Factor(n) != n
  {
  }

  lemma PrimeByFactor(n: nat)
    requires 2 <= n < 324
    ensures IsPrime(n) <==> Factor(n) == n
  {
    hide Factor;
    FactorDivides(n);
    if Factor(n) == n {
      forall d | 2 <= d < n
        ensures n % d != 0
      {
        if n % d == 0 {
          Cofactor(n, d);
          SmallDivisor(n, if d <= 17 then d else n / d);
        }
      }
    }
  }

  lemma FactorDivides(n: nat)
    requires n >= 2
    ensures 2 <= Factor(n) <= n && n % Factor(n) == 0
  {
  }

  /** One of two factors is at most 17. */
  lemma Cofactor(n: nat, d: nat)
    requires 2 <= d < n < 324 && n % d == 0
    ensures d <= 17 || (2 <= n / d <= 17 && n % (n / d) == 0)
  {
    var e := n / d;
    assert n == d * e;
    if d >= 18 {
      assert e >= 18 ==> d * e >= 18 * 18;
      assert e >= 2 by {
        assert e <= 1 ==> d * e <= d;
      }
      MultipleOf(d, e);
    }
  }

  /** How many primes there are up to `n`. */
  ghost function PrimesUpTo(n: nat): nat {
    if n < 2 then 0 else PrimesUpTo(n - 1) + (if IsPrime(n) then 1 else 0)
  }

  function Counted(n: nat): nat {
    if n < 2 then 0 else Counted(n - 1) + (if Factor(n) == n then 1 else 0)
  }

  lemma {:induction false} CountedAre(n: nat)
    requires n < 324
    ensures Counted(n) == PrimesUpTo(n)
  {
    hide IsPrime, Factor;
    if n >= 2 {
      PrimeByFactor(n);
      CountedAre(n - 1);
    }
  }

  lemma Count0()
    ensures Counted(2) == 1 && Counted(3) == 2 && Counted(5) == 3 && Counted(7) == 4
    ensures Factor(2) == 2 && Factor(3) == 3 && Factor(5) == 5 && Factor(7) == 7
  {
    assert Counted(2) == 1;
    assert Counted(3) == 2;
    assert Counted(5) == 3;
    assert Counted(7) == 4;
  }

  lemma Count1()
    requires Counted(7) == 4
    ensures Counted(11) == 5 && Counted(13) == 6 && Counted(17) == 7 && Counted(19) == 8
    ensures Factor(11) == 11 && Factor(13) == 13 && Factor(17) == 17 && Factor(19) == 19
  {
    assert Counted(11) == 5;
    assert Counted(13) == 6;
    assert Counted(17) == 7;
    assert Counted(19) == 8;
  }

  lemma Count2()
    requires Counted(19) == 8
    ensures Counted(23) == 9 && Counted(29) == 10 && Counted(31) == 11 && Counted(37) == 12
    ensures Factor(23) == 23 && Factor(29) == 29 && Factor(31) == 31 && Factor(37) == 37
  {
    assert Counted(23) == 9;
    assert Counted(29) == 10;
    assert Counted(31) == 11;
    assert Counted(37) == 12;
  }

  lemma Count3()
    requires Counted(37) == 12
    ensures Counted(41) == 13 && Counted(43) == 14 && Counted(47) == 15 && Counted(53) == 16
    ensures Factor(41) == 41 && Factor(43) == 43 && Factor(47) == 47 && Factor(53) == 53
  {
    assert Counted(41) == 13;
    assert Counted(43) == 14;
    assert Counted(47) == 15;
    assert Counted(53) == 16;
  }

  lemma Count4()
    requires Counted(53) == 16
    ensures Counted(59) == 17 && Counted(61) == 18 && Counted(67) == 19 && Counted(71) == 20
    ensures Factor(59) == 59 && Factor(61) == 61 && Factor(67) == 67 && Factor(71) == 71
  {
    assert Counted(59) == 17;
    assert Counted(61) == 18;
    assert Counted(67) == 19;
    assert Counted(71) == 20;
  }

  lemma Count5()
    requires Counted(71) == 20
    ensures Counted(73) == 21 && Counted(79) == 22 && Counted(83) == 23 && Counted(89) == 24
    ensures Factor(73) == 73 && Factor(79) == 79 && Factor(83) == 83 && Factor(89) == 89
  {
    assert Counted(73) == 21;
    assert Counted(79) == 22;
    assert Counted(83) == 23;
    assert Counted(89) == 24;
  }

  lemma Count6()
    requires Counted(89) == 24
    ensures Counted(97) == 25 && Counted(101) == 26 && Counted(103) == 27 && Counted(107) == 28
    ensures Factor(97) == 97 && Factor(101) == 101 && Factor(103) == 103 && Factor(107) == 107
  {
    assert Counted(93) == 24;
    assert Counted(97) == 25;
    assert Counted(101) == 26;
    assert Counted(103) == 27;
    assert Counted(107) == 28;
  }

  lemma Count7()
    requires Counted(107) == 28
    ensures Counted(109) == 29 && Counted(113) == 30 && Counted(127) == 31 && Counted(131) == 32
    ensures Factor(109) == 109 && Factor(113) == 113 && Factor(127) == 127 && Factor(131) == 131
  {
    assert Counted(109) == 29;
    assert Counted(113) == 30;
    assert Counted(117) == 30;
    assert Counted(121) == 30;
    assert Counted(125) == 30;
    assert Counted(127) == 31;
    assert Counted(131) == 32;
  }

  lemma Count8()
    requires Counted(131) == 32
    ensures Counted(137) == 33 && Counted(139) == 34 && Counted(149) == 35 && Counted(151) == 36
    ensures Factor(137) == 137 && Factor(139) == 139 && Factor(149) == 149 && Factor(151) == 151
  {
    assert Counted(137) == 33;
    assert Counted(139) == 34;
    assert Counted(143) == 34;
    assert Counted(147) == 34;
    assert Counted(149) == 35;
    assert Counted(151) == 36;
  }

  lemma Count9()
    requires Counted(151) == 36
    ensures Counted(157) == 37 && Counted(163) == 38 && Counted(167) == 39 && Counted(173) == 40
    ensures Factor(157) == 157 && Factor(163) == 163 && Factor(167) == 167 && Factor(173) == 173
  {
    assert Counted(157) == 37;
    assert Counted(163) == 38;
    assert Counted(167) == 39;
    assert Counted(173) == 40;
  }

  lemma Count10()
    requires Counted(173) == 40
    ensures Counted(179) == 41 && Counted(181) == 42 && Counted(191) == 43 && Counted(193) == 44
    ensures Factor(179) == 179 && Factor(181) == 181 && Factor(191) == 191 && Factor(193) == 193
  {
    assert Counted(179) == 41;
    assert Counted(181) == 42;
    assert Counted(185) == 42;
    assert Counted(189) == 42;
    assert Counted(191) == 43;
    assert Counted(193) == 44;
  }

  lemma Count11()
    requires Counted(193) == 44
    ensures Counted(197) == 45 && Counted(199) == 46 && Counted(211) == 47 && Counted(223) == 48
    ensures Factor(197) == 197 && Factor(199) == 199 && Factor(211) == 211 && Factor(223) == 223
  {
    assert Counted(197) == 45;
    assert Counted(199) == 46;
    assert Counted(203) == 46;
    assert Counted(207) == 46;
    assert Counted(211) == 47;
    assert Counted(215) == 47;
    assert Counted(219) == 47;
    assert Counted(223) == 48;
  }

  lemma Count12()
    requires Counted(223) == 48
    ensures Counted(227) == 49 && Counted(229) == 50 && Counted(233) == 51 && Counted(239) == 52
    ensures Factor(227) == 227 && Factor(229) == 229 && Factor(233) == 233 && Factor(239) == 239
  {
    assert Counted(227) == 49;
    assert Counted(229) == 50;
    assert Counted(233) == 51;
    assert Counted(239) == 52;
  }

  lemma Count13()
    requires Counted(239) == 52
    ensures Counted(241) == 53 && Counted(251) == 54 && Counted(257) == 55 && Counted(263) == 56
    ensures Factor(241) == 241 && Factor(251) == 251 && Factor(257) == 257 && Factor(263) == 263
  {
    assert Counted(241) == 53;
    assert Counted(245) == 53;
    assert Counted(249) == 53;
    assert Counted(251) == 54;
    assert Counted(257) == 55;
    assert Counted(263) == 56;
  }

  lemma Count14()
    requires Counted(263) == 56
    ensures Counted(269) == 57 && Counted(271) == 58 && Counted(277) == 59 && Counted(281) == 60
    ensures Factor(269) == 269 && Factor(271) == 271 && Factor(277) == 277 && Factor(281) == 281
  {
    assert Counted(269) == 57;
    assert Counted(271) == 58;
    assert Counted(277) == 59;
    assert Counted(281) == 60;
  }

  lemma Count15()
    requires Counted(281) == 60
    ensures Counted(283) == 61 && Counted(293) == 62 && Counted(307) == 63 && Counted(311) == 64
    ensures Factor(283) == 283 && Factor(293) == 293 && Factor(307) == 307 && Factor(311) == 311
  {
    assert Counted(283) == 61;
    assert Counted(287) == 61;
    assert Counted(291) == 61;
    assert Counted(293) == 62;
    assert Counted(297) == 62;
    assert Counted(301) == 62;
    assert Counted(305) == 62;
    assert Counted(307) == 63;
    assert Counted(311) == 64;
  }

  // ----- roots

  function Cube(x: nat): nat {
    x * x * x
  }

  /** `n` is the whole part of the cube root of `p`, and `f` the first 32 bits of its fraction. */
  predicate CubeRoot(p: nat, n: nat, f: nat) {
    Cube(n) <= p < Cube(n + 1) && f < 0x1_0000_0000
    && Cube(n * 0x1_0000_0000 + f) <= p * 0x1_0000_0000_0000_0000_0000_0000 < Cube(n * 0x1_0000_0000 + f + 1)
  }

  predicate SquareRoot(p: nat, n: nat, f: nat) {
    n * n <= p < (n + 1) * (n + 1) && f < 0x1_0000_0000
    && (n * 0x1_0000_0000 + f) * (n * 0x1_0000_0000 + f) <= p * 0x1_0000_0000_0000_0000
    && p * 0x1_0000_0000_0000_0000 < (n * 0x1_0000_0000 + f + 1) * (n * 0x1_0000_0000 + f + 1)
  }

  /** `p` is the prime number `t + 1` in order. */
  ghost predicate PrimeNumber(t: nat, p: nat) {
    IsPrime(p) && PrimesUpTo(p) == t + 1
  }

  ghost predicate ConstantOk(t: nat)
    requires t < |K|
  {
    var f := K[t] as nat;
    exists p: nat, n: nat :: PrimeNumber(t, p) && CubeRoot(p, n, f)
  }

  lemma ConstantIs(t: nat, p: nat, n: nat, k: Word, f: nat)
    requires t < |K| && K[t] == k && k as nat == f && 2 <= p < 324 && Counted(p) == t + 1 && Factor(p) == p && CubeRoot(p, n, f)
    ensures ConstantOk(t)
  {
    hide K, CubeRoot, IsPrime, PrimesUpTo, Factor;
    PrimeByFactor(p);
    CountedAre(p);
    assert PrimeNumber(t, p) && CubeRoot(p, n, K[t] as nat);
  }

  lemma SixtyFour()
    ensures |K| == 64
  {
    RowsOfEight();
  }

  lemma Roots0()
    requires |K| == 64
    ensures Counted(19) == 8 && forall t :: 0 <= t < 8 ==> ConstantOk(t)
  {
    hide K, Counted, Factor, ConstantOk;
    Constants0();
    Count0();
    Count1();
    ConstantIs(0, 2, 1, 0x428a2f98, 0x428a2f98);
    ConstantIs(1, 3, 1, 0x71374491, 0x71374491);
    ConstantIs(2, 5, 1, 0xb5c0fbcf, 0xb5c0fbcf);
    ConstantIs(3, 7, 1, 0xe9b5dba5, 0xe9b5dba5);
    ConstantIs(4, 11, 2, 0x3956c25b, 0x3956c25b);
    ConstantIs(5, 13, 2, 0x59f111f1, 0x59f111f1);
    ConstantIs(6, 17, 2, 0x923f82a4, 0x923f82a4);
    ConstantIs(7, 19, 2, 0xab1c5ed5, 0xab1c5ed5);
  }

  lemma Roots1()
    requires |K| == 64
    requires Counted(19) == 8
    ensures Counted(53) == 16 && forall t :: 8 <= t < 16 ==> ConstantOk(t)
  {
    hide K, Counted, Factor, ConstantOk;
    Constants1();
    Count2();
    Count3();
    ConstantIs(8, 23, 2, 0xd807aa98, 0xd807aa98);
    ConstantIs(9, 29, 3, 0x12835b01, 0x12835b01);
    ConstantIs(10, 31, 3, 0x243185be, 0x243185be);
    ConstantIs(11, 37, 3, 0x550c7dc3, 0x550c7dc3);
    ConstantIs(12, 41, 3, 0x72be5d74, 0x72be5d74);
    ConstantIs(13, 43, 3, 0x80deb1fe, 0x80deb1fe);
    ConstantIs(14, 47, 3, 0x9bdc06a7, 0x9bdc06a7);
    ConstantIs(15, 53, 3, 0xc19bf174, 0xc19bf174);
  }

  lemma Roots2()
    requires |K| == 64
    requires Counted(53) == 16
    ensures Counted(89) == 24 && forall t :: 16 <= t < 24 ==> ConstantOk(t)
  {
    hide K, Counted, Factor, ConstantOk;
    Constants2();
    Count4();
    Count5();
    ConstantIs(16, 59, 3, 0xe49b69c1, 0xe49b69c1);
    ConstantIs(17, 61, 3, 0xefbe4786, 0xefbe4786);
    ConstantIs(18, 67, 4, 0x0fc19dc6, 0x0fc19dc6);
    ConstantIs(19, 71, 4, 0x240ca1cc, 0x240ca1cc);
    ConstantIs(20, 73, 4, 0x2de92c6f, 0x2de92c6f);
    ConstantIs(21, 79, 4, 0x4a7484aa, 0x4a7484aa);
    ConstantIs(22, 83, 4, 0x5cb0a9dc, 0x5cb0a9dc);
    ConstantIs(23, 89, 4, 0x76f988da, 0x76f988da);
  }

  lemma Roots3()
    requires |K| == 64
    requires Counted(89) == 24
    ensures Counted(131) == 32 && forall t :: 24 <= t < 32 ==> ConstantOk(t)
  {
    hide K, Counted, Factor, ConstantOk;
    Constants3();
    Count6();
    Count7();
    ConstantIs(24, 97, 4, 0x983e5152, 0x983e5152);
    ConstantIs(25, 101, 4, 0xa831c66d, 0xa831c66d);
    ConstantIs(26, 103, 4, 0xb00327c8, 0xb00327c8);
    ConstantIs(27, 107, 4, 0xbf597fc7, 0xbf597fc7);
    ConstantIs(28, 109, 4, 0xc6e00bf3, 0xc6e00bf3);
    ConstantIs(29, 113, 4, 0xd5a79147, 0xd5a79147);
    ConstantIs(30, 127, 5, 0x06ca6351, 0x06ca6351);
    ConstantIs(31, 131, 5, 0x14292967, 0x14292967);
  }

  lemma Roots4()
    requires |K| == 64
    requires Counted(131) == 32
    ensures Counted(173) == 40 && forall t :: 32 <= t < 40 ==> ConstantOk(t)
  {
    hide K, Counted, Factor, ConstantOk;
    Constants4();
    Count8();
    Count9();
    ConstantIs(32, 137, 5, 0x27b70a85, 0x27b70a85);
    ConstantIs(33, 139, 5, 0x2e1b2138, 0x2e1b2138);
    ConstantIs(34, 149, 5, 0x4d2c6dfc, 0x4d2c6dfc);
    ConstantIs(35, 151, 5, 0x53380d13, 0x53380d13);
    ConstantIs(36, 157, 5, 0x650a7354, 0x650a7354);
    ConstantIs(37, 163, 5, 0x766a0abb, 0x766a0abb);
    ConstantIs(38, 167, 5, 0x81c2c92e, 0x81c2c92e);
    ConstantIs(39, 173, 5, 0x92722c85, 0x92722c85);
  }

  lemma Roots5()
    requires |K| == 64
    requires Counted(173) == 40
    ensures Counted(223) == 48 && forall t :: 40 <= t < 48 ==> ConstantOk(t)
  {
    hide K, Counted, Factor, ConstantOk;
    Constants5();
    Count10();
    Count11();
    ConstantIs(40, 179, 5, 0xa2bfe8a1, 0xa2bfe8a1);
    ConstantIs(41, 181, 5, 0xa81a664b, 0xa81a664b);
    ConstantIs(42, 191, 5, 0xc24b8b70, 0xc24b8b70);
    ConstantIs(43, 193, 5, 0xc76c51a3, 0xc76c51a3);
    ConstantIs(44, 197, 5, 0xd192e819, 0xd192e819);
    ConstantIs(45, 199, 5, 0xd6990624, 0xd6990624);
    ConstantIs(46, 211, 5, 0xf40e3585, 0xf40e3585);
    ConstantIs(47, 223, 6, 0x106aa070, 0x106aa070);
  }

  lemma Roots6()
    requires |K| == 64
    requires Counted(223) == 48
    ensures Counted(263) == 56 && forall t :: 48 <= t < 56 ==> ConstantOk(t)
  {
    hide K, Counted, Factor, ConstantOk;
    Constants6();
    Count12();
    Count13();
    ConstantIs(48, 227, 6, 0x19a4c116, 0x19a4c116);
    ConstantIs(49, 229, 6, 0x1e376c08, 0x1e376c08);
    ConstantIs(50, 233, 6, 0x2748774c, 0x2748774c);
    ConstantIs(51, 239, 6, 0x34b0bcb5, 0x34b0bcb5);
    ConstantIs(52, 241, 6, 0x391c0cb3, 0x391c0cb3);
    ConstantIs(53, 251, 6, 0x4ed8aa4a, 0x4ed8aa4a);
    ConstantIs(54, 257, 6, 0x5b9cca4f, 0x5b9cca4f);
    ConstantIs(55, 263, 6, 0x682e6ff3, 0x682e6ff3);
  }

  lemma Roots7()
    requires |K| == 64
    requires Counted(263) == 56
    ensures Counted(311) == 64 && forall t :: 56 <= t < 64 ==> ConstantOk(t)
  {
    hide K, Counted, Factor, ConstantOk;
    Constants7();
    Count14();
    Count15();
    ConstantIs(56, 269, 6, 0x748f82ee, 0x748f82ee);
    ConstantIs(57, 271, 6, 0x78a5636f, 0x78a5636f);
    ConstantIs(58, 277, 6, 0x84c87814, 0x84c87814);
    ConstantIs(59, 281, 6, 0x8cc70208, 0x8cc70208);
    ConstantIs(60, 283, 6, 0x90befffa, 0x90befffa);
    ConstantIs(61, 293, 6, 0xa4506ceb, 0xa4506ceb);
    ConstantIs(62, 307, 6, 0xbef9a3f7, 0xbef9a3f7);
    ConstantIs(63, 311, 6, 0xc67178f2, 0xc67178f2);
  }

  /** Every round constant is the fraction of the cube root of its prime. */
  lemma ConstantsAreRoots(t: nat)
    requires t < 64
    ensures |K| == 64 && ConstantOk(t)
  {
    hide K, Counted, ConstantOk;
    SixtyFour();
    Roots0();
    Roots1();
    Roots2();
    Roots3();
    Roots4();
    Roots5();
    Roots6();
    Roots7();
  }

  function InitialAt(t: nat): Word
    requires t < 8
  {
    match t
    case 0 => Initial.a
    case 1 => Initial.b
    case 2 => Initial.c
    case 3 => Initial.d
    case 4 => Initial.e
    case 5 => Initial.f
    case 6 => Initial.g
    case _ => Initial.h
  }

  ghost predicate InitialOk(t: nat)
    requires t < 8
  {
    var f := InitialAt(t) as nat;
    exists p: nat, n: nat :: PrimeNumber(t, p) && SquareRoot(p, n, f)
  }

  lemma InitialIs(t: nat, p: nat, n: nat, k: Word, f: nat)
    requires t < 8 && InitialAt(t) == k && k as nat == f && 2 <= p < 324 && Counted(p) == t + 1 && Factor(p) == p && SquareRoot(p, n, f)
    ensures InitialOk(t)
  {
    hide InitialAt, SquareRoot, IsPrime, PrimesUpTo, Factor;
    PrimeByFactor(p);
    CountedAre(p);
    assert PrimeNumber(t, p) && SquareRoot(p, n, InitialAt(t) as nat);
  }

  /** The words a hash starts from are the fractions of the square roots of the first eight primes. */
  lemma InitialIsRoots(t: nat)
    requires t < 8
    ensures InitialOk(t)
  {
    hide Counted, Factor, InitialOk;
    Count0();
    Count1();
    InitialIs(0, 2, 1, 0x6a09e667, 0x6a09e667);
    InitialIs(1, 3, 1, 0xbb67ae85, 0xbb67ae85);
    InitialIs(2, 5, 2, 0x3c6ef372, 0x3c6ef372);
    InitialIs(3, 7, 2, 0xa54ff53a, 0xa54ff53a);
    InitialIs(4, 11, 3, 0x510e527f, 0x510e527f);
    InitialIs(5, 13, 3, 0x9b05688c, 0x9b05688c);
    InitialIs(6, 17, 4, 0x1f83d9ab, 0x1f83d9ab);
    InitialIs(7, 19, 4, 0x5be0cd19, 0x5be0cd19);
  }
}
