/** Adler-32 with the modulus deferred to the end of each block (RFC 1950, section 2.2). */
module Adler32 {
  import opened Bits

  const BASE: nat := 65521
  const BLOCK: nat := 5552

  /** The two sums. */
  datatype Sums = Sums(s1: nat, s2: nat)

  /** The definition: one byte at a time, the modulus every time. */
  function Define(s: Sums, data: seq<byte>): Sums {
    if data == [] then s
    else
      var p := Define(s, data[..|data| - 1]);
      var s1 := (p.s1 + data[|data| - 1]) % BASE;
      Sums(s1, (p.s2 + s1) % BASE)
  }

  /** The sums without any modulus. */
  function Raw(s: Sums, data: seq<byte>): Sums {
    if data == [] then s
    else
      var p := Raw(s, data[..|data| - 1]);
      var s1 := p.s1 + data[|data| - 1];
      Sums(s1, p.s2 + s1)
  }

  predicate Small(s: Sums) {
    s.s1 < BASE && s.s2 < BASE
  }

  lemma ModStep(a: nat, b: nat, x: nat, m: nat)
    requires m > 0 && a % m == b
    ensures (a + x) % m == (b + x) % m
  {
    var q := a / m;
    assert a == m * q + b;
    ModShift(b + x, q, m);
    assert a + x == b + x + m * q;
  }

  lemma {:induction false} ModShift(v: nat, q: nat, m: nat)
    requires m > 0
    ensures (v + m * q) % m == v % m
    decreases q
  {
    if q > 0 {
      ModShift(v, q - 1, m);
      assert v + m * q == (v + m * (q - 1)) + m;
      AddOne(v + m * (q - 1), m);
    }
  }

  lemma AddOne(v: nat, m: nat)
    requires m > 0
    ensures (v + m) % m == v % m
  {
    var d := (v + m) / m - v / m;
    assert m * d == m + v % m - (v + m) % m;
    assert d >= 2 ==> m * d >= 2 * m;
    assert d <= 0 ==> m * d <= 0;
  }

  /** Deferring the modulus changes nothing. */
  lemma {:induction false} DeferredIsSame(s: Sums, data: seq<byte>)
    requires Small(s)
    ensures Define(s, data) == Sums(Raw(s, data).s1 % BASE, Raw(s, data).s2 % BASE) && Small(Define(s, data))
    decreases |data|
  {
    if data != [] {
      var n := |data| - 1;
      var p, q := Define(s, data[..n]), Raw(s, data[..n]);
      DeferredIsSame(s, data[..n]);
      var x: nat := data[n];
      ModStep(q.s1, p.s1, x, BASE);
      var t := q.s1 + x;
      ModStep(t, (p.s1 + x) % BASE, q.s2, BASE);
      ModStep(q.s2, p.s2, (p.s1 + x) % BASE, BASE);
      assert t % BASE == (p.s1 + x) % BASE;
    }
  }

  /** Over a block of at most 5552 bytes neither sum leaves 32 bits. */
  lemma {:induction false} NoOverflow(s: Sums, data: seq<byte>)
    requires Small(s) && |data| <= BLOCK
    ensures Raw(s, data).s1 < BASE + 255 * |data| && Raw(s, data).s2 < BASE + (BASE + 255 * BLOCK) * |data|
    ensures Raw(s, data).s1 <= 65520 + 255 * |data|
    ensures Raw(s, data).s2 <= 65520 * (|data| + 1) + 255 * (|data| * (|data| + 1) / 2)
    ensures Raw(s, data).s1 < 0x1_0000_0000 && Raw(s, data).s2 < 0x1_0000_0000
    decreases |data|
  {
    if data != [] {
      var n := |data| - 1;
      NoOverflow(s, data[..n]);
      Triangle(n);
    }
    assert |data| * (|data| + 1) / 2 <= 5552 * 5553 / 2 by {
      Products(|data|);
    }
  }

  lemma Triangle(n: nat)
    ensures (n + 1) * (n + 2) / 2 == n * (n + 1) / 2 + n + 1
  {
    assert (n + 1) * (n + 2) == n * (n + 1) + 2 * (n + 1);
  }

  lemma Products(n: nat)
    requires n <= 5552
    ensures n * (n + 1) <= 5552 * 5553
  {
    MulLe(n, 5552, n + 1);
  }

  lemma MulLe(a: nat, b: nat, c: nat)
    requires a <= b
    ensures a * c <= b * c
  {
    assert (b - a) * c >= 0;
  }

  lemma {:induction false} DefineAppend(s: Sums, a: seq<byte>, b: seq<byte>)
    ensures Define(s, a + b) == Define(Define(s, a), b)
    decreases |b|
  {
    if b == [] {
      assert a + b == a;
    } else {
      var n := |b| - 1;
      assert (a + b)[..|a + b| - 1] == a + b[..n];
      DefineAppend(s, a, b[..n]);
    }
  }

  function Pack(s: Sums): nat {
    s.s2 * 65536 + s.s1
  }

  function Unpack(adler: nat): Sums {
    Sums(adler % 65536, adler / 65536)
  }

  /** Packing loses nothing of a pair of reduced sums, and fits 32 bits. */
  lemma UnpackPack(s: Sums)
    requires Small(s)
    ensures Unpack(Pack(s)) == s && Pack(s) < 0x1_0000_0000
  {
    ModShift(s.s1, s.s2, 65536);
    assert 65536 * (Pack(s) / 65536) == 65536 * s.s2;
  }

  /** The checksum of a piece is the start value for the next piece. */
  lemma Composes(adler: nat, a: seq<byte>, b: seq<byte>)
    requires Small(Unpack(adler))
    ensures Pack(Define(Unpack(adler), a + b)) == Pack(Define(Unpack(Pack(Define(Unpack(adler), a))), b))
  {
    DeferredIsSame(Unpack(adler), a);
    UnpackPack(Define(Unpack(adler), a));
    DefineAppend(Unpack(adler), a, b);
  }

  // ----- known checksums

  lemma {:induction false} RawPrefix(s: Sums, data: seq<byte>, x: byte)
    ensures Raw(s, data + [x]) == Sums(Raw(s, data).s1 + x, Raw(s, data).s2 + Raw(s, data).s1 + x)
  {
    assert (data + [x])[..|data|] == data;
  }

  /** The bytes of the name Wikipedia. */
  const WIKIPEDIA: seq<byte> := [0x57, 0x69, 0x6b, 0x69] + [0x70, 0x65, 0x64, 0x69, 0x61]

  lemma OneByte(s: Sums, data: seq<byte>, x: byte, now: Sums) returns (next: Sums)
    requires Raw(s, data) == now
    ensures next == Sums(now.s1 + x, now.s2 + now.s1 + x) && Raw(s, data + [x]) == next
  {
    hide Raw;
    RawPrefix(s, data, x);
    next := Raw(s, data + [x]);
  }

  lemma WikipediaSums()
    ensures Raw(Sums(1, 0), WIKIPEDIA) == Sums(920, 4582)
  {
    hide Raw;
    var s := Sums(1, 0);
    var d: seq<byte> := [];
    var now := s;
    RawNothing(s);
    now := OneByte(s, d, 0x57, now);
    d := d + [0x57];
    now := OneByte(s, d, 0x69, now);
    d := d + [0x69];
    now := OneByte(s, d, 0x6b, now);
    d := d + [0x6b];
    now := OneByte(s, d, 0x69, now);
    d := d + [0x69];
    now := OneByte(s, d, 0x70, now);
    d := d + [0x70];
    now := OneByte(s, d, 0x65, now);
    d := d + [0x65];
    now := OneByte(s, d, 0x64, now);
    d := d + [0x64];
    now := OneByte(s, d, 0x69, now);
    d := d + [0x69];
    now := OneByte(s, d, 0x61, now);
    d := d + [0x61];
    assert d == WIKIPEDIA;
  }

  lemma RawNothing(s: Sums)
    ensures Raw(s, []) == s
  {
  }

  /** The sums of `n` bytes of 255. */
  lemma {:induction false} FullBytes(n: nat)
    ensures Raw(Sums(1, 0), seq(n, _ => 255)).s1 == 1 + 255 * n
    ensures 2 * Raw(Sums(1, 0), seq(n, _ => 255)).s2 == 2 * n + 255 * (n * (n + 1))
    decreases n
  {
    if n > 0 {
      FullBytes(n - 1);
      assert seq(n, _ => 255)[..n - 1] == seq(n - 1, _ => 255);
      assert n * (n + 1) == (n - 1) * n + 2 * n;
    }
  }

  lemma ChecksumFrom(data: seq<byte>, raw: Sums)
    requires Raw(Sums(1, 0), data) == raw
    ensures Pack(Define(Unpack(1), data)) == 65536 * (raw.s2 % 65521) + raw.s1 % 65521
  {
    hide Raw, Define;
    assert Unpack(1) == Sums(1, 0);
    DeferredIsSame(Sums(1, 0), data);
  }

  /** The checksum of no bytes, of Wikipedia, and of 257 bytes of 255, in which the first sum passes 65521 and
      the second passes it many times. */
  lemma KnownChecksums()
    ensures Pack(Define(Unpack(1), [])) == 1
    ensures Pack(Define(Unpack(1), WIKIPEDIA)) == 0x11E60398
    ensures Pack(Define(Unpack(1), seq(257, _ => 255))) == 0x080F000F
  {
    hide Raw, Define, Pack, Unpack;
    RawNothing(Sums(1, 0));
    ChecksumFrom([], Sums(1, 0));
    WikipediaSums();
    ChecksumFrom(WIKIPEDIA, Sums(920, 4582));
    FullBytes(257);
    ChecksumFrom(seq(257, _ => 255), Sums(65536, 8454272));
  }

  /** What the argument may be: no memory at all, or the bytes to sum. */
  datatype Memory = Null | Bytes(bytes: seq<byte>)

  const INIT: nat := 1

  /** Unsigned 32-bit arithmetic. */
  function Word(x: nat): nat {
    x % 0x1_0000_0000
  }

  /** The sums before byte k of a block that started with s. */
  function At(s: Sums, block: seq<byte>, k: nat): Sums
    requires k <= |block|
  {
    Raw(s, block[..k])
  }

  /** One `s1 += *ptr, s2 += s1`: the 32-bit sums are the exact ones. */
  method Add(now: Sums, ghost s: Sums, block: seq<byte>, k: nat) returns (next: Sums)
    requires k < |block| <= BLOCK && Small(s) && now == At(s, block, k)
    ensures next == At(s, block, k + 1)
  {
    NoOverflow(s, block[..k + 1]);
    assert block[..k + 1][..k] == block[..k];
    var s1 := Word(now.s1 + block[k]);
    var s2 := Word(now.s2 + s1);
    next := Sums(s1, s2);
  }

  /** The inner loops over one block: eight bytes at a time, then the rest one by one, then the modulus. */
  method AddBlock(s: Sums, block: seq<byte>) returns (r: Sums)
    requires Small(s) && |block| <= BLOCK
    ensures r == Define(s, block) && Small(r)
  {
    hide At;
    var i, now := 0, s;
    assert now == At(s, block, 0) by { StartsAt(s, block); }
    while i + 7 < |block|
      invariant i <= |block| && now == At(s, block, i)
    {
      now := Add(now, s, block, i);
      now := Add(now, s, block, i + 1);
      now := Add(now, s, block, i + 2);
      now := Add(now, s, block, i + 3);
      now := Add(now, s, block, i + 4);
      now := Add(now, s, block, i + 5);
      now := Add(now, s, block, i + 6);
      now := Add(now, s, block, i + 7);
      i := i + 8;
    }
    while i < |block|
      invariant i <= |block| && now == At(s, block, i)
    {
      now := Add(now, s, block, i);
      i := i + 1;
    }
    EndsAt(s, block);
    r := Sums(now.s1 % BASE, now.s2 % BASE);
  }

  lemma StartsAt(s: Sums, block: seq<byte>)
    ensures At(s, block, 0) == s
  {
  }

  lemma EndsAt(s: Sums, block: seq<byte>)
    requires Small(s)
    ensures Define(s, block) == Sums(At(s, block, |block|).s1 % BASE, At(s, block, |block|).s2 % BASE)
    ensures Small(Define(s, block))
  {
    assert block[..|block|] == block;
    DeferredIsSame(s, block);
  }

  /** The checksum of the bytes, continuing from adler. The first block is the odd one out and may be empty. */
  method Adler32(adler: nat, ptr: Memory) returns (r: nat)
    requires Small(Unpack(adler))
    ensures ptr.Null? ==> r == 1
    ensures ptr.Bytes? ==> r == Pack(Define(Unpack(adler), ptr.bytes)) && Small(Unpack(r)) && r < 0x1_0000_0000
  {
    hide Define, Pack, Unpack;
    if ptr.Null? {
      return INIT;
    }
    var data := ptr.bytes;
    ghost var s0 := Unpack(adler);
    var s := Unpack(adler);
    var bufLen: nat, blockLen: nat := |data|, |data| % BLOCK;
    StartsEmpty(s0, data);
    while bufLen > 0
      invariant 0 <= bufLen <= |data| && Small(s) && s == Define(s0, data[..|data| - bufLen])
      invariant NextBlock(bufLen, blockLen)
      decreases bufLen, if blockLen == BLOCK then 0 else 1
    {
      var at: nat := |data| - bufLen;
      FitsNext(bufLen, blockLen);
      s := AddBlock(s, data[at..at + blockLen]);
      DefineAppend(s0, data[..at], data[at..at + blockLen]);
      assert data[..at] + data[at..at + blockLen] == data[..|data| - (bufLen - blockLen)];
      bufLen := bufLen - blockLen;
      blockLen := BLOCK;
    }
    assert data[..|data|] == data;
    UnpackPack(s);
    r := Word(Word(s.s2 * 65536) + s.s1);
    Packed(s);
  }

  lemma StartsEmpty(s: Sums, data: seq<byte>)
    ensures Define(s, data[..|data| - |data|]) == s && NextBlock(|data|, |data| % BLOCK)
  {
  }

  lemma Packed(s: Sums)
    requires Small(s)
    ensures Pack(s) == Word(Word(s.s2 * 65536) + s.s1)
  {
  }

  /** The length of the next block: the odd remainder first, whole blocks after that. */
  predicate NextBlock(bufLen: nat, blockLen: nat) {
    (blockLen == BLOCK && bufLen % BLOCK == 0) || blockLen == bufLen % BLOCK
  }

  lemma FitsNext(bufLen: nat, blockLen: nat)
    requires bufLen > 0 && NextBlock(bufLen, blockLen)
    ensures blockLen <= bufLen && blockLen <= BLOCK && NextBlock(bufLen - blockLen, BLOCK)
    ensures blockLen == 0 ==> blockLen != BLOCK
  {
    if blockLen == BLOCK {
      AddOne(bufLen - BLOCK, BLOCK);
    } else {
      ModShift(0, bufLen / BLOCK, BLOCK);
    }
  }
}
