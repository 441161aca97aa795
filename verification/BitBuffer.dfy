/** The decompressor's bit buffer: `n` bits held in the low end of a 64-bit word. */
module BitBuffer {
  import opened Bits

  datatype BitBuf = BitBuf(v: nat, n: nat) {
    predicate Ok() {
      v < Pow2(n) && n <= 64
    }

    /** The bits held, in stream order. */
    function Stream(): (s: Stream)
      ensures |s| == n
    {
      ToBits(v, n)
    }
  }

  /** All that is still to come: the bits held, then the bytes not yet read. */
  function Rest(b: BitBuf, tail: seq<byte>): Stream {
    b.Stream() + BytesToBits(tail)
  }

  lemma DivModUnique(x: nat, p: nat, hi: nat, lo: nat)
    requires p > 0 && x == lo + p * hi && lo < p
    ensures x / p == hi && x % p == lo
  {
    var q := x / p;
    assert q < hi ==> p * (q + 1) <= p * hi;
    assert hi < q ==> p * (hi + 1) <= p * q;
  }

  function Push(b: BitBuf, c: byte): BitBuf {
    BitBuf(b.v + Pow2(b.n) * c, b.n + 8)
  }

  lemma ByteFits(p: nat, v: nat, c: byte)
    requires v < p
    ensures v + p * c < p * 256
  {
    assert p * c <= p * 255;
  }

  lemma PushAppends(b: BitBuf, c: byte)
    requires b.Ok() && b.n <= 56
    ensures Push(b, c).Ok() && Push(b, c).Stream() == b.Stream() + BytesToBits([c])
  {
    ToBitsAppend(b.v, b.n, c, 8);
    BytesToBitsOne(c);
    ByteFits(Pow2(b.n), b.v, c);
    var w := 8;
    Pow2Add(b.n, w);
    Pow2Values();
  }

  function TakeValue(b: BitBuf, k: nat): nat {
    b.v % Pow2(k)
  }

  function Quotient(a: nat, b: nat): nat
    requires b > 0
  {
    a / b
  }

  function Drop(b: BitBuf, k: nat): BitBuf
    requires k <= b.n
  {
    BitBuf(Quotient(b.v, Pow2(k)), b.n - k)
  }

  lemma TakeSplits(b: BitBuf, k: nat)
    requires b.Ok() && k <= b.n
    ensures TakeValue(b, k) == Value(b.Stream()[..k]) < Pow2(k)
    ensures Drop(b, k).Ok() && Drop(b, k).Stream() == b.Stream()[k..]
  {
    var lo, hi := b.Stream()[..k], b.Stream()[k..];
    assert b.Stream() == lo + hi;
    ValueOfToBits(b.v, b.n);
    ValueAppend(lo, hi);
    ValueBound(lo);
    ValueBound(hi);
    DivModUnique(b.v, Pow2(k), Value(hi), Value(lo));
    ToBitsOfValue(hi);
  }

  /** Forgetting the top byte of the buffer, to give it back to the input. */
  function Unread(b: BitBuf): BitBuf
    requires b.n >= 8
  {
    BitBuf(b.v % Pow2(b.n - 8), b.n - 8)
  }

  lemma UnreadDrops(b: BitBuf)
    requires b.Ok() && b.n >= 8
    ensures Unread(b).Ok() && Unread(b).Stream() == b.Stream()[..b.n - 8]
  {
    var k := b.n - 8;
    TakeSplits(b, k);
    ToBitsOfValue(b.Stream()[..k]);
  }

  /** The first `k` bits of the buffer, with zeros for the bits it does not hold. */
  lemma {:induction false} PadBit(v: nat, n: nat, k: nat)
    requires k < n
    ensures ToBits(v, n)[k] == (Shr(v, k) % 2 == 1)
    decreases k
  {
    if k > 0 {
      PadBit(v / 2, n - 1, k - 1);
    }
  }

  lemma {:induction false} PadPrefix(v: nat, m: nat, n: nat)
    requires m <= n
    ensures ToBits(v, n)[..m] == ToBits(v, m)
    decreases m
  {
    ToBitsSplit(v, m, n - m);
  }

  /** Bits taken from the input and still held: after `used`, the buffer holds what was there at
      the start plus the bytes read since. */
  ghost predicate HeldAfter(b: BitBuf, start: Bits.Stream, used: Bits.Stream, inp: seq<byte>, cur: nat) {
    b.Ok() && cur <= |inp| && used + b.Stream() == start + BytesToBits(inp[..cur])
  }

  lemma FetchKeepsRest(b: BitBuf, inp: seq<byte>, cur: nat, future: seq<byte>)
    requires b.Ok() && cur < |inp| && b.n <= 56
    ensures Rest(Push(b, inp[cur]), inp[cur + 1..] + future) == Rest(b, inp[cur..] + future)
  {
    PushAppends(b, inp[cur]);
    var tail := inp[cur + 1..] + future;
    assert inp[cur..] + future == [inp[cur]] + tail;
    BytesToBitsAppend([inp[cur]], tail);
  }

  lemma FetchKeepsHeld(b: BitBuf, start: Bits.Stream, used: Bits.Stream, inp: seq<byte>, cur: nat)
    requires HeldAfter(b, start, used, inp, cur) && cur < |inp| && b.n <= 56
    ensures HeldAfter(Push(b, inp[cur]), start, used, inp, cur + 1)
  {
    PushAppends(b, inp[cur]);
    assert inp[..cur + 1] == inp[..cur] + [inp[cur]];
    BytesToBitsAppend(inp[..cur], [inp[cur]]);
    assert used + (b.Stream() + BytesToBits([inp[cur]])) == (used + b.Stream()) + BytesToBits([inp[cur]]);
  }

  /** Reading one byte neither loses nor invents bits. */
  lemma FetchKeeps(b: BitBuf, start: Bits.Stream, used: Bits.Stream, inp: seq<byte>, cur: nat, future: seq<byte>)
    requires HeldAfter(b, start, used, inp, cur) && cur < |inp| && b.n <= 56
    ensures HeldAfter(Push(b, inp[cur]), start, used, inp, cur + 1)
    ensures Rest(Push(b, inp[cur]), inp[cur + 1..] + future) == Rest(b, inp[cur..] + future)
  {
    FetchKeepsHeld(b, start, used, inp, cur);
    FetchKeepsRest(b, inp, cur, future);
  }

  lemma DropKeeps(b: BitBuf, start: Bits.Stream, used: Bits.Stream, inp: seq<byte>, cur: nat, tail: seq<byte>, k: nat)
    requires HeldAfter(b, start, used, inp, cur) && k <= b.n
    ensures HeldAfter(Drop(b, k), start, used + b.Stream()[..k], inp, cur)
    ensures Rest(Drop(b, k), tail) == Rest(b, tail)[k..]
    ensures TakeValue(b, k) == Value(Rest(b, tail)[..k]) < Pow2(k)
  {
    TakeSplits(b, k);
    assert used + b.Stream()[..k] + b.Stream()[k..] == used + b.Stream();
    assert Rest(b, tail)[..k] == b.Stream()[..k];
  }

  /** Giving a byte back: it is the top byte of the buffer that was read last. */
  lemma UnreadKeeps(b: BitBuf, start: Bits.Stream, used: Bits.Stream, inp: seq<byte>, cur: nat, future: seq<byte>)
    requires HeldAfter(b, start, used, inp, cur) && cur > 0 && b.n >= 8
    ensures HeldAfter(Unread(b), start, used, inp, cur - 1)
    ensures Rest(Unread(b), inp[cur - 1..] + future) == Rest(b, inp[cur..] + future)
  {
    hide BytesToBits;
    UnreadDrops(b);
    var c := inp[cur - 1];
    assert inp[..cur] == inp[..cur - 1] + [c];
    BytesToBitsAppend(inp[..cur - 1], [c]);
    var all := used + b.Stream();
    var front := start + BytesToBits(inp[..cur - 1]);
    assert all == front + BytesToBits([c]);
    assert all[..|all| - 8] == front && all[..|all| - 8] == used + b.Stream()[..b.n - 8];
    assert all[|all| - 8..] == BytesToBits([c]) && all[|all| - 8..] == b.Stream()[b.n - 8..];
    assert b.Stream() == b.Stream()[..b.n - 8] + BytesToBits([c]);
    assert inp[cur - 1..] + future == [c] + (inp[cur..] + future);
    BytesToBitsAppend([c], inp[cur..] + future);
  }

  // ----- reading from a call's input

  datatype Cursor = Cursor(b: BitBuf, cur: nat)

  /** The buffer holds the last of the bits that were there when the call began and came in since. */
  ghost predicate Held(c: Cursor, start: Bits.Stream, inp: seq<byte>) {
    c.b.n <= 61 && exists used :: HeldAfter(c.b, start, used, inp, c.cur)
  }

  ghost function RestOf(c: Cursor, inp: seq<byte>, future: seq<byte>): Bits.Stream
    requires c.cur <= |inp|
  {
    Rest(c.b, inp[c.cur..] + future)
  }

  /** Bits that can still be had in this call. */
  function Avail(c: Cursor, inp: seq<byte>): int {
    c.b.n + 8 * (|inp| - c.cur)
  }

  /** `d` comes from `c` by reading bytes only. */
  ghost predicate Fetched(c: Cursor, d: Cursor, start: Bits.Stream, inp: seq<byte>, future: seq<byte>) {
    && Held(d, start, inp) && c.cur <= d.cur <= |inp| && Avail(d, inp) == Avail(c, inp)
    && RestOf(d, inp, future) == RestOf(c, inp, future)
  }

  method FetchByte(c: Cursor, inp: seq<byte>, ghost start: Bits.Stream, ghost future: seq<byte>) returns (d: Cursor)
    requires Held(c, start, inp) && c.cur < |inp| && c.b.n <= 53
    ensures Fetched(c, d, start, inp, future) && d == Cursor(Push(c.b, inp[c.cur]), c.cur + 1)
  {
    ghost var used :| HeldAfter(c.b, start, used, inp, c.cur);
    FetchKeeps(c.b, start, used, inp, c.cur, future);
    d := Cursor(Push(c.b, inp[c.cur]), c.cur + 1);
    assert HeldAfter(d.b, start, used, inp, d.cur);
  }

  /** Reads bytes until the buffer holds `n` bits or the input of this call is used up. */
  method NeedBits(c: Cursor, n: nat, inp: seq<byte>, ghost start: Bits.Stream, ghost future: seq<byte>) returns (d: Cursor)
    requires Held(c, start, inp) && n <= 48
    ensures Fetched(c, d, start, inp, future) && (d.b.n >= n || d.cur == |inp|)
    ensures d.b.n >= c.b.n && (c.b.n >= n ==> d == c) && (c.b.n < n ==> d.b.n < n + 8)
  {
    d := c;
    while d.b.n < n && d.cur < |inp|
      invariant Fetched(c, d, start, inp, future)
      invariant d.b.n >= c.b.n && (c.b.n >= n ==> d == c) && (c.b.n < n ==> d.b.n < n + 8)
    {
      d := FetchByte(d, inp, start, future);
    }
  }

  /** Takes `k` bits out of the buffer. */
  method TakeBits(c: Cursor, k: nat, inp: seq<byte>, ghost start: Bits.Stream, ghost future: seq<byte>)
    returns (v: nat, d: Cursor)
    requires Held(c, start, inp) && k <= c.b.n
    ensures d == Cursor(Drop(c.b, k), c.cur) && Held(d, start, inp) && Avail(d, inp) == Avail(c, inp) - k
    ensures |RestOf(c, inp, future)| >= k && RestOf(d, inp, future) == RestOf(c, inp, future)[k..]
    ensures v == Value(RestOf(c, inp, future)[..k]) < Pow2(k)
  {
    ghost var used :| HeldAfter(c.b, start, used, inp, c.cur);
    DropKeeps(c.b, start, used, inp, c.cur, inp[c.cur..] + future, k);
    v, d := TakeValue(c.b, k), Cursor(Drop(c.b, k), c.cur);
    assert HeldAfter(d.b, start, used + c.b.Stream()[..k], inp, d.cur);
  }

  /** A number of bits that is whole bytes. */
  predicate WholeBytes(n: nat) {
    n == 0 || (n >= 8 && WholeBytes(n - 8))
  }

  lemma {:induction false} WholeOfBytes(n: nat)
    ensures WholeBytes(8 * n)
    decreases n
  {
    if n > 0 {
      WholeOfBytes(n - 1);
    }
  }

  lemma {:induction false} DropsToByte(n: nat)
    ensures n % 8 <= n && WholeBytes(n - n % 8)
    decreases n
  {
    if n >= 8 {
      DropsToByte(n - 8);
    }
  }

  /** Gives whole bytes that were read too far back to the input. */
  method PutBack(c: Cursor, inp: seq<byte>, ghost start: Bits.Stream, ghost future: seq<byte>) returns (d: Cursor)
    requires Held(c, start, inp)
    ensures Held(d, start, inp) && RestOf(d, inp, future) == RestOf(c, inp, future)
    ensures d.cur <= c.cur && (d.cur == 0 || d.b.n < 8) && (WholeBytes(c.b.n) ==> WholeBytes(d.b.n))
  {
    d := c;
    while d.cur > 0 && d.b.n >= 8
      invariant Held(d, start, inp) && d.cur <= c.cur && RestOf(d, inp, future) == RestOf(c, inp, future)
      invariant (WholeBytes(c.b.n) ==> WholeBytes(d.b.n))
    {
      ghost var used :| HeldAfter(d.b, start, used, inp, d.cur);
      UnreadKeeps(d.b, start, used, inp, d.cur, future);
      d := Cursor(Unread(d.b), d.cur - 1);
      assert HeldAfter(d.b, start, used, inp, d.cur);
    }
  }
}
