/** Reading one Huffman symbol near the end of the input: with fewer than two bytes left, only as many
    bytes are read as the next code needs, because the stream may end right after it. */
module SymbolReader {
  import opened Bits
  import opened Canonical
  import opened BitBuffer
  import opened DecodeTable
  import opened TableLookup

  datatype Tab = Tab(look: seq<int>, tree: seq<int>)

  ghost predicate TabFor(sizes: Sizes, t: Tab) {
    TableFor(sizes, t.look, t.tree)
  }

  /** A lookup in the bits of `b` gives a code that `b` holds in full. */
  ghost predicate Enough(t: Tab, b: BitBuf)
    requires |t.look| == FAST_SIZE
  {
    b.n >= MAX_SIZE || forall sym: nat, codeLen: nat :: Found(t.look, t.tree, b.v, sym, codeLen) ==> 0 < codeLen <= b.n
  }

  lemma FoundOnce(t: Tab, v: nat, a: nat, sym: nat, codeLen: nat)
    requires |t.look| == FAST_SIZE && t.look[v % FAST_SIZE] < 0 && Found(t.look, t.tree, v, sym, codeLen)
    requires a > FAST_BITS && Follow(t.look, t.tree, v, a) >= 0
    requires forall k :: FAST_BITS <= k < a ==> Follow(t.look, t.tree, v, k) < 0
    ensures codeLen == a
  {
    var x, y := Follow(t.look, t.tree, v, codeLen), Follow(t.look, t.tree, v, a);
    assert (codeLen < a ==> x < 0) && (a < codeLen ==> y < 0);
  }

  /** While the walk is still at a node when the bits held run out, they hold no code. */
  lemma StillWalking(t: Tab, b: BitBuf, sizes: Sizes, len: nat)
    requires TabFor(sizes, t) && len >= FAST_BITS && len >= b.n && Follow(t.look, t.tree, b.v, len) < 0
    requires forall k :: FAST_BITS <= k < len ==> Follow(t.look, t.tree, b.v, k) < 0
    ensures DecodeSymbol(sizes, b.Stream()).None?
  {
    var m :| Built(sizes, |sizes|, m, t.look, t.tree);
    var p := ToBits(b.v, len);
    FollowsNodes(sizes, m, t.look, t.tree, b.v, len);
    NodeNegative(sizes, m, p);
    PadPrefix(b.v, b.n, len);
    var r := DecodeSymbol(sizes, b.Stream());
    if r.Some? {
      assert SymbolBits(sizes, r.value) <= p;
      InnerStartsNoCode(sizes, p, r.value);
    }
  }

  /** A first-level entry that is empty or longer than the bits held means they hold no code. */
  lemma EntryTooLong(t: Tab, b: BitBuf, sizes: Sizes)
    requires TabFor(sizes, t) && t.look[b.v % FAST_SIZE] >= 0
    requires var codeLen := t.look[b.v % FAST_SIZE] / 512; codeLen == 0 || b.n < codeLen
    ensures DecodeSymbol(sizes, b.Stream()).None?
  {
    var m :| Built(sizes, |sizes|, m, t.look, t.tree);
    TopRange(sizes, m, t.look, t.tree, b.v);
    var e := t.look[b.v % FAST_SIZE];
    var k := if b.n < FAST_BITS then FAST_BITS else b.n;
    PadPrefix(b.v, b.n, k);
    var r := DecodeSymbol(sizes, b.Stream());
    if r.Some? {
      assert SymbolBits(sizes, r.value) <= ToBits(b.v, k);
      FoundIsRight(sizes, t.look, t.tree, b.v, e % 512, e / 512, ToBits(b.v, k), k, r.value);
    }
  }

  /** Tries to decode from the bits held alone; it fails only if they hold no whole code. */
  method TryDecode(t: Tab, b: BitBuf, ghost sizes: Sizes) returns (enough: bool)
    requires TabFor(sizes, t)
    ensures enough ==> Enough(t, b)
    ensures !enough ==> DecodeSymbol(sizes, b.Stream()).None?
  {
    ghost var m :| Built(sizes, |sizes|, m, t.look, t.tree);
    var temp := t.look[b.v % FAST_SIZE];
    enough := false;
    if temp >= 0 {
      var codeLen := temp / 512;
      enough := codeLen > 0 && b.n >= codeLen;
      if !enough {
        EntryTooLong(t, b, sizes);
      }
    } else if b.n > FAST_BITS {
      var codeLen := FAST_BITS;
      var first := true;
      while first || (temp < 0 && b.n >= codeLen + 1)
        invariant FAST_BITS <= codeLen <= b.n && temp == Follow(t.look, t.tree, b.v, codeLen)
        invariant first ==> codeLen == FAST_BITS && temp < 0
        invariant !first ==> codeLen > FAST_BITS
        invariant forall k :: FAST_BITS <= k < codeLen ==> Follow(t.look, t.tree, b.v, k) < 0
        decreases b.n - codeLen
      {
        FollowsNodes(sizes, m, t.look, t.tree, b.v, codeLen);
        NodeBound(sizes, m, t.tree, ToBits(b.v, codeLen), Shr(b.v, codeLen) % 2 == 1);
        temp := t.tree[-temp - 1 + Shr(b.v, codeLen) % 2];
        codeLen := codeLen + 1;
        first := false;
      }
      enough := temp >= 0;
      if enough {
        forall sym: nat, len: nat | Found(t.look, t.tree, b.v, sym, len)
          ensures 0 < len <= b.n
        {
          FoundOnce(t, b.v, codeLen, sym, len);
        }
      } else {
        StillWalking(t, b, sizes, codeLen);
      }
    } else {
      StillWalking(t, b, sizes, FAST_BITS);
    }
  }

  /** Reads just the bytes that are needed to decode the next code. */
  method Fill(t: Tab, c: Cursor, inp: seq<byte>, ghost sizes: Sizes, ghost start: Bits.Stream, ghost future: seq<byte>)
    returns (enough: bool, d: Cursor)
    requires TabFor(sizes, t) && Held(c, start, inp) && c.b.n < MAX_SIZE
    ensures Fetched(c, d, start, inp, future)
    ensures if enough then Enough(t, d.b) else d.cur == |inp| && DecodeSymbol(sizes, d.b.Stream()).None?
  {
    d := c;
    while d.b.n < MAX_SIZE
      invariant Fetched(c, d, start, inp, future)
      decreases |inp| - d.cur
    {
      enough := TryDecode(t, d.b, sizes);
      if enough {
        return;
      }
      if d.cur == |inp| {
        return;
      }
      d := FetchByte(d, inp, start, future);
    }
    enough := true;
  }

  /** The symbol and the stream after it are what decoding the whole stream would give. */
  ghost predicate Decoded(sizes: Sizes, before: Bits.Stream, sym: nat, after: Bits.Stream) {
    DecodeSymbol(sizes, before).Some? ==>
      var s := DecodeSymbol(sizes, before).value;
      s == sym && sizes[s] <= |before| && after == before[sizes[s]..]
  }

  lemma LookupDecodes(t: Tab, sizes: Sizes, c: Cursor, sym: nat, codeLen: nat, inp: seq<byte>, start: Bits.Stream, future: seq<byte>)
    requires TabFor(sizes, t) && Held(c, start, inp) && Found(t.look, t.tree, c.b.v, sym, codeLen)
    requires codeLen <= c.b.n && (codeLen > 0 || c.b.n >= FAST_BITS) && c.cur <= |inp|
    ensures codeLen <= |RestOf(c, inp, future)|
    ensures Decoded(sizes, RestOf(c, inp, future), sym, RestOf(c, inp, future)[codeLen..])
  {
    var rest := RestOf(c, inp, future);
    assert rest[..c.b.n] == c.b.Stream();
    if DecodeSymbol(sizes, rest).Some? {
      FoundIsRight(sizes, t.look, t.tree, c.b.v, sym, codeLen, rest, c.b.n, DecodeSymbol(sizes, rest).value);
    }
  }

  /** Looks up the next symbol in the bits held, and takes its code out of the buffer. */
  method TakeSymbol(t: Tab, c: Cursor, inp: seq<byte>, ghost sizes: Sizes, ghost start: Bits.Stream, ghost future: seq<byte>)
    returns (sym: nat, codeLen: nat, d: Cursor)
    requires TabFor(sizes, t) && Held(c, start, inp) && Enough(t, c.b)
    ensures Held(d, start, inp) && d.cur == c.cur && sym < 512 && Avail(d, inp) == Avail(c, inp) - codeLen
    ensures Decoded(sizes, RestOf(c, inp, future), sym, RestOf(d, inp, future))
    ensures codeLen <= MAX_SIZE && d.b.n == c.b.n - codeLen && (codeLen == 0 ==> sym == 0)
  {
    sym, codeLen := Lookup(t.look, t.tree, c.b.v, sizes);
    LookupDecodes(t, sizes, c, sym, codeLen, inp, start, future);
    var v;
    v, d := TakeBits(c, codeLen, inp, start, future);
  }

  /** Decodes the next symbol, reading one or two bytes or, at the end of the input, only what is needed. */
  method HuffDecode(t: Tab, c: Cursor, inp: seq<byte>, ghost sizes: Sizes, ghost start: Bits.Stream, ghost future: seq<byte>)
    returns (got: bool, sym: nat, d: Cursor)
    requires TabFor(sizes, t) && Held(c, start, inp)
    ensures !got ==> Fetched(c, d, start, inp, future) && d.cur == |inp| && DecodeSymbol(sizes, d.b.Stream()).None?
    ensures got ==> Held(d, start, inp) && c.cur <= d.cur <= |inp| && sym < 512
    ensures got ==> Avail(d, inp) <= Avail(c, inp) && (Avail(d, inp) == Avail(c, inp) ==> sym == 0)
    ensures got ==> Decoded(sizes, RestOf(c, inp, future), sym, RestOf(d, inp, future))
  {
    got, sym, d := true, 0, c;
    if d.b.n < MAX_SIZE {
      if |inp| - d.cur < 2 {
        got, d := Fill(t, d, inp, sizes, start, future);
        if !got {
          return;
        }
      } else {
        d := FetchByte(d, inp, start, future);
        d := FetchByte(d, inp, start, future);
      }
    }
    var codeLen;
    sym, codeLen, d := TakeSymbol(t, d, inp, sizes, start, future);
  }
}
