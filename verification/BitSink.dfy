/** The compressor's bit writer: bits are collected least significant first and leave as bytes; bytes
    past the end of the output buffer are dropped. */
module BitSink {
  import opened Bits
  import opened BitBuffer

  /** Moving one byte out of the bit buffer. */
  lemma ByteOut(v: nat, n: nat)
    requires v < Pow2(n) && n >= 8
    ensures ToBits(v, n) == ToBits(v % 256, 8) + ToBits(v / 256, n - 8) && v / 256 < Pow2(n - 8)
  {
    var w := 8;
    Pow2Values();
    ToBitsAppend(v % 256, w, v / 256, n - 8);
    Pow2Add(w, n - 8);
    DivBound(v, 256, Pow2(n - 8));
  }

  lemma DivBound(v: nat, p: nat, q: nat)
    requires p > 0 && v < p * q
    ensures v / p < q
  {
    var k := v / p;
    assert k >= q ==> p * k >= p * q;
  }

  lemma OrFits(p: nat, v: nat, q: nat, bits: nat)
    requires v < p && bits < q
    ensures v + p * bits < p * q
  {
    assert p * (bits + 1) <= p * q;
  }

  class Sink {
    const cap: nat
    /** Bytes in the output buffer. */
    var out: seq<byte>
    var bitBuffer: nat
    var bitsIn: nat
    /** All bits ever put, the bytes that left in earlier buffers, and the bytes of this one,
        including any that were dropped. */
    ghost var sent: Stream
    ghost var before: seq<byte>
    ghost var full: seq<byte>

    ghost predicate Valid()
      reads this
    {
      && bitsIn < 8 && bitBuffer < Pow2(bitsIn)
      && sent == BytesToBits(before + full) + ToBits(bitBuffer, bitsIn)
      && out == (if |full| <= cap then full else full[..cap])
    }

    constructor (cap: nat)
      ensures Valid() && sent == [] && before == [] && full == [] && this.cap == cap
    {
      this.cap := cap;
      out, bitBuffer, bitsIn, sent, before, full := [], 0, 0, [], [], [];
    }

    /** Puts the low `len` bits of `bits`. */
    method PutBits(bits: nat, len: nat)
      requires Valid() && bits < Pow2(len) && len <= 16
      modifies this
      ensures Valid() && sent == old(sent) + ToBits(bits, len) && before == old(before) && old(full) <= full
    {
      hide Pow2, ToBits;
      ToBitsAppend(bitBuffer, bitsIn, bits, len);
      OrFits(Pow2(bitsIn), bitBuffer, Pow2(len), bits);
      Pow2Add(bitsIn, len);
      sent := sent + ToBits(bits, len);
      assert old(sent) + ToBits(bits, len) == BytesToBits(before + full) + ToBits(bitBuffer + Pow2(bitsIn) * bits, bitsIn + len);
      bitBuffer := bitBuffer + Pow2(bitsIn) * bits;
      bitsIn := bitsIn + len;
      while bitsIn >= 8
        invariant bitBuffer < Pow2(bitsIn) && sent == BytesToBits(before + full) + ToBits(bitBuffer, bitsIn)
        invariant out == (if |full| <= cap then full else full[..cap])
        invariant sent == old(sent) + ToBits(bits, len) && before == old(before) && old(full) <= full
      {
        ShiftByteOut();
      }
    }

    method ShiftByteOut()
      requires bitsIn >= 8 && bitBuffer < Pow2(bitsIn) && sent == BytesToBits(before + full) + ToBits(bitBuffer, bitsIn)
      requires out == (if |full| <= cap then full else full[..cap])
      modifies this
      ensures bitBuffer < Pow2(bitsIn) && sent == BytesToBits(before + full) + ToBits(bitBuffer, bitsIn)
      ensures out == (if |full| <= cap then full else full[..cap])
      ensures sent == old(sent) && before == old(before) && full == old(full) + [old(bitBuffer) % 256] && bitsIn == old(bitsIn) - 8
    {
      hide ToBits, Pow2;
      var b: byte := bitBuffer % 256;
      ByteOut(bitBuffer, bitsIn);
      BytesToBitsOne(b);
      BytesToBitsAppend(before + full, [b]);
      assert before + (full + [b]) == before + full + [b];
      assert BytesToBits(before + full) + (ToBits(b, 8) + ToBits(bitBuffer / 256, bitsIn - 8))
          == BytesToBits(before + full) + ToBits(b, 8) + ToBits(bitBuffer / 256, bitsIn - 8);
      if |out| < cap {
        out := out + [b];
      }
      full := full + [b];
      bitBuffer := bitBuffer / 256;
      bitsIn := bitsIn - 8;
    }

    /** Zeros up to the next byte boundary. */
    method PadToByte() returns (ghost pad: Stream)
      requires Valid()
      modifies this
      ensures Valid() && bitsIn == 0 && |pad| < 8 && sent == old(sent) + pad && WholeBytes(|sent|)
      ensures before == old(before) && old(full) <= full
    {
      pad := [];
      assert sent + [] == sent;
      if bitsIn > 0 {
        var n := 8 - bitsIn;
        pad := ToBits(0, n);
        ghost var s := |sent|;
        PutBits(0, n);
        EndsWhole(|before|, |full|, bitsIn, old(|before|), old(|full|), old(bitsIn));
      }
      WholeOfBytes(|before + full|);
    }

    /** Goes back to an earlier point of the same buffer. */
    method Rewind(size: nat, bits: nat, n: nat, ghost sent0: Stream, ghost full0: seq<byte>)
      requires Valid() && full0 <= full && size == |full0| <= cap && n < 8 && bits < Pow2(n)
      requires sent0 == BytesToBits(before + full0) + ToBits(bits, n)
      modifies this
      ensures Valid() && sent == sent0 && full == full0 && before == old(before) && bitsIn == n && bitBuffer == bits
    {
      out, bitBuffer, bitsIn := out[..size], bits, n;
      sent, full := sent0, full0;
    }

    /** Hands the bytes over and starts an empty buffer; the bits of a partial byte stay. */
    method Take() returns (bytes: seq<byte>)
      requires Valid() && |full| <= cap
      modifies this
      ensures Valid() && sent == old(sent) && before == old(before) + bytes && full == [] && bytes == old(full)
    {
      bytes := out;
      before, full, out := before + full, [], [];
      assert before + [] == before;
    }
  }

  lemma EndsWhole(b: nat, f: nat, n: nat, b0: nat, f0: nat, n0: nat)
    requires 8 * b + 8 * f + n == 8 * b0 + 8 * f0 + 8 && n < 8
    ensures n == 0
  {
  }

}
