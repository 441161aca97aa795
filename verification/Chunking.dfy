/** Cutting the input and the output room of the decompressor into calls does not matter: every run
    over a valid stream ends with the one output of the reference steps. */
module Chunking {
  import opened Bits
  import opened Canonical
  import opened Machine
  import opened InflateSpec
  import opened BitBuffer
  import opened LzCopy
  import opened InflateSteps
  import opened OutputSteps
  import opened Inflater

  /** `data` begins with a whole DEFLATE stream: the reference steps end in `end`. */
  ghost predicate Deflated(data: seq<byte>, end: Ref) {
    end.regs.ctl.Done? && Inflates(Ref(Start, BytesToBits(data), []), end)
  }

  lemma StepGrows(a: Ref)
    requires Step(a).Some?
    ensures a.out <= Step(a).value.out
  {
    assert Step(a).value.out == a.out || Step(a).value.out == a.out + Step(a).value.out[|a.out|..];
  }

  /** Output once written stays. */
  lemma {:induction false} RunGrows(a: Ref, k: nat)
    requires Run(Step, a, k).Some?
    ensures a.out <= Run(Step, a, k).value.out
    decreases k
  {
    if k > 0 {
      StepGrows(a);
      RunGrows(Step(a).value, k - 1);
    }
  }

  /** The next step writes a byte, or has one ready to be written. */
  lemma NextWrites(a: Ref)
    requires WantsRoom(a.regs, |a.out|) && Step(a).Some?
    ensures !a.regs.ctl.Done? && (|Step(a).value.out| > |a.out| || (Step(a).value.regs.ctl.RawByte? && !a.regs.ctl.RawByte?))
  {
    if a.regs.ctl.RawData? {
      Pow2Values();
      ValueBound(a.rest[..8]);
    }
  }

  /** A state that wants room has more output ahead. */
  lemma MoreToWrite(a: Ref, end: Ref)
    requires Inflates(a, end) && end.regs.ctl.Done? && WantsRoom(a.regs, |a.out|)
    ensures |a.out| < |end.out|
  {
    hide ReadStep;
    var k: nat :| Run(Step, a, k) == Some(end);
    NextWrites(a);
    var b := Step(a).value;
    StepGrows(a);
    RunGrows(b, k - 1);
    if b.regs.ctl.RawByte? {
      NextWrites(b);
      RunGrows(Step(b).value, k - 2);
    }
  }

  /** On the way to the end of a valid stream the calls never leave the reference run. */
  lemma OnTheWay(a: Ref, b: Ref, end: Ref)
    requires Inflates(a, end) && end.regs.ctl.Done? && Follows(a, b)
    ensures Inflates(a, b) && Inflates(b, end)
  {
    hide ReadStep;
    if Derails(a) {
      var d: Ref :| Reaches(Step, a, d) && Step(d).None?;
      FixedNotStuck(Step, a, end, d);
    }
    var k: nat :| Run(Step, a, k) == Some(end);
    var j: nat :| Run(Step, a, j) == Some(b);
    if j <= k {
      RunAdd(Step, a, j, k - j);
    } else {
      RunAdd(Step, a, k, j - k);
      FixedStays(Step, end, j - k);
      ReachesSelf(Step, end);
    }
  }

  /** What one call on a valid stream can come to: never corrupt, never starved once all input was
      offered, never short of room once the room suffices, and finished only with the whole output. */
  lemma CallOnValid(a: Ref, b: Ref, end: Ref, status: Status, left: Ref, hasMore: bool, consumedAll: bool, noRoom: bool)
    requires Inflates(a, end) && end.regs.ctl.Done? && Follows(a, b)
    requires left.regs == b.regs && left.out == b.out && Ended(status, left, hasMore, consumedAll, noRoom)
    ensures Inflates(b, end) && b.out <= end.out && status != Corrupt
    ensures status == Finished ==> b == end
    ensures status == HasMoreOutput ==> noRoom && |b.out| < |end.out|
    ensures !hasMore && (consumedAll ==> b == left) ==> status == Finished || status == HasMoreOutput
  {
    OnTheWay(a, b, end);
    var k: nat :| Run(Step, b, k) == Some(end);
    RunGrows(b, k);
    if b.regs.ctl.Done? || b.regs.ctl.Failed? {
      FixedStays(Step, b, k);
    }
    if WantsRoom(b.regs, |b.out|) {
      MoreToWrite(b, end);
    }
    if Step(b).None? {
      ReachesSelf(Step, b);
      FixedNotStuck(Step, b, end, b);
    }
  }

  // ----- how much is read

  lemma StepShrinks(a: Ref)
    requires Step(a).Some?
    ensures |Step(a).value.rest| <= |a.rest|
  {
  }

  lemma {:induction false} RunShrinks(a: Ref, k: nat)
    requires Run(Step, a, k).Some?
    ensures |Run(Step, a, k).value.rest| <= |a.rest|
    decreases k
  {
    if k > 0 {
      StepShrinks(a);
      RunShrinks(Step(a).value, k - 1);
    }
  }

  /** The state with only the first `n` bits of its input. */
  ghost function WithOnly(a: Ref, n: nat): Ref
    requires n <= |a.rest|
  {
    a.(rest := a.rest[..n])
  }

  /** A symbol decoded from many bits is decoded from those of its code. */
  lemma DecodesSooner(sizes: Sizes, bits: Stream, n: nat)
    requires n <= |bits| && DecodeSymbol(sizes, bits).Some? && sizes[DecodeSymbol(sizes, bits).value] <= n
    ensures DecodeSymbol(sizes, bits[..n]).Some?
  {
    var s := DecodeSymbol(sizes, bits).value;
    assert SymbolBits(sizes, s) <= bits[..n];
    assert Starts(sizes, s, bits[..n]);
  }

  /** A step that cannot be taken with `n` bits reads more than `n`. */
  lemma StepReads(a: Ref, n: nat)
    requires n <= |a.rest| && Step(a).Some? && Step(WithOnly(a, n)).None?
    ensures |Step(a).value.rest| + n < |a.rest|
  {
    hide OnBits, OnSymbol;
    if Silent(a.regs).None? && FixedBits(a.regs.ctl).None? && SymbolCode(a.regs).Some? {
      var sizes := SymbolCode(a.regs).value;
      if sizes[DecodeSymbol(sizes, a.rest).value] <= n {
        DecodesSooner(sizes, a.rest, n);
      }
    }
  }

  /** So does a run of such steps. */
  lemma RunReads(a: Ref, b: Ref, n: nat)
    requires n <= |a.rest| && Step(WithOnly(a, n)).None? && Inflates(a, b) && a != b
    ensures |b.rest| + n < |a.rest|
  {
    var k: nat :| Run(Step, a, k) == Some(b);
    StepReads(a, n);
    RunShrinks(Step(a).value, k - 1);
  }

  /** Of the bits held none could have been left unread: there is not a whole byte of them, or they are too
      few for the next step. */
  ghost predicate Thrifty(regs: Regs, bits: BitBuf, out: seq<byte>) {
    bits.n < 8 || Step(StateOf(regs, bits, out, [])).None?
  }

  /** A call that does not end for lack of input keeps less than a byte. */
  lemma LessThanAByte(a: Ref, b: Ref, n0: nat, n: nat, size: nat, consumed: nat)
    requires Inflates(a, b) && |a.rest| == n0 + 8 * size && consumed <= size && |b.rest| == n + 8 * (size - consumed)
    requires n0 < 8 || Step(WithOnly(a, n0)).None?
    requires n < 8 || consumed == 0
    requires b.regs.ctl.Done? || WantsRoom(b.regs, |b.out|)
    ensures n < 8
  {
    var k: nat :| Run(Step, a, k) == Some(b);
    RunShrinks(a, k);
    if n >= 8 {
      if a == b {
        WithAByte(a, n0);
      } else {
        RunReads(a, b, n0);
      }
    }
  }

  lemma WithAByte(a: Ref, n: nat)
    requires 8 <= n <= |a.rest| && (a.regs.ctl.Done? || WantsRoom(a.regs, |a.out|))
    ensures Step(WithOnly(a, n)).Some?
  {
  }

  lemma OnlyBitsHeld(regs: Regs, bits: BitBuf, out: seq<byte>, tail: seq<byte>)
    ensures var a := StateOf(regs, bits, out, tail);
      |a.rest| == bits.n + 8 * |tail| && WithOnly(a, bits.n) == StateOf(regs, bits, out, [])
  {
  }

  lemma NoneHeld(regs: Regs, bits: BitBuf, out: seq<byte>, tail: seq<byte>)
    requires bits.n < 8 && WholeBytes(bits.n)
    ensures bits.n == 0 && StateOf(regs, bits, out, tail).rest == BytesToBits(tail)
  {
  }

  function Smaller(a: nat, b: nat): (m: nat)
    ensures m <= a && m <= b && (m == a || m == b)
  {
    if a < b then a else b
  }

  lemma Pieces(data: seq<byte>, at: nat, upTo: nat, next: nat)
    requires at <= next <= upTo <= |data|
    ensures data[at..upTo] + data[upTo..] == data[at..]
    ensures data[at..upTo][next - at..] + data[upTo..] == data[next..]
  {
  }

  // ----- matches reach no further than the window

  predicate Near(r: Regs) {
    r.ctl.Copy? ==> r.ctl.dist <= WINDOW_SIZE
  }

  const WINDOW_SIZE: nat := 32768

  lemma DistanceIsNear(sym: nat, v: nat)
    requires sym < 32 && v < Pow2(DistExtraBits(sym))
    ensures DistBase(sym) + v <= WINDOW_SIZE
  {
    DistValue(sym);
    SmallPowers();
    hide Pow2, DistExtraBits, DistBase;
  }

  lemma BitsNear(r: Regs, n: nat, v: nat)
    requires FixedBits(r.ctl) == Some(n) && v < Pow2(n)
    ensures Near(OnBits(r, v))
  {
    hide DistExtraBits, DistBase, LengthExtra, LengthBase, Pow2;
    if r.ctl.DistExtra? && r.ctl.sym < 32 {
      DistanceIsNear(r.ctl.sym, v);
    }
  }

  lemma SymbolNear(r: Regs, s: nat)
    requires SymbolCode(r).Some?
    ensures Near(OnSymbol(r, s))
  {
    hide DistExtraBits, DistBase, LengthExtra, LengthBase, Pow2;
    if r.ctl.DistSym? && s < 32 {
      DistanceIsNear(s, 0);
    }
  }

  lemma StepNear(a: Ref)
    requires Near(a.regs) && Step(a).Some?
    ensures Near(Step(a).value.regs)
  {
    hide OnBits, OnSymbol, Starts, Pow2, Value;
    if Silent(a.regs).None? && FixedBits(a.regs.ctl).Some? {
      var n := FixedBits(a.regs.ctl).value;
      if n <= |a.rest| {
        ValueBound(a.rest[..n]);
        BitsNear(a.regs, n, Value(a.rest[..n]));
      }
    } else if Silent(a.regs).None? && SymbolCode(a.regs).Some? {
      var sizes := SymbolCode(a.regs).value;
      if DecodeSymbol(sizes, a.rest).Some? {
        SymbolNear(a.regs, DecodeSymbol(sizes, a.rest).value);
      }
    }
  }

  lemma {:induction false} RunNear(a: Ref, k: nat)
    requires Near(a.regs) && Run(Step, a, k).Some?
    ensures Near(Run(Step, a, k).value.regs)
    decreases k
  {
    hide Near, Step;
    if k > 0 {
      StepNear(a);
      RunNear(Step(a).value, k - 1);
    }
  }

  predicate BigEnough(mode: Mode) {
    mode.Circular? ==> mode.size >= WINDOW_SIZE
  }

  /** A valid stream only copies what a circular buffer of 32768 bytes still has. */
  lemma NeverStrays(mode: Mode, a: Ref, end: Ref)
    requires Inflates(a, end) && end.regs.ctl.Done? && Near(a.regs) && BigEnough(mode)
    ensures !Strays(mode, a) && !Derails(a)
  {
    hide ReadStep;
    if Strays(mode, a) {
      var c: Ref :| Inflates(a, c) && BadCopy(mode, c.regs, |c.out|);
      var k: nat :| Run(Step, a, k) == Some(c);
      RunNear(a, k);
      var f := c.(regs := c.regs.(ctl := Ctl.Failed));
      ReachesStep(Step, c, f);
      ReachesTrans(Step, a, c, f);
      FixedUnique(Step, a, f, end);
    }
    if Derails(a) {
      var d: Ref :| Reaches(Step, a, d) && Step(d).None?;
      FixedNotStuck(Step, a, end, d);
    }
  }

  lemma NearLater(a: Ref, b: Ref)
    requires Inflates(a, b) && Near(a.regs)
    ensures Near(b.regs)
  {
    var k: nat :| Run(Step, a, k) == Some(b);
    RunNear(a, k);
  }

  // ----- calls on a valid stream

  /** What is kept from call to call: the rest of the data takes the decompressor to the end. */
  ghost predicate Underway(d: Decompressor, out: seq<byte>, rest: seq<byte>, end: Ref)
    reads d
  {
    && d.Valid() && end.regs.ctl.Done? && Inflates(d.State(out, rest), end)
    && Thrifty(d.regs, d.bits, out) && Near(d.regs)
  }

  /** One call on a valid stream, with the input up to `upTo` and the room up to `limit`. */
  method OneCall(mode: Mode, d: Decompressor, data: seq<byte>, at: nat, upTo: nat, buf: array<byte>, pos0: nat, limit: nat,
                 ghost out: seq<byte>, ghost end: Ref)
    returns (status: Status, next: nat, pos: nat)
    requires at <= upTo <= |data| && Room(mode, buf[..], pos0, limit, out) && BigEnough(mode)
    requires Underway(d, out, data[at..], end)
    modifies d, buf
    ensures at <= next <= upTo && Wrote(old(buf[..]), buf[..], pos0, pos) && Room(mode, buf[..], pos, limit, out + buf[pos0..pos])
    ensures Underway(d, out + buf[pos0..pos], data[next..], end) && out + buf[pos0..pos] <= end.out
    ensures match status
      case Finished => out + buf[pos0..pos] == end.out && d.bits.n == 0 && BytesToBits(data[next..]) == end.rest
      case HasMoreOutput => pos == limit && |out + buf[pos0..pos]| < |end.out|
      case NeedsMoreInput => next == upTo < |data|
      case _ => false
  {
    hide Step, WantsRoom, Rest, BytesToBits, Inflates, Follows, WithOnly, View, Near, Derails, Strays;
    ghost var a, n0 := d.State(out, data[at..]), d.bits.n;
    OnlyBitsHeld(d.regs, d.bits, out, data[at..]);
    NeverStrays(mode, a, end);
    ghost var future := data[upTo..];
    Pieces(data, at, upTo, at);
    var consumed;
    status, consumed, pos := d.Decompress(mode, data[at..upTo], buf, pos0, limit, upTo < |data|, out, future);
    next := at + consumed;
    ghost var out2 := out + buf[pos0..pos];
    ghost var b := d.State(out2, data[next..]);
    Pieces(data, at, upTo, next);
    CallOnValid(a, b, end, status, d.State(out2, []), upTo < |data|, consumed == upTo - at, pos == limit);
    OnTheWay(a, b, end);
    NearLater(a, b);
    OnlyBitsHeld(d.regs, d.bits, out2, data[next..]);
    if status == Finished || status == HasMoreOutput {
      LessThanAByte(a, b, n0, d.bits.n, |data| - at, consumed);
    }
    if status == Finished {
      NoneHeld(d.regs, d.bits, out2, data[next..]);
    }
  }

  method NewDecompressor(data: seq<byte>, ghost end: Ref) returns (d: Decompressor)
    requires Deflated(data, end)
    ensures fresh(d) && Underway(d, [], data[0..], end)
  {
    d := new Decompressor();
    assert data[0..] == data;
  }

  /** Inflates `data`, offering in round `i` at most `cut(i) + 1` more bytes and room for at most
      `room(i) + 1`. Whatever the plan, the run ends with the whole output and nothing else, no bit is left
      in the bit buffer, and just the bytes of the stream were taken. */
  method InflateInPieces(data: seq<byte>, buf: array<byte>, cut: nat -> nat, room: nat -> nat, ghost end: Ref)
    returns (pos: nat, used: nat)
    requires Deflated(data, end) && |end.out| <= buf.Length
    modifies buf
    ensures pos <= buf.Length && buf[..pos] == end.out
    ensures used <= |data| && BytesToBits(data[used..]) == end.rest
  {
    hide Underway, Deflated, BytesToBits, View, Wrote;
    var d := NewDecompressor(data, end);
    var i: nat := 0;
    pos, used := 0, 0;
    var status := NeedsMoreInput;
    assert buf[..0] == [];
    while status != Finished
      invariant used <= |data| && pos <= buf.Length && fresh(d) && Underway(d, buf[..pos], data[used..], end)
      invariant status == Finished ==> buf[..pos] == end.out && BytesToBits(data[used..]) == end.rest
      decreases status != Finished, buf.Length - pos, |data| - used
    {
      var upTo := used + Smaller(cut(i) + 1, |data| - used);
      var limit := pos + Smaller(room(i) + 1, buf.Length - pos);
      ghost var a, out, was := buf[..], buf[..pos], pos;
      FlatRoom(a, pos, limit);
      status, used, pos := OneCall(Flat, d, data, used, upTo, buf, pos, limit, out, end);
      FlatWrote(a, buf[..], was, pos);
      assert buf[..][was..pos] == buf[was..pos] && buf[..][..pos] == buf[..pos] && a[..was] == out;
      i := i + 1;
    }
  }

  lemma FlatRoom(a: seq<byte>, pos: nat, limit: nat)
    requires pos <= limit <= |a|
    ensures Room(Flat, a, pos, limit, a[..pos])
  {
  }

  lemma FlatWrote(a: seq<byte>, b: seq<byte>, pos: nat, at: nat)
    requires Wrote(a, b, pos, at)
    ensures a[..pos] + b[pos..at] == b[..at] && pos <= at <= |b|
  {
  }

  /** The same through a circular buffer of at least 32768 bytes: after each call the bytes it wrote are
      taken out, and when the buffer is full it is written from its start again. */
  method InflateThroughWindow(data: seq<byte>, buf: array<byte>, cut: nat -> nat, ghost end: Ref)
    returns (out: seq<byte>, used: nat)
    requires Deflated(data, end) && buf.Length >= WINDOW_SIZE
    modifies buf
    ensures out == end.out
    ensures used <= |data| && BytesToBits(data[used..]) == end.rest
  {
    hide Underway, Deflated, BytesToBits, View, Wrote;
    var d := NewDecompressor(data, end);
    var i: nat, pos: nat, mode := 0, 0, Circular(buf.Length);
    out, used := [], 0;
    var status := NeedsMoreInput;
    EmptyView(buf[..]);
    while status != Finished
      invariant used <= |data| && pos < buf.Length && fresh(d) && Underway(d, out, data[used..], end)
      invariant View(buf[..], pos, out) && |out| <= |end.out|
      invariant status == Finished ==> out == end.out && BytesToBits(data[used..]) == end.rest
      decreases status != Finished, |end.out| - |out|, |data| - used
    {
      var upTo := used + Smaller(cut(i) + 1, |data| - used);
      var was := pos;
      ghost var a := buf[..];
      status, used, pos := OneCall(mode, d, data, used, upTo, buf, pos, buf.Length, out, end);
      WroteWithin(a, buf[..], was, pos);
      out := out + buf[was..pos];
      if pos == buf.Length {
        NextLap(buf[..], out);
        pos := 0;
      }
      i := i + 1;
    }
  }

  lemma EmptyView(a: seq<byte>)
    ensures View(a, 0, [])
  {
  }

  lemma WroteWithin(a: seq<byte>, b: seq<byte>, pos: nat, at: nat)
    requires Wrote(a, b, pos, at)
    ensures pos <= at <= |b| == |a|
  {
  }

  /** So two plans never disagree. */
  lemma OneOutput(data: seq<byte>, a: Ref, b: Ref)
    requires Deflated(data, a) && Deflated(data, b)
    ensures a == b
  {
    FixedUnique(Step, Ref(Start, BytesToBits(data), []), a, b);
  }
}
