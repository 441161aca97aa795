/** The resumable decompressor for raw DEFLATE data, written into one buffer that holds the whole output
    or into a circular one. Whatever the cutting of the input and the room given to each call, the calls together take
    the steps of `InflateSpec`. */
module Inflater {
  import opened Bits
  import opened InflateSpec
  import opened BitBuffer
  import opened SymbolReader
  import opened LzCopy
  import opened InflateSteps
  import opened OutputSteps

  datatype Status = Finished | HasMoreOutput | NeedsMoreInput | CannotMakeProgress | Corrupt

  /** One step of the decompressor: whatever its state asks for. */
  method Advance(mode: Mode, s: Session, buf: array<byte>, pos: nat, limit: nat, inp: seq<byte>, ghost out: seq<byte>,
                 ghost start: Stream, ghost future: seq<byte>)
    returns (pace: Pace, d: Session, at: nat)
    requires SessionOk(s, start, inp) && Room(mode, buf[..], pos, limit, out) && s.r.ctl != Ctl.Done && s.r.ctl != Ctl.Failed
    modifies buf
    ensures Wrote(old(buf[..]), buf[..], pos, at) && at <= limit
    ensures Took(mode, s, out, d, out + buf[pos..at], start, inp, future)
    ensures Paced(mode, pace, s, limit - pos, d, limit - at, out + buf[pos..at], inp)
  {
    hide View, Follows, Strays, RestOf, TabFor;
    pace, d, at := Go, s, pos;
    NothingWritten(out, buf[..], pos);
    if Silent(s.r).Some? {
      d := DoSilent(s, inp, start, future, out);
    } else if s.r.ctl.RawAlign? || s.r.ctl.LastAlign? {
      d := SkipToByte(s, inp, start, future, out);
    } else if s.r.ctl.LitOut? || s.r.ctl.RawByte? {
      pace, d, at := PutByte(mode, s, buf, pos, limit, inp, out, start, future);
    } else if s.r.ctl.Copy? {
      pace, d, at := CopyMatch(mode, s, buf, pos, limit, inp, out, start, future);
    } else if s.r.ctl.RawData? && s.c.b.n == 0 {
      pace, d, at := CopyStored(mode, s, buf, pos, limit, inp, out, start, future);
    } else if FixedBits(s.r.ctl).Some? {
      var go;
      go, d := ReadFixed(s, FixedBits(s.r.ctl).value, inp, start, future, out);
      pace := if go then Go else NeedsInput;
    } else if s.r.ctl.Symbols? && |inp| - s.c.cur >= 4 && limit - pos >= 2 {
      d, at := FastPair(mode, s, buf, pos, limit, inp, out, start, future);
    } else if SymbolCode(s.r).Some? {
      var go;
      go, d := ReadSym(s, inp, start, future, out);
      pace := if go then Go else NeedsInput;
    } else {
      d := s.(r := s.r.(ctl := Ctl.Failed));
      TookStep(mode, s, out, d.r, out, start, inp, future);
    }
  }

  ghost function StateOf(regs: Regs, bits: BitBuf, out: seq<byte>, tail: seq<byte>): Ref {
    Ref(regs, Rest(bits, tail), out)
  }

  /** What a call's status says about the state it leaves; `b` is that state with no input to come. */
  ghost predicate Ended(status: Status, b: Ref, hasMore: bool, consumedAll: bool, noRoom: bool) {
    match status
    case Finished => b.regs.ctl.Done?
    case Corrupt => b.regs.ctl.Failed?
    case HasMoreOutput => noRoom && WantsRoom(b.regs, |b.out|)
    case NeedsMoreInput => hasMore && consumedAll && Step(b).None?
    case CannotMakeProgress => !hasMore && consumedAll && Step(b).None?
  }

  function StatusOf(pace: Pace, r: Regs, hasMore: bool): Status {
    if r.ctl.Done? then Finished
    else if r.ctl.Failed? then Corrupt
    else if pace.NeedsRoom? then HasMoreOutput
    else if hasMore then NeedsMoreInput else CannotMakeProgress
  }

  /** Steps until the end, or until input or room runs out. */
  method Advances(mode: Mode, s0: Session, buf: array<byte>, pos0: nat, limit: nat, inp: seq<byte>, ghost out0: seq<byte>,
                  ghost start: Stream, ghost future: seq<byte>)
    returns (pace: Pace, s: Session, pos: nat)
    requires SessionOk(s0, start, inp) && Room(mode, buf[..], pos0, limit, out0)
    modifies buf
    ensures Wrote(old(buf[..]), buf[..], pos0, pos) && Room(mode, buf[..], pos, limit, out0 + buf[pos0..pos])
    ensures Took(mode, s0, out0, s, out0 + buf[pos0..pos], start, inp, future)
    ensures pace.Go? ==> s.r.ctl.Done? || s.r.ctl.Failed?
    ensures pace.NeedsInput? ==> Starved(s, out0 + buf[pos0..pos], inp)
    ensures pace.NeedsRoom? ==> pos == limit && (WantsRoom(s.r, |out0 + buf[pos0..pos]|) || BadCopy(mode, s.r, |out0 + buf[pos0..pos]|))
  {
    hide View, Follows, Strays, RestOf, Wrote, BadCopy, WantsRoom, Step;
    ghost var a := buf[..];
    pace, s, pos := Go, s0, pos0;
    NothingWritten(out0, a, pos0);
    NothingWrote(a, pos0);
    TookNothing(mode, s0, out0, start, inp, future);
    while pace == Go && s.r.ctl != Ctl.Done && s.r.ctl != Ctl.Failed
      invariant Wrote(a, buf[..], pos0, pos) && pos0 <= pos <= buf.Length && Room(mode, buf[..], pos, limit, out0 + buf[pos0..pos])
      invariant SessionOk(s, start, inp) && Took(mode, s0, out0, s, out0 + buf[pos0..pos], start, inp, future)
      invariant pace.NeedsInput? ==> Starved(s, out0 + buf[pos0..pos], inp)
      invariant pace.NeedsRoom? ==> pos == limit && (WantsRoom(s.r, |out0 + buf[pos0..pos]|) || BadCopy(mode, s.r, |out0 + buf[pos0..pos]|))
      decreases pace == Go, Avail(s.c, inp), limit - pos, Rank(s.r)
    {
      ghost var t, out, b, was := s, out0 + buf[pos0..pos], buf[..], pos;
      pace, s, pos := Advance(mode, s, buf, pos, limit, inp, out, start, future);
      WroteOn(a, b, buf[..], pos0, was, pos, out0);
      RoomWrote(mode, b, buf[..], was, pos, limit, out);
      TookTrans(mode, s0, out0, t, out, s, out + buf[was..pos], start, inp, future);
    }
  }

  lemma NothingWrote(a: seq<byte>, pos: nat)
    requires pos <= |a|
    ensures Wrote(a, a, pos, pos)
  {
  }

  lemma WroteOn(a: seq<byte>, b: seq<byte>, c: seq<byte>, p: nat, q: nat, r: nat, out: seq<byte>)
    requires Wrote(a, b, p, q) && Wrote(b, c, q, r)
    ensures Wrote(a, c, p, r) && out + b[p..q] + c[q..r] == out + c[p..r]
  {
    WroteTrans(a, b, c, p, q, r);
    assert out + b[p..q] + c[q..r] == out + (b[p..q] + c[q..r]);
  }

  /** The decompressor object between calls. */
  class Decompressor {
    var regs: Regs
    var bits: BitBuf
    var tabs: Tabs

    ghost predicate Valid()
      reads this
    {
      RegsOk(regs) && TabsOk(regs, tabs) && bits.Ok() && bits.n <= 61 && (regs.ctl.Done? ==> WholeBytes(bits.n))
    }

    /** The reference state this one stands for, given the output so far and all input to come. */
    ghost function State(out: seq<byte>, tail: seq<byte>): Ref
      reads this
    {
      StateOf(regs, bits, out, tail)
    }

    constructor ()
      ensures Valid()
      ensures forall tail :: State([], tail) == Ref(Start, BytesToBits(tail), [])
    {
      regs, bits := Start, BitBuf(0, 0);
      tabs := Tabs(Tab([], []), Tab([], []), Tab([], []));
      new;
      forall tail
        ensures State([], tail) == Ref(Start, BytesToBits(tail), [])
      {
        assert Rest(bits, tail) == BytesToBits(tail);
      }
    }

    /** One call: reads from `inp`, writes to `buf` from `pos0` up to `limit`. `out` is the output so far,
        `future` what the caller will offer later. */
    method Decompress(mode: Mode, inp: seq<byte>, buf: array<byte>, pos0: nat, limit: nat, hasMore: bool,
                      ghost out: seq<byte>, ghost future: seq<byte>)
      returns (status: Status, consumed: nat, pos: nat)
      requires Valid() && Room(mode, buf[..], pos0, limit, out)
      modifies this, buf
      ensures Valid() && consumed <= |inp|
      ensures Wrote(old(buf[..]), buf[..], pos0, pos) && Room(mode, buf[..], pos, limit, out + buf[pos0..pos])
      ensures Went(mode, old(State(out, inp + future)), State(out + buf[pos0..pos], inp[consumed..] + future))
      ensures Ended(status, State(out + buf[pos0..pos], []), hasMore, consumed == |inp|, pos == limit)
           || Strays(mode, old(State(out, inp + future))) || (mode.Circular? && Derails(old(State(out, inp + future))))
      ensures status == Finished || status == HasMoreOutput ==> bits.n < 8 || consumed == 0
    {
      hide RegsOk, Rest, ReadStep, View, Strays, Derails, Follows, InBlock, BytesToBits, TabsOk, Went, InReach;
      ghost var start := bits.Stream();
      var s := Session(regs, Cursor(bits, 0), tabs);
      assert HeldAfter(bits, start, [], inp, 0);
      ghost var s0, a := s, State(out, inp + future);
      assert inp[0..] == inp && RefOf(s0, out, inp, future) == a;
      var pace;
      pace, s, pos := Advances(mode, s, buf, pos0, limit, inp, out, start, future);
      ghost var out2 := out + buf[pos0..pos];
      if BadCopy(mode, s.r, |out2|) {
        StraysHere(mode, RefOf(s, out2, inp, future));
        StraysLater(mode, a, RefOf(s, out2, inp, future));
      }
      status := StatusOf(pace, s.r, hasMore);
      var c := s.c;
      if status != NeedsMoreInput && status != CannotMakeProgress {
        c := PutBack(c, inp, start, future);
      }
      regs, bits, tabs, consumed := s.r, c.b, s.tabs, c.cur;
      assert inp[|inp|..] + [] == [];
    }
  }
}
