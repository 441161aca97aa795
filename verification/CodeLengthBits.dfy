/** The header of a dynamic block as bits, and that the decompressor reads the code sizes back. */
module CodeLengthBits {
  import opened Bits
  import opened Canonical
  import opened Machine
  import opened InflateSpec
  import opened SymbolTables
  import opened Tokens
  import opened CodeLengthRle

  // ----- the run-length codes

  function OpBits(clens: Sizes, o: Op): Stream
    requires o.code < |clens|
  {
    SymbolBits(clens, o.code) + (if o.code < 16 then [] else ToBits(o.extra, RepeatBits(o.code)))
  }

  predicate OpsCoded(clens: Sizes, ops: seq<Op>) {
    |clens| == 19 && forall i :: 0 <= i < |ops| ==> OpOk(ops[i]) && ops[i].code < 19 && clens[ops[i].code] > 0
  }

  function OpsBits(clens: Sizes, ops: seq<Op>): Stream
    requires OpsCoded(clens, ops)
  {
    if ops == [] then [] else OpsBits(clens, ops[..|ops| - 1]) + OpBits(clens, ops[|ops| - 1])
  }

  lemma LowOfSmall(v: nat, n: nat)
    requires v < Pow2(n)
    ensures Low(v, n) == v
  {
    LowBitsSame(v, n);
    ValueOfToBits(v, n);
  }

  ghost predicate InLens(r: Regs) {
    r.ctl.LenCodes? && |r.clens| == 19 && Fits(r.clens)
  }

  lemma OpRead(r: Regs, o: Op, rest: Stream, out: seq<byte>)
    requires InLens(r) && LensWanted(r) && OpOk(o) && o.code < 19 && r.clens[o.code] > 0 && UndoOp(r.lens, o).Some?
    ensures Inflates(Ref(r, OpBits(r.clens, o) + rest, out), Ref(r.(lens := UndoOp(r.lens, o).value), rest, out))
  {
    hide Run;
    var tail := if o.code < 16 then [] else ToBits(o.extra, RepeatBits(o.code));
    assert OpBits(r.clens, o) + rest == SymbolBits(r.clens, o.code) + (tail + rest);
    SymbolRead(r, r.clens, o.code, tail + rest, out);
    if o.code < 16 {
      assert tail + rest == rest;
    } else {
      Pow2Values();
      LowOfSmall(o.extra, RepeatBits(o.code));
      BitsRead(OnSymbol(r, o.code), o.extra, RepeatBits(o.code), rest, out);
      ReachesTrans(Step, Ref(r, OpBits(r.clens, o) + rest, out), Ref(OnSymbol(r, o.code), tail + rest, out),
        Ref(r.(lens := UndoOp(r.lens, o).value), rest, out));
    }
  }

  lemma UndoLonger(s: seq<nat>, o: Op)
    requires UndoOp(s, o).Some?
    ensures |s| < |UndoOp(s, o).value|
  {
  }

  /** Reading run-length codes rebuilds the sizes. */
  lemma {:induction false} OpsRead(r: Regs, ops: seq<Op>, rest: Stream, out: seq<byte>)
    requires InLens(r) && r.lens == [] && OpsCoded(r.clens, ops) && Undo(ops).Some?
    requires |r.t| == 3 && |Undo(ops).value| <= r.t[0] + r.t[1]
    ensures Inflates(Ref(r, OpsBits(r.clens, ops) + rest, out), Ref(r.(lens := Undo(ops).value), rest, out))
    decreases |ops|
  {
    if ops == [] {
      assert OpsBits(r.clens, ops) + rest == rest && r.(lens := []) == r;
      ReachesSelf(Step, Ref(r, rest, out));
    } else {
      var n := |ops| - 1;
      var front, last := OpsBits(r.clens, ops[..n]), OpBits(r.clens, ops[n]);
      var mid := r.(lens := Undo(ops[..n]).value);
      UndoLonger(mid.lens, ops[n]);
      OpsRead(r, ops[..n], last + rest, out);
      OpRead(mid, ops[n], rest, out);
      assert front + last + rest == front + (last + rest);
      ReachesTrans(Step, Ref(r, front + (last + rest), out), Ref(mid, last + rest, out), Ref(r.(lens := Undo(ops).value), rest, out));
    }
  }

  // ----- the sizes of the code length code

  /** The place of size `j` in the order sent. */
  function Zigzag(j: nat): nat {
    if j >= 16 then j - 16 else if j == 0 then 3 else if j >= 8 then 4 + 2 * (j - 8) else 5 + 2 * (7 - j)
  }

  lemma ZigzagInverse(i: nat)
    requires i < 19
    ensures Zigzag(Dezigzag(i)) == i && Dezigzag(Zigzag(i)) == i && Zigzag(i) < 19
  {
  }

  /** The sizes known after the first `k` have been read. */
  function Known(clens: Sizes, k: nat): (c: Sizes)
    requires |clens| == 19
    ensures |c| == 19
  {
    seq(19, j requires 0 <= j < 19 => if Zigzag(j) < k then clens[j] else 0)
  }

  lemma KnownNext(clens: Sizes, k: nat)
    requires |clens| == 19 && k < 19
    ensures Known(clens, k)[Dezigzag(k) := clens[Dezigzag(k)]] == Known(clens, k + 1)
  {
    ZigzagInverse(k);
    forall j | 0 <= j < 19 && j != Dezigzag(k)
      ensures Known(clens, k)[j] == Known(clens, k + 1)[j]
    {
      ZigzagInverse(j);
    }
  }

  lemma KnownAll(clens: Sizes, n: nat)
    requires |clens| == 19 && forall i :: n <= i < 19 ==> clens[Dezigzag(i)] == 0
    ensures Known(clens, n) == clens
  {
    forall j | 0 <= j < 19
      ensures Known(clens, n)[j] == clens[j]
    {
      ZigzagInverse(j);
    }
  }

  function SizesBits(clens: Sizes, n: nat): Stream
    requires |clens| == 19 && n <= 19
  {
    if n == 0 then [] else SizesBits(clens, n - 1) + ToBits(clens[Dezigzag(n - 1)], 3)
  }

  /** Reads sizes up to, not including, the last one, which ends the state. */
  lemma {:induction false} SizesReadTo(r: Regs, clens: Sizes, n: nat, rest: Stream, out: seq<byte>)
    requires |clens| == 19 && r.ctl == CodeLens(0) && r.clens == Repeat(0, 19) && |r.t| == 3 && n < r.t[2] <= 19
    requires forall j :: 0 <= j < 19 ==> clens[j] < 8
    ensures Inflates(Ref(r, SizesBits(clens, n) + rest, out), Ref(r.(ctl := CodeLens(n), clens := Known(clens, n)), rest, out))
    decreases n
  {
    if n == 0 {
      assert SizesBits(clens, n) + rest == rest && Known(clens, 0) == r.clens && r.(ctl := CodeLens(0), clens := Known(clens, 0)) == r;
      ReachesSelf(Step, Ref(r, rest, out));
    } else {
      var front, last := SizesBits(clens, n - 1), ToBits(clens[Dezigzag(n - 1)], 3);
      var mid := r.(ctl := CodeLens(n - 1), clens := Known(clens, n - 1));
      SizesReadTo(r, clens, n - 1, last + rest, out);
      SizeRead(mid, clens, n - 1, rest, out);
      assert front + last + rest == front + (last + rest);
      ReachesTrans(Step, Ref(r, front + (last + rest), out), Ref(mid, last + rest, out),
        Ref(r.(ctl := CodeLens(n), clens := Known(clens, n)), rest, out));
    }
  }

  lemma SizeRead(r: Regs, clens: Sizes, k: nat, rest: Stream, out: seq<byte>)
    requires |clens| == 19 && r.ctl == CodeLens(k) && k < 19 && r.clens == Known(clens, k) && clens[Dezigzag(k)] < 8
    requires |r.t| == 3 && k < r.t[2] <= 19
    ensures var next := if k + 1 < r.t[2] then CodeLens(k + 1) else BuildLens;
      Inflates(Ref(r, ToBits(clens[Dezigzag(k)], 3) + rest, out), Ref(r.(ctl := next, clens := Known(clens, k + 1)), rest, out))
  {
    Pow2Values();
    LowOfSmall(clens[Dezigzag(k)], 3);
    KnownNext(clens, k);
    BitsRead(r, clens[Dezigzag(k)], 3, rest, out);
  }

  lemma SizesRead(r: Regs, clens: Sizes, n: nat, rest: Stream, out: seq<byte>)
    requires |clens| == 19 && r.ctl == CodeLens(0) && r.clens == Repeat(0, 19) && |r.t| == 3 && 0 < n == r.t[2] <= 19
    requires (forall j :: 0 <= j < 19 ==> clens[j] < 8) && forall i :: n <= i < 19 ==> clens[Dezigzag(i)] == 0
    ensures Inflates(Ref(r, SizesBits(clens, n) + rest, out), Ref(r.(ctl := BuildLens, clens := clens), rest, out))
  {
    var front, last := SizesBits(clens, n - 1), ToBits(clens[Dezigzag(n - 1)], 3);
    var mid := r.(ctl := CodeLens(n - 1), clens := Known(clens, n - 1));
    SizesReadTo(r, clens, n - 1, last + rest, out);
    SizeRead(mid, clens, n - 1, rest, out);
    KnownAll(clens, n);
    assert front + last + rest == front + (last + rest);
    ReachesTrans(Step, Ref(r, front + (last + rest), out), Ref(mid, last + rest, out),
      Ref(r.(ctl := BuildLens, clens := clens), rest, out));
  }
}
