/** Run-length coding of the code sizes in a dynamic block's header (RFC 1951, section 3.2.7). */
module CodeLengthRle {
  import opened Canonical
  import opened InflateSpec
  import opened HuffmanBuilder
  import opened Sums

  /** One code of the packed form with its extra value; codes below 16 have none. */
  datatype Op = Op(code: nat, extra: nat)

  predicate OpOk(o: Op) {
    if o.code < 16 then o.extra == 0
    else o.code <= 18 && o.extra < (if o.code == 16 then 4 else if o.code == 17 then 8 else 128)
  }

  /** The packed bytes of one code. */
  function OpBytes(o: Op): seq<nat> {
    if o.code < 16 then [o.code] else [o.code, o.extra]
  }

  function Flat(ops: seq<Op>): seq<nat> {
    if ops == [] then [] else Flat(ops[..|ops| - 1]) + OpBytes(ops[|ops| - 1])
  }

  /** What one code means after the sizes `s`. */
  function UndoOp(s: seq<nat>, o: Op): Option<seq<nat>> {
    if o.code < 16 then Some(s + [o.code])
    else if o.code == 16 then (if s == [] then None else Some(s + Repeat(s[|s| - 1], 3 + o.extra)))
    else Some(s + Repeat(0, (if o.code == 17 then 3 else 11) + o.extra))
  }

  function Undo(ops: seq<Op>): Option<seq<nat>> {
    if ops == [] then Some([])
    else
      match Undo(ops[..|ops| - 1])
      case Some(s) => UndoOp(s, ops[|ops| - 1])
      case None => None
  }

  /** How often code `c` is used. */
  function OpCount(ops: seq<Op>, c: nat): (n: nat)
    ensures n <= |ops|
  {
    if ops == [] then 0 else OpCount(ops[..|ops| - 1], c) + (if ops[|ops| - 1].code == c then 1 else 0)
  }

  ghost predicate Counted(count: seq<nat>, ops: seq<Op>) {
    |count| == 19 && Sum(count) == |ops| && forall c :: 0 <= c < 19 ==> count[c] == OpCount(ops, c)
  }

  /** The packed bytes and counters so far, for the sizes `done`. */
  ghost predicate Packing(packed: seq<nat>, count: seq<nat>, ops: seq<Op>, done: seq<nat>) {
    && packed == Flat(ops) && Undo(ops) == Some(done) && Counted(count, ops)
    && (forall i :: 0 <= i < |ops| ==> OpOk(ops[i]))
    && |ops| <= |packed| <= |done|
  }

  lemma PackingStep(packed: seq<nat>, count: seq<nat>, ops: seq<Op>, done: seq<nat>, o: Op, more: seq<nat>)
    requires Packing(packed, count, ops, done) && OpOk(o) && UndoOp(done, o) == Some(done + more) && |OpBytes(o)| <= |more|
    ensures Packing(packed + OpBytes(o), count[o.code := count[o.code] + 1], ops + [o], done + more)
  {
    assert (ops + [o])[..|ops|] == ops;
    SumUpdate(count, o.code, count[o.code] + 1);
    assert Undo(ops + [o]) == UndoOp(done, o);
  }

  /** Appends one code and counts it. */
  method PutOp(packed: seq<nat>, count: array<u16>, o: Op, ghost ops: seq<Op>, ghost done: seq<nat>, ghost more: seq<nat>)
    returns (packed': seq<nat>, ghost ops': seq<Op>)
    requires Packing(packed, count[..], ops, done) && |done| < 0x1000 && OpOk(o)
    requires UndoOp(done, o) == Some(done + more) && |OpBytes(o)| <= |more|
    modifies count
    ensures Packing(packed', count[..], ops', done + more)
  {
    PackingStep(packed, count[..], ops, done, o, more);
    ghost var c: seq<nat> := count[..];
    count[o.code] := (count[o.code] + 1) % 0x1_0000;
    assert count[..] == c[o.code := c[o.code] + 1];
    packed', ops' := packed + OpBytes(o), ops + [o];
  }

  /** Writes out a pending run of a repeated non-zero size. */
  method FlushRepeats(packed: seq<nat>, count: array<u16>, prev: nat, n: nat, ghost ops: seq<Op>, ghost done: seq<nat>)
    returns (packed': seq<nat>, ghost ops': seq<Op>)
    requires Packing(packed, count[..], ops, done) && |done| < 0x800 && n <= 6
    requires n > 0 ==> 0 < prev < 16 && done != [] && done[|done| - 1] == prev
    modifies count
    ensures Packing(packed', count[..], ops', done + Repeat(prev, n))
  {
    packed', ops' := packed, ops;
    if n < 3 {
      assert done + Repeat(prev, 0) == done;
      for i := 0 to n
        invariant Packing(packed', count[..], ops', done + Repeat(prev, i))
      {
        assert done + Repeat(prev, i) + [prev] == done + Repeat(prev, i + 1);
        packed', ops' := PutOp(packed', count, Op(prev, 0), ops', done + Repeat(prev, i), [prev]);
      }
    } else {
      packed', ops' := PutOp(packed, count, Op(16, n - 3), ops, done, Repeat(prev, n));
    }
  }

  /** Writes out a pending run of zeros. */
  method FlushZeros(packed: seq<nat>, count: array<u16>, n: nat, ghost ops: seq<Op>, ghost done: seq<nat>)
    returns (packed': seq<nat>, ghost ops': seq<Op>)
    requires Packing(packed, count[..], ops, done) && |done| < 0x800 && n <= 138
    modifies count
    ensures Packing(packed', count[..], ops', done + Repeat(0, n))
  {
    packed', ops' := packed, ops;
    if n < 3 {
      assert done + Repeat(0, 0) == done;
      for i := 0 to n
        invariant Packing(packed', count[..], ops', done + Repeat(0, i))
      {
        assert done + Repeat(0, i) + [0] == done + Repeat(0, i + 1);
        packed', ops' := PutOp(packed', count, Op(0, 0), ops', done + Repeat(0, i), [0]);
      }
    } else if n <= 10 {
      packed', ops' := PutOp(packed, count, Op(17, n - 3), ops, done, Repeat(0, n));
    } else {
      packed', ops' := PutOp(packed, count, Op(18, n - 11), ops, done, Repeat(0, n));
    }
  }

  /** The sizes seen so far: those packed, then the pending run of zeros or of the last size. */
  ghost predicate Runs(done: seq<nat>, z: nat, rep: nat, prev: nat, s: seq<nat>) {
    && s == done + Repeat(0, z) + Repeat(prev, rep) && (z == 0 || rep == 0) && z < 138 && rep < 6
    && (if s == [] then prev == 255 else prev == s[|s| - 1] < 16)
    && (prev == 0 || s == [] || (done != [] && done[|done| - 1] == prev))
    && (z > 0 ==> prev == 0) && (rep > 0 ==> 0 < prev < 16)
  }

  lemma RunsLast(done: seq<nat>, z: nat, rep: nat, prev: nat, s: seq<nat>)
    requires Runs(done, z, rep, prev, s)
    ensures z == 0 ==> done + Repeat(prev, rep) == s
    ensures rep == 0 ==> done + Repeat(0, z) == s
    ensures |s| == |done| + z + rep
  {
  }

  lemma RunsZero(done: seq<nat>, z: nat, s: seq<nat>)
    requires s == done + Repeat(0, z) && z < 138
    ensures done + Repeat(0, z + 1) == s + [0]
    ensures z + 1 < 138 ==> Runs(done, z + 1, 0, 0, s + [0])
    ensures z + 1 == 138 ==> Runs(s + [0], 0, 0, 0, s + [0])
  {
  }

  lemma RunsPlain(s: seq<nat>, c: nat)
    requires 0 < c < 16
    ensures Runs(s + [c], 0, 0, c, s + [c])
  {
  }

  lemma RunsAgain(done: seq<nat>, rep: nat, c: nat, s: seq<nat>)
    requires Runs(done, 0, rep, c, s) && 0 < c < 16
    ensures done + Repeat(c, rep + 1) == s + [c]
    ensures rep + 1 < 6 ==> Runs(done, 0, rep + 1, c, s + [c])
    ensures rep + 1 == 6 ==> Runs(s + [c], 0, 0, c, s + [c])
  {
  }

  /** Packs the next size, zero or not. */
  method PackZero(packed0: seq<nat>, count: array<u16>, z0: nat, rep: nat, prev: nat, ghost ops0: seq<Op>, ghost done0: seq<nat>, ghost s: seq<nat>)
    returns (packed: seq<nat>, z: nat, ghost ops: seq<Op>, ghost done: seq<nat>)
    requires Packing(packed0, count[..], ops0, done0) && Runs(done0, z0, rep, prev, s) && |s| < 0x400
    modifies count
    ensures Packing(packed, count[..], ops, done) && Runs(done, z, 0, 0, s + [0])
  {
    RunsLast(done0, z0, rep, prev, s);
    packed, ops := packed0, ops0;
    done, z := done0, z0;
    if rep > 0 {
      packed, ops := FlushRepeats(packed, count, prev, rep, ops, done);
      done := s;
      assert done + Repeat(0, z) == s;
    }
    RunsZero(done, z, s);
    z := z + 1;
    if z == 138 {
      packed, ops := FlushZeros(packed, count, z, ops, done);
      done, z := s + [0], 0;
    }
  }

  method PackSize(packed0: seq<nat>, count: array<u16>, z: nat, rep0: nat, prev: nat, c: nat,
                  ghost ops0: seq<Op>, ghost done0: seq<nat>, ghost s: seq<nat>)
    returns (packed: seq<nat>, rep: nat, ghost ops: seq<Op>, ghost done: seq<nat>)
    requires Packing(packed0, count[..], ops0, done0) && Runs(done0, z, rep0, prev, s) && |s| < 0x400 && 0 < c < 16
    modifies count
    ensures Packing(packed, count[..], ops, done) && Runs(done, 0, rep, c, s + [c])
  {
    RunsLast(done0, z, rep0, prev, s);
    packed, ops := packed0, ops0;
    done, rep := done0, rep0;
    if z > 0 {
      packed, ops := FlushZeros(packed, count, z, ops, done);
      done := s;
    }
    if c != prev {
      if rep > 0 {
        packed, ops := FlushRepeats(packed, count, prev, rep, ops, done);
        done, rep := s, 0;
      }
      assert done == s by {
        assert Repeat(0, 0) == [] && s + [] == s && done0 + [] == done0;
      }
      packed, ops := PutOp(packed, count, Op(c, 0), ops, s, [c]);
      RunsPlain(s, c);
      done := s + [c];
    } else {
      RunsAgain(done, rep, c, s);
      rep := rep + 1;
      if rep == 6 {
        packed, ops := FlushRepeats(packed, count, c, rep, ops, done);
        done, rep := s + [c], 0;
      }
    }
  }

  /** Packs all sizes; the packed form means just these sizes and is no longer than they are. */
  method PackSizes(sizes: seq<nat>, count: array<u16>) returns (packed: seq<nat>, ghost ops: seq<Op>)
    requires |sizes| <= 320 && Valid(sizes) && count.Length == 19
    modifies count
    ensures Packing(packed, count[..], ops, sizes)
  {
    forall i | 0 <= i < 19 {
      count[i] := 0;
    }
    packed, ops := [], [];
    ghost var done := [];
    var z: nat, rep: nat, prev: nat := 0, 0, 255;
    SumOfZeros(count[..]);
    for i := 0 to |sizes|
      invariant Packing(packed, count[..], ops, done) && Runs(done, z, rep, prev, sizes[..i])
    {
      assert sizes[..i + 1] == sizes[..i] + [sizes[i]];
      if sizes[i] == 0 {
        packed, z, ops, done := PackZero(packed, count, z, rep, prev, ops, done, sizes[..i]);
        rep := 0;
      } else {
        packed, rep, ops, done := PackSize(packed, count, z, rep, prev, sizes[i], ops, done, sizes[..i]);
        z := 0;
      }
      prev := sizes[i];
    }
    assert sizes[..|sizes|] == sizes;
    RunsLast(done, z, rep, prev, sizes);
    if rep > 0 {
      packed, ops := FlushRepeats(packed, count, prev, rep, ops, done);
    } else {
      packed, ops := FlushZeros(packed, count, z, ops, done);
    }
  }
}
