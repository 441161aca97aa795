/** What the reference steps do over a whole stored block or a whole match. */
module ReferenceRuns {
  import opened Bits
  import opened Canonical
  import opened Machine
  import opened InflateSpec
  import opened LzCopy

  lemma {:induction false} StoredRun(r: Regs, left: nat, bytes: seq<byte>, rest: Stream, out: seq<byte>)
    requires r.ctl == RawData(left) && |bytes| <= left
    ensures Inflates(Ref(r, BytesToBits(bytes) + rest, out), Ref(r.(ctl := RawData(left - |bytes|)), rest, out + bytes))
    decreases |bytes|
  {
    hide Step;
    var a := Ref(r, BytesToBits(bytes) + rest, out);
    if bytes == [] {
      assert BytesToBits(bytes) + rest == rest && out + bytes == out && r.(ctl := RawData(left)) == r;
      ReachesSelf(Step, a);
    } else {
      var c := bytes[0];
      var b := Ref(r.(ctl := RawByte(c, left - 1)), BytesToBits(bytes[1..]) + rest, out);
      assert BytesToBits(bytes) + rest == ToBits(c, 8) + (BytesToBits(bytes[1..]) + rest);
      StoredByte(r, left, c, BytesToBits(bytes[1..]) + rest, out);
      var e := Ref(r.(ctl := RawData(left - 1)), BytesToBits(bytes[1..]) + rest, out + [c]);
      StoredRun(e.regs, left - 1, bytes[1..], rest, out + [c]);
      assert out + [c] + bytes[1..] == out + bytes;
      ReachesTrans(Step, a, e, Ref(r.(ctl := RawData(left - |bytes|)), rest, out + bytes));
    }
  }

  lemma StoredByte(r: Regs, left: nat, c: byte, rest: Stream, out: seq<byte>)
    requires r.ctl == RawData(left) && left > 0
    ensures Inflates(Ref(r, ToBits(c, 8) + rest, out), Ref(r.(ctl := RawData(left - 1)), rest, out + [c]))
  {
    hide Value;
    var a := Ref(r, ToBits(c, 8) + rest, out);
    var b := Ref(r.(ctl := RawByte(c, left - 1)), rest, out);
    Pow2Values();
    ValueOfToBits(c, 8);
    assert a.rest[..8] == ToBits(c, 8) && a.rest[8..] == rest;
    assert ReadBits(a, 8) == Some(b);
    ReachesStep(Step, a, b);
    ReachesStep(Step, b, Ref(r.(ctl := RawData(left - 1)), rest, out + [c]));
    ReachesTrans(Step, a, b, Ref(r.(ctl := RawData(left - 1)), rest, out + [c]));
  }

  /** The reference takes one step for every byte of a match. */
  lemma {:induction false} CopyPart(r: Regs, len: nat, n: nat, dist: nat, rest: Stream, out: seq<byte>)
    requires r.ctl == Copy(len, dist) && 1 <= dist <= |out| && n <= len
    ensures Inflates(Ref(r, rest, out), Ref(r.(ctl := Copy(len - n, dist)), rest, CopyOut(out, n, dist)))
    decreases n
  {
    var a := Ref(r, rest, out);
    var e := Ref(r.(ctl := Copy(len - n, dist)), rest, CopyOut(out, n, dist));
    if n == 0 {
      ReachesSelf(Step, a);
    } else {
      var b := Ref(r.(ctl := Copy(len - 1, dist)), rest, out + [out[|out| - dist]]);
      ReachesStep(Step, a, b);
      CopyPart(b.regs, len - 1, n - 1, dist, rest, b.out);
      ReachesTrans(Step, a, b, e);
    }
  }

  /** And one to be done with it. */
  lemma CopyRun(r: Regs, len: nat, dist: nat, rest: Stream, out: seq<byte>)
    requires r.ctl == Copy(len, dist) && 1 <= dist <= |out|
    ensures Inflates(Ref(r, rest, out), Ref(r.(ctl := Symbols), rest, CopyOut(out, len, dist)))
  {
    var b := Ref(r.(ctl := Copy(0, dist)), rest, CopyOut(out, len, dist));
    CopyPart(r, len, len, dist, rest, out);
    ReachesStep(Step, b, b.(regs := r.(ctl := Symbols)));
    ReachesTrans(Step, Ref(r, rest, out), b, b.(regs := r.(ctl := Symbols)));
  }
}
