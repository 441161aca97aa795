/** Compressing in any sequence of calls and inflating in any pieces gives the input back. */
module RoundTrip {
  import opened Bits
  import opened InflateSpec
  import opened BlockFlush
  import opened Parser
  import opened Compressor
  import opened Chunking

  /** One call of the compressor: how much input it is offered, how much room, and which flush. */
  datatype Call = Call(size: nat, room: nat, flush: Flush)

  /** Once a call asks for the end, all later ones do. */
  predicate Orderly(calls: seq<Call>) {
    forall i, j :: 0 <= i < j < |calls| && calls[i].flush == Finish ==> calls[j].flush == Finish
  }

  predicate AsksForEnd(calls: seq<Call>) {
    exists i :: 0 <= i < |calls| && calls[i].flush == Finish
  }

  /** What is kept by every call: `packed` was handed over for `data[..used]`. */
  ghost predicate Under(c: Compressor, data: seq<byte>, used: nat, packed: seq<byte>, status: Status)
    reads c, c.dict, c.buf, c.buf.codes, c.buf.litCount, c.buf.distCount, c.sink
  {
    && used <= |data| && c.Valid() && c.prevStatus == status && c.input == data[..used] && c.taken == packed
    && (status == Finished ==> c.finished && c.pending == []) && (c.finished ==> c.wantsToFinish)
  }

  /** Makes the calls in turn until one reports the end of the stream or is refused. */
  method MakeCalls(c: Compressor, data: seq<byte>, calls: seq<Call>) returns (status: Status, used: nat, packed: seq<byte>)
    requires Under(c, data, 0, [], Okay) && !c.wantsToFinish
    modifies c, c.dict, c.hash, c.next, c.buf, c.buf.codes, c.buf.litCount, c.buf.distCount, c.sink
    ensures Under(c, data, used, packed, status)
    ensures Orderly(calls) ==> status != BadParam
    ensures c.wantsToFinish ==> AsksForEnd(calls)
  {
    hide Compressor.Valid;
    used, packed, status := 0, [], Okay;
    var i := 0;
    assert data[..0] == [];
    while i < |calls| && status == Okay
      invariant 0 <= i <= |calls| && Under(c, data, used, packed, status)
      invariant Orderly(calls) ==> status != BadParam
      invariant c.wantsToFinish ==> AsksForEnd(calls[..i])
    {
      var upTo := used + Smaller(calls[i].size, |data| - used);
      var consumed, given;
      assert AsksForEnd(calls[..i]) && calls[i].flush != Finish ==> !Orderly(calls);
      status, consumed, given := c.Compress(data[used..upTo], calls[i].room, calls[i].flush);
      assert data[..used] + data[used..upTo][..consumed] == data[..used + consumed];
      assert AsksForEnd(calls[..i]) ==> AsksForEnd(calls[..i + 1]);
      assert calls[i].flush == Finish ==> calls[..i + 1][i].flush == Finish;
      used, packed, i := used + consumed, packed + given, i + 1;
    }
    assert AsksForEnd(calls[..i]) ==> AsksForEnd(calls);
  }

  /** Asks for the end with everything that is left, as often as it takes: if every call has some room the
      end is reached. */
  method FinishCalls(c: Compressor, data: seq<byte>, used0: nat, packed0: seq<byte>, room: nat -> nat)
    returns (used: nat, packed: seq<byte>)
    requires Under(c, data, used0, packed0, Okay) && forall i :: room(i) > 0
    modifies c, c.dict, c.hash, c.next, c.buf, c.buf.codes, c.buf.litCount, c.buf.distCount, c.sink
    ensures Under(c, data, used, packed, Finished) && (old(c.finished) || used == |data|)
  {
    hide Compressor.Valid;
    used, packed := used0, packed0;
    var i, status := 0, Okay;
    InBounds(c, data, used);
    while status == Okay
      invariant status != BadParam && Under(c, data, used, packed, status) && c.pos <= |data|
      invariant c.finished ==> old(c.finished) || used == |data|
      decreases if status == Okay then 1 else 0, |data| - c.pos, if c.finished then 0 else 1, |c.pending|
    {
      var consumed, given;
      status, consumed, given := c.Compress(data[used..], room(i), Finish);
      assert data[..used] + data[used..][..consumed] == data[..used + consumed];
      used, packed, i := used + consumed, packed + given, i + 1;
      InBounds(c, data, used);
    }
  }

  /** The position is within the data. */
  lemma InBounds(c: Compressor, data: seq<byte>, used: nat)
    requires c.Valid() && used <= |data| && c.input == data[..used]
    ensures c.pos <= |data|
  {
    hide Compressor.Reading, Compressor.Recording, Compressor.FlushedFor;
    c.PlaceFacts();
  }

  /** What came out of a compressor that reached the end. */
  lemma AtTheEnd(c: Compressor, data: seq<byte>, used: nat, packed: seq<byte>)
    requires Under(c, data, used, packed, Finished)
    ensures Deflated(packed, Ref(c.regs, [], data[..used]))
  {
    hide Compressor.Valid, Deflated;
    c.EndInflates();
  }

  method Fresh(data: seq<byte>, cfg: Config) returns (c: Compressor)
    requires cfg.probes >= 1 && cfg.longProbes >= 1
    ensures Under(c, data, 0, [], Okay) && !c.wantsToFinish
    ensures fresh(c) && fresh(c.dict) && fresh(c.hash) && fresh(c.next) && fresh(c.sink)
    ensures fresh(c.buf) && fresh(c.buf.codes) && fresh(c.buf.litCount) && fresh(c.buf.distCount)
  {
    hide Compressor.Reading, Compressor.Recording, Compressor.FlushedFor;
    c := new Compressor(cfg);
    assert data[..0] == [];
  }

  /** Makes the calls in turn. If the end is reached, what came out inflates to exactly the input that was
      taken in. */
  method DeflateInCalls(data: seq<byte>, cfg: Config, calls: seq<Call>) returns (done: bool, used: nat, packed: seq<byte>, ghost end: Ref)
    requires cfg.probes >= 1 && cfg.longProbes >= 1
    ensures used <= |data|
    ensures done ==> Deflated(packed, end) && end.out == data[..used] && end.rest == []
  {
    hide Compressor.Valid, Deflated;
    var c := Fresh(data, cfg);
    var status;
    status, used, packed := MakeCalls(c, data, calls);
    done, end := status == Finished, Ref(c.regs, [], c.input);
    if done {
      AtTheEnd(c, data, used, packed);
    }
  }

  /** Makes the calls in turn and then asks for the end until it is reached. It always is, unless a call was
      out of order; what came out then inflates to the input taken in, which is all of it unless one of the
      calls already asked for the end. */
  method DeflateAll(data: seq<byte>, cfg: Config, calls: seq<Call>, room: nat -> nat)
    returns (done: bool, used: nat, packed: seq<byte>, ghost end: Ref)
    requires cfg.probes >= 1 && cfg.longProbes >= 1 && forall i :: room(i) > 0
    ensures used <= |data|
    ensures (forall i, j :: 0 <= i < j < |calls| && calls[i].flush == Finish ==> calls[j].flush == Finish) ==> done
    ensures done ==> Deflated(packed, end) && end.out == data[..used] && end.rest == []
    ensures done && (forall i :: 0 <= i < |calls| ==> calls[i].flush != Finish) ==> used == |data|
  {
    hide Compressor.Valid, Deflated;
    var c := Fresh(data, cfg);
    var status;
    status, used, packed := MakeCalls(c, data, calls);
    done := status != BadParam;
    if status == Okay {
      used, packed := FinishCalls(c, data, used, packed, room);
    }
    end := Ref(c.regs, [], c.input);
    if done {
      AtTheEnd(c, data, used, packed);
    }
  }

  /** One finishing call is enough if its room is: it takes in everything and reaches the end, unless what
      comes out fills the room. */
  method DeflateAtOnce(data: seq<byte>, cfg: Config, room: nat) returns (status: Status, packed: seq<byte>, ghost end: Ref)
    requires cfg.probes >= 1 && cfg.longProbes >= 1
    ensures status == Finished || (status == Okay && |packed| == room)
    ensures status == Finished ==> Deflated(packed, end) && end.out == data && end.rest == []
  {
    hide Compressor.Reading, Compressor.Recording, Compressor.FlushedFor, Deflated;
    var c := new Compressor(cfg);
    end := Ref(Start, [], []);
    var consumed;
    status, consumed, packed := c.Compress(data, room, Finish);
    if status == Finished {
      c.EndInflates();
      assert [] + data[..consumed] == data && [] + packed == packed;
      end := Ref(c.regs, [], c.input);
    }
  }

  /** The round trip: any calls and then finishing ones, any probe and parser settings, any cutting of the
      packed bytes and of the room. */
  method RoundTrip(data: seq<byte>, cfg: Config, calls: seq<Call>, given: nat -> nat, buf: array<byte>, cut: nat -> nat, room: nat -> nat)
    returns (done: bool, used: nat, n: nat)
    requires cfg.probes >= 1 && cfg.longProbes >= 1 && buf.Length >= |data| && forall i :: given(i) > 0
    modifies buf
    ensures used <= |data| && n <= buf.Length
    ensures (forall i, j :: 0 <= i < j < |calls| && calls[i].flush == Finish ==> calls[j].flush == Finish) ==> done
    ensures done ==> buf[..n] == data[..used]
    ensures done && (forall i :: 0 <= i < |calls| ==> calls[i].flush != Finish) ==> buf[..n] == data
  {
    hide Deflated;
    var packed;
    ghost var end;
    done, used, packed, end := DeflateAll(data, cfg, calls, given);
    n := 0;
    if done {
      var all;
      n, all := InflateInPieces(packed, buf, cut, room, end);
    }
  }
}
