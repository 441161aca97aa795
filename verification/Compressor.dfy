/** The compressor: input is moved into the circular dictionary, parsed into literals and matches, and
    flushed block by block. */
module Compressor {
  import opened Bits
  import opened Canonical
  import opened HuffmanBuilder
  import opened LzCopy
  import opened InflateSpec
  import opened Blocks
  import opened Tokens
  import opened TokenBuffer
  import opened BitBuffer
  import opened BitSink
  import opened BlockFlush
  import opened Chunking
  import opened Dictionary
  import opened Parser

  /** Puts a string into the hash chains: it becomes the head of its chain, its predecessor follows it. */
  method InsertHash(hash: array<u16>, next: array<u16>, h: nat, insPos: nat)
    requires hash.Length == HASH_SIZE && next.Length == WINDOW && h < HASH_SIZE && hash != next
    modifies hash, next
    ensures next[..] == old(next[..])[insPos % WINDOW := old(hash[h])]
    ensures hash[..] == old(hash[..])[h := insPos % 0x1_0000]
  {
    next[insPos % WINDOW] := hash[h];
    hash[h] := insPos % 0x1_0000;
  }

  /** Stores a byte and hashes the three bytes that end with it. */
  method StoreHashed(dict: array<byte>, hash: array<u16>, next: array<u16>, dst: nat, c: byte, h: nat, insPos: nat, ghost input: seq<byte>)
    returns (h2: nat)
    requires Holds(dict[..], input) && dst == |input| % WINDOW && hash.Length == HASH_SIZE && next.Length == WINDOW && h < HASH_SIZE
    requires hash != next
    modifies dict, hash, next
    ensures Holds(dict[..], input + [c]) && h2 == Mix(h, c) < HASH_SIZE
  {
    hide Window, Mirrored, Pow2, Holds;
    Store(dict, dst, c, input);
    ghost var d := dict[..];
    h2 := Mix(h, c);
    InsertHash(hash, next, h2, insPos);
    assert dict[..] == d;
  }

  /** Moves `n` bytes into the dictionary behind the bytes already there, hashing as it goes. */
  method FillHashed(dict: array<byte>, hash: array<u16>, next: array<u16>, end: nat, src: seq<byte>, at: nat, n: nat, ghost input: seq<byte>)
    requires Holds(dict[..], input) && end == |input| >= 2 && at + n <= |src| && hash.Length == HASH_SIZE && next.Length == WINDOW
    requires hash != next
    modifies dict, hash, next
    ensures Holds(dict[..], input + src[at..at + n])
  {
    hide Window, Mirrored, Pow2, Holds, Mix;
    HoldsLength(dict[..], input);
    var dst, insPos := end % WINDOW, end - 2;
    var d0: nat, d1: nat := dict[insPos % WINDOW], dict[(insPos + 1) % WINDOW];
    Pow2Values();
    var h: nat := Xor(d0 * 32, d1, 15);
    assert input + src[at..at + 0] == input;
    for i := 0 to n
      invariant Holds(dict[..], input + src[at..at + i]) && dst == (end + i) % WINDOW && h < HASH_SIZE && insPos == end + i - 2
    {
      var c := src[at + i];
      assert input + src[at..at + i] + [c] == input + src[at..at + i + 1];
      h := StoreHashed(dict, hash, next, dst, c, h, insPos, input + src[at..at + i]);
      dst := (dst + 1) % WINDOW;
      insPos := insPos + 1;
    }
  }

  /** The first bytes, before there are enough of them to hash. */
  method FillFirst(dict: array<byte>, hash: array<u16>, next: array<u16>, pos: nat, look0: nat, dictSize: nat, src: seq<byte>, at: nat, n: nat,
                   ghost input: seq<byte>)
    requires Holds(dict[..], input) && pos + look0 == |input| && dictSize <= pos && at + n <= |src|
    requires hash.Length == HASH_SIZE && next.Length == WINDOW && hash != next
    modifies dict, hash, next
    ensures Holds(dict[..], input + src[at..at + n])
  {
    hide Window, Mirrored;
    assert input + src[at..at + 0] == input;
    HoldsLength(dict[..], input);
    for i := 0 to n
      invariant Holds(dict[..], input + src[at..at + i])
    {
      var c := src[at + i];
      assert input + src[at..at + i] + [c] == input + src[at..at + i + 1];
      var dst := (pos + look0 + i) % WINDOW;
      Store(dict, dst, c, input + src[at..at + i]);
      ghost var d3 := dict[..];
      var look := look0 + i + 1;
      if look + dictSize >= MIN_MATCH {
        var insPos := pos + (look - 1) - 2;
        var d0: nat, d1: nat := dict[insPos % WINDOW], dict[(insPos + 1) % WINDOW];
        Pow2Values();
        InsertHash(hash, next, Xor(Xor(d0 * 1024, d1 * 32, 15), c, 15), insPos);
      }
      assert dict[..] == d3;
    }
  }

  function Lesser(a: nat, b: nat): nat {
    if a < b then a else b
  }

  /** A dictionary that has seen nothing. */
  method NewDictionary() returns (dict: array<byte>)
    ensures fresh(dict) && dict.Length == WINDOW + MIRROR && Holds(dict[..], [])
  {
    dict := new byte[WINDOW + MIRROR](i => 0);
    assert Mirrored(dict[..]);
    assert Window(dict[..][..WINDOW], []);
  }

  method NewParts() returns (dict: array<byte>, hash: array<u16>, next: array<u16>, buf: Buffer, sink: Sink)
    ensures fresh(dict) && fresh(hash) && fresh(next) && fresh(buf) && fresh(sink)
    ensures fresh(buf.codes) && fresh(buf.litCount) && fresh(buf.distCount)
    ensures dict.Length == WINDOW + MIRROR && Holds(dict[..], []) && hash.Length == HASH_SIZE && next.Length == WINDOW && hash != next
    ensures dict != buf.codes && hash != buf.litCount && hash != buf.distCount && next != buf.litCount && next != buf.distCount
    ensures buf.Valid() && buf.codes.Length == CODE_BUF_SIZE && buf.Tokens() == [] && buf.ptr == 1
    ensures sink.Valid() && sink.cap == OUT_CAP && sink.sent == [] && sink.before == [] && sink.full == []
  {
    hide Holds;
    buf := new Buffer();
    hash := new u16[HASH_SIZE](i => 0);
    next := new u16[WINDOW](i => 0);
    dict := NewDictionary();
    sink := new Sink(OUT_CAP);
  }

  /** Empties all hash chains. */
  method ClearHashes(hash: array<u16>, next: array<u16>)
    requires hash != next
    modifies hash, next
    ensures (forall i :: 0 <= i < hash.Length ==> hash[i] == 0) && forall i :: 0 <= i < next.Length ==> next[i] == 0
  {
    forall i | 0 <= i < hash.Length {
      hash[i] := 0;
    }
    forall i | 0 <= i < next.Length {
      next[i] := 0;
    }
  }

  lemma StandsEmpty(ts: seq<Token>)
    requires ts == []
    ensures Stands([], 0, ts, 0)
  {
  }

  datatype Status = Okay | Finished | BadParam

  class Compressor {
    const cfg: Config
    const dict: array<byte>
    const hash: array<u16>
    const next: array<u16>
    const buf: Buffer
    const sink: Sink
    /** Position of the lookahead, its size, and how far back matches may reach. */
    var pos: nat
    var look: nat
    var dictSize: nat
    var saved: Saved
    /** Where the block being recorded began. */
    var start: nat
    /** Bytes flushed but not yet taken by the caller. */
    var pending: seq<byte>
    var prevStatus: Status
    var wantsToFinish: bool
    var finished: bool
    /** All input taken in, and the state of a decompressor that has read all that was flushed. */
    ghost var input: seq<byte>
    ghost var regs: Regs
    /** All bytes the caller was given. */
    ghost var taken: seq<byte>

    /** What never changes: sizes of the parts, and that they do not overlap. */
    ghost predicate Shape() {
      && cfg.probes >= 1 && cfg.longProbes >= 1
      && dict.Length == WINDOW + MIRROR && hash.Length == HASH_SIZE && next.Length == WINDOW && hash != next
      && dict != buf.codes && hash != buf.litCount && hash != buf.distCount && next != buf.litCount && next != buf.distCount
      && buf.codes.Length == CODE_BUF_SIZE && sink.cap == OUT_CAP
    }

    /** The dictionary, the lookahead and the saved match agree with the input. */
    ghost predicate Reading()
      reads this`pos, this`look, this`dictSize, this`saved, this`input, dict
    {
      Holds(dict[..], input) && PlaceOk(input, pos, look, dictSize) && SavedOk(input, pos, saved)
    }

    /** The recorded tokens give the input up to the position, less the byte held back. */
    ghost predicate Recording()
      reads this`pos, this`saved, this`start, this`input, buf, buf.codes, buf.litCount, buf.distCount
    {
      buf.Valid() && HeldBytes(saved) <= pos && Stands(input, start, buf.Tokens(), pos - HeldBytes(saved))
    }

    /** A decompressor given all bits so far has written the input before this block. */
    ghost predicate FlushedFor(inp: seq<byte>, ctl: Ctl)
      reads this`start, this`regs, sink
    {
      && sink.Valid() && sink.full == [] && start <= |inp|
      && regs.ctl == ctl && Carries(0, Start, sink.sent, [], regs, inp[..start])
    }

    ghost predicate FlushedTo(ctl: Ctl)
      reads this`start, this`regs, this`input, sink
    {
      FlushedFor(input, ctl)
    }

    ghost predicate Flushed()
      reads this`start, this`regs, this`input, sink
    {
      FlushedTo(BlockHead)
    }

    constructor (cfg: Config)
      requires cfg.probes >= 1 && cfg.longProbes >= 1
      ensures Shape()
      ensures Reading() && Recording() && Flushed() && buf.ptr == 1
      ensures input == [] && pending == [] && !finished && !wantsToFinish && sink.before == [] && this.cfg == cfg
      ensures taken == [] && prevStatus == Okay
      ensures fresh(dict) && fresh(hash) && fresh(next) && fresh(buf) && fresh(sink)
      ensures fresh(buf.codes) && fresh(buf.litCount) && fresh(buf.distCount)
    {
      hide *;
      this.cfg := cfg;
      var d, h, n, b, s := NewParts();
      ghost var zeros: seq<byte> := d[..];
      dict, hash, next, buf, sink := d, h, n, b, s;
      pos, look, dictSize, saved, start := 0, 0, 0, Nothing, 0;
      pending, prevStatus, wantsToFinish, finished := [], Okay, false, false;
      input, regs, taken := [], Start, [];
      new;
      hide *;
      assert dict[..] == zeros;
      Ready();
      Shaped();
    }

    lemma Shaped()
      requires cfg.probes >= 1 && cfg.longProbes >= 1
      requires dict.Length == WINDOW + MIRROR && hash.Length == HASH_SIZE && next.Length == WINDOW && hash != next
      requires dict != buf.codes && hash != buf.litCount && hash != buf.distCount && next != buf.litCount && next != buf.distCount
      requires buf.codes.Length == CODE_BUF_SIZE && sink.cap == OUT_CAP
      ensures Shape()
    {
    }

    /** A new compressor has nothing read, recorded or flushed. */
    lemma Ready()
      requires pos == look == dictSize == start == 0 && saved == Nothing && input == [] && regs == Start
      requires Holds(dict[..], []) && buf.Valid() && buf.Tokens() == []
      requires sink.Valid() && sink.full == [] && sink.sent == []
      ensures Reading() && Recording() && Flushed()
    {
      hide Holds, Carries, Stands, Buffer.Valid, Sink.Valid, Buffer.Tokens;
      CarriesNothing(0, Start, []);
      StandsEmpty(buf.Tokens());
      assert input[..start] == [];
    }

    // ----- recording

    /** Takes `n` bytes of input into the dictionary. */
    method Fill(src: seq<byte>, at: nat, n: nat)
      requires Shape() && Reading() && at + n <= |src| && look + n <= MAX_MATCH
      modifies dict, hash, next, this`look, this`dictSize, this`input
      ensures Reading() && input == old(input) + src[at..at + n] && look == old(look) + n
      ensures dictSize == Lesser(WINDOW - look, old(dictSize))
    {
      ghost var more := src[at..at + n];
      if look + dictSize >= MIN_MATCH - 1 {
        FillHashed(dict, hash, next, pos + look, src, at, n, input);
      } else {
        FillFirst(dict, hash, next, pos, look, dictSize, src, at, n, input);
      }
      if saved.Held? {
        UsableStays(input, more, pos - 1, saved.len, saved.dist);
      }
      look := look + n;
      input := input + more;
      dictSize := Lesser(WINDOW - look, dictSize);
    }

    /** One literal: the byte at the position given. */
    method RecordLiteral(lit: byte, ghost p: nat)
      requires Shape() && buf.Valid() && buf.ptr + 2 <= CODE_BUF_SIZE && p < |input| && lit == input[p]
      requires Stands(input, start, buf.Tokens(), p)
      modifies buf, buf.codes, buf.litCount, buf.distCount
      ensures buf.Valid() && Stands(input, start, buf.Tokens(), p + 1) && buf.ptr <= old(buf.ptr) + 2
    {
      StandsLiteral(input, start, buf.Tokens(), p);
      buf.Record(Lit(lit));
    }

    method RecordMatch(len: nat, dist: nat, ghost p: nat)
      requires Shape() && buf.Valid() && buf.ptr + 4 <= CODE_BUF_SIZE && Usable(input, p, len, dist)
      requires Stands(input, start, buf.Tokens(), p)
      modifies buf, buf.codes, buf.litCount, buf.distCount
      ensures buf.Valid() && Stands(input, start, buf.Tokens(), p + len) && buf.ptr <= old(buf.ptr) + 4
    {
      StandsMatch(input, start, buf.Tokens(), p, len, dist);
      buf.Record(Match(len, dist));
    }

    /** Records what the choice at the position calls for, and says how far to move on. */
    method Decide(dist: nat, len: nat, c: byte) returns (move: nat)
      requires Shape() && PlaceOk(input, pos, look, dictSize) && SavedOk(input, pos, saved) && Recording() && look > 0
      requires buf.ptr + 6 <= CODE_BUF_SIZE && c == input[pos]
      requires (dist > 0 ==> Usable(input, pos, len, dist)) && (saved.Held? && len > saved.len ==> dist > 0)
      modifies buf, buf.codes, buf.litCount, buf.distCount, this`saved
      ensures 1 <= move <= look && SavedOk(input, pos + move, saved) && buf.ptr <= old(buf.ptr) + 6
      ensures buf.Valid() && Stands(input, start, buf.Tokens(), pos + move - HeldBytes(saved))
    {
      hide Stands, TrueMatch, Laid, LitsCounted, DistsCounted, Buffer.Valid;
      move := 1;
      MatchFits(input, pos, len, dist);
      if saved.Held? {
        MatchFits(input, pos - 1, saved.len, saved.dist);
        if len > saved.len {
          RecordLiteral(saved.lit, pos - 1);
          if len >= 128 {
            RecordMatch(len, dist, pos);
            saved := Nothing;
            move := len;
          } else {
            saved := Held(c, len, dist);
          }
        } else {
          RecordMatch(saved.len, saved.dist, pos - 1);
          move := saved.len - 1;
          saved := Nothing;
        }
      } else if dist == 0 {
        RecordLiteral(c, pos);
      } else if cfg.greedy || cfg.rle || len >= 128 {
        RecordMatch(len, dist, pos);
        move := len;
      } else {
        saved := Held(c, len, dist);
      }
    }

    /** One round of the parser: choose, record, move on. */
    method ParseStep()
      requires Shape() && Reading() && Recording() && look > 0 && buf.ptr + 6 <= CODE_BUF_SIZE
      modifies buf, buf.codes, buf.litCount, buf.distCount, this`saved, this`pos, this`look, this`dictSize
      ensures Reading() && Recording() && pos > old(pos) && pos + look == old(pos + look) && buf.ptr <= old(buf.ptr) + 6
    {
      hide Holds, Stands, Usable, Buffer.Valid;
      ghost var d: seq<byte> := dict[..];
      var dist, len := ChooseMatch(dict, next, cfg, pos, look, dictSize, saved, input);
      HoldsLength(d, input);
      ReadAt(d, input, pos, 0);
      var move := Decide(dist, len, dict[pos % WINDOW]);
      assert dict[..] == d;
      pos := pos + move;
      look := look - move;
      dictSize := Lesser(dictSize + move, WINDOW);
    }

    // ----- flushing

    /** Flushes the block being recorded. Nothing may be waiting to be taken. */
    method FlushNow(flush: Flush) returns (bytes: seq<byte>)
      requires Shape() && Reading() && Recording() && Flushed()
      modifies this`start, this`regs, buf, buf.codes, buf.litCount, buf.distCount, sink
      ensures Reading() && Recording() && buf.ptr == 1 && start == pos - HeldBytes(saved)
      ensures FlushedTo(if flush == Finish then Ctl.Done else BlockHead) && sink.before == old(sink.before) + bytes
      ensures flush != NoFlush ==> WholeBytes(|sink.sent|)
    {
      hide Holds, Carries, Stands, SavedOk, PlaceOk, InDictionary, Buffer.Valid, Sink.Valid, Buffer.Tokens, Expand;
      ghost var ts, d, parsed, s0, r0 := buf.Tokens(), dict[..], pos - HeldBytes(saved), sink.sent, regs;
      StandsFacts(input, start, ts, parsed);
      ghost var out, out2 := input[..start], input[..parsed];
      buf.TotalIsLength();
      if pos - start <= dictSize {
        BlockInDictionary(d, input, start, pos, look, dictSize, parsed, buf.total, ts);
      }
      var total := buf.total;
      ghost var bits, r2;
      bytes, bits, r2 := FlushBlock(sink, buf, dict, start, pos - start, dictSize, cfg.forceRaw, cfg.forceStatic, flush, regs, out);
      assert dict[..] == d;
      start := start + total;
      regs := r2;
      CarriesBoth(0, Start, s0, [], r0, out, bits, r2, out2);
      StandsNothing(input, start, buf.Tokens());
    }

    lemma PlaceFacts()
      requires Reading()
      ensures look <= MAX_MATCH && |input| == pos + look && (look == 0 ==> saved == Nothing)
    {
      hide Holds, TrueMatch;
      if saved.Held? {
        MatchFits(input, pos - 1, saved.len, saved.dist);
      }
    }

    /** Time to flush: the code buffer is nearly full, or the block is long and does not compress well. */
    predicate BlockIsFull()
      reads buf
    {
      || buf.ptr > CODE_BUF_SIZE - 8
      || (buf.total > 31 * 1024 && (buf.ptr * 115 / 128 >= buf.total || cfg.forceRaw))
    }

    /** Takes in more input as far as there is room to look ahead, and parses one position if it may. */
    method Round(src: seq<byte>, at0: nat, flush: Flush) returns (at: nat, stop: bool)
      requires Shape() && Reading() && Recording() && at0 <= |src| && buf.ptr <= CODE_BUF_SIZE - 8
      requires at0 < |src| || (flush != NoFlush && look > 0)
      modifies dict, hash, next, buf, buf.codes, buf.litCount, buf.distCount
      modifies this`pos, this`look, this`dictSize, this`saved, this`input
      ensures Reading() && Recording() && at0 <= at <= |src| && input == old(input) + src[at0..at]
      ensures stop ==> flush == NoFlush && at == |src| && buf.ptr <= CODE_BUF_SIZE - 8
      ensures !stop ==> (|src| - at) + look < (|src| - at0) + old(look)
      ensures if stop then pos == old(pos) else pos > old(pos)
    {
      hide Holds, Carries, Stands, SavedOk, Buffer.Valid, Sink.Valid, Buffer.Tokens;
      var n := Lesser(|src| - at0, MAX_MATCH - look);
      ghost var old0, ts, parsed := input, buf.Tokens(), pos - HeldBytes(saved);
      Fill(src, at0, n);
      at := at0 + n;
      StandsMore(old0, src[at0..at], start, ts, parsed);
      PlaceFacts();
      stop := flush == NoFlush && look < MAX_MATCH;
      if !stop {
        ParseStep();
        PlaceFacts();
      }
    }

    /** compress_normal: parses the input, flushing full blocks, until all of it is taken in or flushed
        bytes have to wait for room. */
    method CompressNormal(src: seq<byte>, flush: Flush, room: nat) returns (at: nat, given: seq<byte>)
      requires Shape() && Reading() && Recording() && Flushed() && pending == [] && buf.ptr <= CODE_BUF_SIZE - 8
      modifies dict, hash, next, buf, buf.codes, buf.litCount, buf.distCount, sink
      modifies this`pos, this`look, this`dictSize, this`saved, this`input, this`start, this`regs, this`pending
      ensures Reading() && Recording() && Flushed() && buf.ptr <= CODE_BUF_SIZE - 8
      ensures at <= |src| && input == old(input) + src[..at] && |given| <= room
      ensures sink.before == old(sink.before) + given + pending
      ensures if pending == [] then at == |src| && (flush != NoFlush ==> look == 0) else |given| == room && pos > old(pos)
      ensures pos >= old(pos)
    {
      hide Reading, Recording, FlushedFor;
      at, given := 0, [];
      assert src[..0] == [] && input + [] == input && sink.before + [] + [] == sink.before;
      while at < |src| || (flush != NoFlush && look > 0)
        invariant Reading() && Recording() && Flushed() && pending == [] && buf.ptr <= CODE_BUF_SIZE - 8
        invariant at <= |src| && input == old(input) + src[..at] && |given| <= room
        invariant sink.before == old(sink.before) + given && pos >= old(pos)
        decreases (|src| - at) + look
      {
        ghost var at0 := at;
        var stop;
        at, stop := Round(src, at, flush);
        assert src[..at0] + src[at0..at] == src[..at];
        StillFlushed(old(input) + src[..at0], src[at0..at]);
        if stop {
          break;
        }
        if BlockIsFull() {
          var bytes := FlushNow(NoFlush);
          var n := Lesser(|bytes|, room - |given|);
          given, pending := given + bytes[..n], bytes[n..];
          assert bytes[..n] + bytes[n..] == bytes;
          if pending != [] {
            return;
          }
        }
      }
    }

    // ----- whole calls

    /** All input is in the bits, and they are whole bytes. */
    ghost predicate Synced()
      reads this`start, this`input, sink
    {
      start == |input| && WholeBytes(|sink.sent|)
    }

    ghost predicate Valid()
      reads this, dict, buf, buf.codes, buf.litCount, buf.distCount, sink
    {
      && Shape() && Reading() && Recording() && FlushedTo(if finished then Ctl.Done else BlockHead)
      && buf.ptr <= CODE_BUF_SIZE - 8 && sink.before == taken + pending
      && (finished ==> Synced())
    }

    /** A call has come nearer to the end: it parsed on, flushed for the last time, or handed something over. */
    predicate Nearer(pos0: nat, finished0: bool, waiting0: nat)
      reads this`pos, this`finished, this`pending
    {
      || pos > pos0
      || (pos == pos0 && finished && !finished0)
      || (pos == pos0 && finished == finished0 && |pending| < waiting0)
    }

    /** Hands over waiting bytes as far as there is room. */
    method TakePending(room: nat) returns (given: seq<byte>)
      modifies this`pending
      ensures given + pending == old(pending) && |given| <= room && (|given| == room || pending == [])
    {
      var n := Lesser(|pending|, room);
      given, pending := pending[..n], pending[n..];
    }

    /** The final flush of a call whose input is all parsed. */
    method FlushCall(flush: Flush, room: nat) returns (given: seq<byte>)
      requires Shape() && Reading() && Recording() && Flushed() && pending == [] && look == 0 && flush != NoFlush
      modifies this`start, this`regs, this`pending, this`finished, this`dictSize, hash, next, buf, buf.codes, buf.litCount, buf.distCount, sink
      ensures Reading() && Recording() && buf.ptr == 1 && start == |input| && |given| <= room
      ensures FlushedTo(if finished then Ctl.Done else BlockHead) && sink.before == old(sink.before) + given + pending
      ensures WholeBytes(|sink.sent|) && (finished <==> flush == Finish)
      ensures pending != [] ==> |given| == room
    {
      hide Holds, Carries, Stands, SavedOk, Buffer.Valid, Sink.Valid, Buffer.Tokens, FlushedFor;
      PlaceFacts();
      var bytes := FlushNow(flush);
      var n := Lesser(|bytes|, room);
      given, pending := bytes[..n], bytes[n..];
      assert bytes[..n] + bytes[n..] == bytes;
      finished := flush == Finish;
      if flush == FullFlush {
        ClearHashes(hash, next);
        dictSize := 0;
      }
    }

    /** Parses the input and, once all of it is parsed, flushes if the call asks for it. */
    method Work(src: seq<byte>, flush: Flush, room: nat) returns (consumed: nat, given: seq<byte>)
      requires Shape() && Reading() && Recording() && Flushed() && pending == [] && !finished && buf.ptr <= CODE_BUF_SIZE - 8
      modifies dict, hash, next, buf, buf.codes, buf.litCount, buf.distCount, sink
      modifies this`pos, this`look, this`dictSize, this`saved, this`input, this`start, this`regs, this`pending, this`finished
      ensures consumed <= |src| && |given| <= room && input == old(input) + src[..consumed]
      ensures Reading() && Recording() && FlushedTo(if finished then Ctl.Done else BlockHead) && buf.ptr <= CODE_BUF_SIZE - 8
      ensures sink.before == old(sink.before) + given + pending
      ensures finished ==> flush == Finish && consumed == |src| && Synced()
      ensures pending == [] ==> consumed == |src| && (finished <==> flush == Finish) && (flush != NoFlush ==> Synced())
      ensures pending != [] ==> |given| == room && (flush == Finish ==> pos > old(pos) || finished)
      ensures pos >= old(pos)
    {
      hide Shape, Reading, Recording, FlushedFor;
      consumed, given := CompressNormal(src, flush, room);
      if flush != NoFlush && look == 0 && consumed == |src| && pending == [] {
        var more := FlushCall(flush, room - |given|);
        assert old(sink.before) + given + [] + more + pending == old(sink.before) + (given + more) + pending;
        given := given + more;
      }
    }

    /** What a call does once its arguments are accepted: hands over what is waiting, or parses on. */
    method Proceed(src: seq<byte>, flush: Flush, room: nat) returns (consumed: nat, given: seq<byte>)
      requires Valid()
      modifies dict, hash, next, buf, buf.codes, buf.litCount, buf.distCount, sink
      modifies this`pos, this`look, this`dictSize, this`saved, this`input, this`start, this`regs, this`pending, this`finished, this`taken
      ensures consumed <= |src| && |given| <= room
      ensures Valid() && input == old(input) + src[..consumed] && taken == old(taken) + given
      ensures pending == [] || |given| == room
      ensures old(pending) == [] && !old(finished) && pending == [] ==> consumed == |src| && (finished <==> flush == Finish)
      ensures flush != NoFlush && old(pending) == [] && pending == [] ==> Synced()
      ensures old(finished) ==> finished
      ensures finished && !old(finished) ==> flush == Finish && consumed == |src|
      ensures flush == Finish && room > 0 && !(finished && pending == []) ==> Nearer(old(pos), old(finished), |old(pending)|)
    {
      hide Shape, Reading, Recording, FlushedFor, Compressor.FlushedTo;
      consumed, given := 0, [];
      assert src[..0] == [] && input + [] == input;
      if pending != [] || finished {
        given := TakePending(room);
        assert taken + (given + pending) == taken + given + pending;
      } else {
        consumed, given := Work(src, flush, room);
      }
      taken := taken + given;
    }

    /** One call: takes in `src`, hands over at most `room` bytes. */
    method Compress(src: seq<byte>, room: nat, flush: Flush) returns (status: Status, consumed: nat, given: seq<byte>)
      requires Valid()
      modifies this, dict, hash, next, buf, buf.codes, buf.litCount, buf.distCount, sink
      ensures consumed <= |src| && |given| <= room
      ensures status == BadParam <==> old(prevStatus) != Okay || (old(wantsToFinish) && flush != Finish)
      ensures Valid() && input == old(input) + src[..consumed] && taken == old(taken) + given
      ensures status == BadParam ==> consumed == 0 && given == []
      ensures status == Finished <==> status != BadParam && finished && pending == []
      ensures status == Okay ==> pending != [] || old(pending) != [] || (consumed == |src| && flush != Finish)
      ensures prevStatus == status
      ensures status != BadParam ==> pending == [] || |given| == room
      ensures status != BadParam && old(pending) == [] && pending == [] ==> old(finished) || consumed == |src|
      ensures status != BadParam && flush != NoFlush && old(pending) == [] && pending == [] ==> Synced()
      ensures wantsToFinish <==> old(wantsToFinish) || (status != BadParam && flush == Finish)
      ensures finished ==> old(finished) || (status != BadParam && flush == Finish && consumed == |src|)
      ensures status == Okay && flush == Finish && room > 0 ==> Nearer(old(pos), old(finished), |old(pending)|)
    {
      hide Shape, Reading, Recording, FlushedFor, Compressor.FlushedTo;
      consumed, given := 0, [];
      assert src[..0] == [] && input + [] == input && taken + [] == taken;
      if prevStatus != Okay || (wantsToFinish && flush != Finish) {
        status, prevStatus := BadParam, BadParam;
        return;
      }
      wantsToFinish := wantsToFinish || flush == Finish;
      consumed, given := Proceed(src, flush, room);
      status := if finished && pending == [] then Finished else Okay;
      prevStatus := status;
    }

    /** After the end, the bytes handed over inflate to the whole input. */
    lemma EndInflates()
      requires Valid() && finished && pending == []
      ensures Deflated(taken, Ref(regs, [], input))
    {
      hide Reading, Recording;
      var rest: Stream := [];
      HandedOver();
      assert sink.sent + rest == sink.sent;
      assert CarriesTo(Start, sink.sent, rest, [], regs, input);
    }

    /** After a flush whose bytes were all handed over, they inflate to the whole input so far, and what
        comes later goes on from there. */
    lemma FlushInflates(later: seq<byte>)
      requires Valid() && Synced() && !finished && pending == []
      ensures Inflates(Ref(Start, BytesToBits(taken + later), []), Ref(regs, BytesToBits(later), input)) && regs.ctl.BlockHead?
    {
      HandedOver();
      FlushedCarries();
      CarriesOn(sink.sent, taken, later, regs, input);
    }

    lemma FlushedCarries()
      requires Valid() && Synced() && !finished
      ensures Carries(0, Start, sink.sent, [], regs, input[..start]) && regs.ctl.BlockHead?
    {
      hide Reading, Recording, Carries;
    }

    lemma HandedOver()
      requires Valid() && Synced() && pending == []
      ensures sink.sent == BytesToBits(taken) && input[..start] == input
    {
      hide Reading, Recording;
      assert taken + pending == taken && taken + sink.full == taken;
      NoPartialByte(|taken|, sink.bitsIn);
      assert ToBits(sink.bitBuffer, 0) == [];
    }

    /** Taking in input does not change what was flushed. */
    lemma StillFlushed(inp: seq<byte>, more: seq<byte>)
      requires FlushedFor(inp, BlockHead)
      ensures FlushedFor(inp + more, BlockHead)
    {
      hide Carries, Sink.Valid;
      assert (inp + more)[..start] == inp[..start];
    }
  }

  lemma CarriesOn(sent: Stream, given: seq<byte>, later: seq<byte>, r: Regs, out: seq<byte>)
    requires Carries(0, Start, sent, [], r, out) && sent == BytesToBits(given) && WholeBytes(|sent|)
    ensures Inflates(Ref(Start, BytesToBits(given + later), []), Ref(r, BytesToBits(later), out))
  {
    hide *;
    BytesToBitsAppend(given, later);
    WholeWithLater(sent, later);
    Delivered(sent, BytesToBits(later), r, out);
  }

  lemma Delivered(sent: Stream, rest: Stream, r: Regs, out: seq<byte>)
    requires Carries(0, Start, sent, [], r, out) && WholeBytes(0 + |sent| + |rest|)
    ensures Inflates(Ref(Start, sent + rest, []), Ref(r, rest, out))
  {
    hide Inflates, WholeBytes;
    assert CarriesTo(Start, sent, rest, [], r, out);
  }

  lemma WholeWithLater(sent: Stream, later: seq<byte>)
    requires WholeBytes(|sent|)
    ensures WholeBytes(0 + |sent| + |BytesToBits(later)|)
  {
    hide WholeBytes;
    WholeOfBytes(|later|);
    WholeAppend(|sent|, 8 * |later|);
  }

  lemma NoPartialByte(n: nat, bits: nat)
    requires bits < 8
    ensures WholeBytes(8 * n + bits) ==> bits == 0
  {
    WholeOfBytes(n);
    WholeAppend(8 * n, bits);
  }

  /** What `Stands` says of lengths and expansions. */
  lemma StandsFacts(input: seq<byte>, start: nat, ts: seq<Token>, parsed: nat)
    requires Stands(input, start, ts, parsed)
    ensures start <= parsed <= |input| && Expand(input[..start], ts) == Some(input[..parsed]) && TotalLength(ts) == parsed - start
  {
    ExpandLength(input[..start], ts);
  }

  lemma {:induction false} ExpandLength(out: seq<byte>, ts: seq<Token>)
    requires Expand(out, ts).Some?
    ensures |Expand(out, ts).value| == |out| + TotalLength(ts)
    decreases |ts|
  {
    if ts != [] {
      ExpandLength(out, ts[..|ts| - 1]);
    }
  }

  lemma StandsNothing(input: seq<byte>, start: nat, ts: seq<Token>)
    requires ts == [] && start <= |input|
    ensures Stands(input, start, ts, start)
  {
  }

  /** A block that begins within reach can be read back from the dictionary. */
  lemma BlockInDictionary(dict: seq<byte>, input: seq<byte>, start: nat, pos: nat, look: nat, dictSize: nat, parsed: nat, total: nat, ts: seq<Token>)
    requires Holds(dict, input) && PlaceOk(input, pos, look, dictSize) && start <= parsed <= pos <= start + dictSize && total == parsed - start
    requires Expand(input[..start], ts) == Some(input[..parsed])
    ensures InDictionary(dict, start, total, ts, input[..start])
  {
    hide Holds, Expand;
    HoldsLength(dict, input);
    forall i | 0 <= i < total
      ensures Ring(dict, start, total)[i] == input[start + i]
    {
      ReadAt(dict, input, start + i, 0);
    }
    assert input[..parsed] == input[..start] + Ring(dict, start, total);
  }

  lemma MatchFits(input: seq<byte>, p: nat, len: nat, dist: nat)
    ensures Usable(input, p, len, dist) ==> MIN_MATCH <= len <= MAX_MATCH && 1 <= dist <= WINDOW && p + len <= |input|
  {
  }
}
