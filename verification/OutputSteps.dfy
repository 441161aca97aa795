/** The steps of the decompressor that write: literals, stored bytes and matches, each as far as the
    room of the call allows, and the fast path that decodes two symbols with no check in between. */
module OutputSteps {
  import opened Bits
  import opened Canonical
  import opened Machine
  import opened InflateSpec
  import opened ReferenceRuns
  import opened BitBuffer
  import opened SymbolReader
  import opened LzCopy
  import opened InflateSteps

  /** What a step of a call came to. */
  datatype Pace = Go | NeedsInput | NeedsRoom

  /** The next thing to happen is that a byte is written. */
  predicate WantsRoom(r: Regs, pos: nat) {
    match r.ctl
    case LitOut(_) => true
    case RawByte(_, _) => true
    case RawData(left) => left > 0
    case Copy(len, dist) => len > 0 && 1 <= dist <= pos
    case _ => false
  }

  /** A match whose bytes a circular buffer does not have. Nothing there stops it, and what is copied is no
      output of the stream. */
  predicate BadCopy(mode: Mode, r: Regs, n: nat) {
    mode.Circular? && r.ctl.Copy? && !InReach(mode, n, r.ctl.dist)
  }

  /** The run from `a` comes to such a match. */
  ghost predicate Strays(mode: Mode, a: Ref) {
    exists c: Ref :: Inflates(a, c) && BadCopy(mode, c.regs, |c.out|)
  }

  /** `b` is a later state of the run from `a`, unless that run leaves the stream. */
  ghost predicate Went(mode: Mode, a: Ref, b: Ref) {
    Follows(a, b) || Strays(mode, a)
  }

  lemma WentTrans(mode: Mode, a: Ref, b: Ref, c: Ref)
    requires Went(mode, a, b) && Went(mode, b, c)
    ensures Went(mode, a, c)
  {
    hide BadCopy, Step;
    if Inflates(a, b) && Strays(mode, b) {
      var e: Ref :| Inflates(b, e) && BadCopy(mode, e.regs, |e.out|);
      ReachesTrans(Step, a, b, e);
      assert Inflates(a, e);
    } else if !Strays(mode, a) && Follows(b, c) {
      FollowsTrans(a, b, c);
    }
  }

  lemma StraysHere(mode: Mode, a: Ref)
    requires BadCopy(mode, a.regs, |a.out|)
    ensures Strays(mode, a)
  {
    ReachesSelf(Step, a);
    assert Inflates(a, a);
  }

  lemma StraysLater(mode: Mode, a: Ref, b: Ref)
    requires Went(mode, a, b) && Strays(mode, b)
    ensures Strays(mode, a) || Derails(a)
  {
    hide BadCopy, Step;
    if Inflates(a, b) {
      var e: Ref :| Inflates(b, e) && BadCopy(mode, e.regs, |e.out|);
      ReachesTrans(Step, a, b, e);
      assert Inflates(a, e);
    }
  }

  /** A step from `s` with output `out` to `d` with output `out2`. */
  ghost predicate Took(mode: Mode, s: Session, out: seq<byte>, d: Session, out2: seq<byte>, start: Stream, inp: seq<byte>, future: seq<byte>) {
    && s.c.cur <= |inp| && SessionOk(d, start, inp)
    && Went(mode, RefOf(s, out, inp, future), RefOf(d, out2, inp, future))
  }

  /** Why a step went on or not; `out` is the output after it. */
  ghost predicate Paced(mode: Mode, p: Pace, s: Session, room: int, d: Session, room': int, out: seq<byte>, inp: seq<byte>) {
    match p
    case Go => Closer(s, room, d, room', inp)
    case NeedsInput => Starved(d, out, inp)
    case NeedsRoom => room' == 0 && (WantsRoom(d.r, |out|) || BadCopy(mode, d.r, |out|))
  }

  lemma TookTrans(mode: Mode, a: Session, o: seq<byte>, b: Session, p: seq<byte>, c: Session, q: seq<byte>,
                  start: Stream, inp: seq<byte>, future: seq<byte>)
    requires Took(mode, a, o, b, p, start, inp, future) && Took(mode, b, p, c, q, start, inp, future)
    ensures Took(mode, a, o, c, q, start, inp, future)
  {
    hide Went;
    WentTrans(mode, RefOf(a, o, inp, future), RefOf(b, p, inp, future), RefOf(c, q, inp, future));
  }

  /** A step that changes only the registers, and perhaps adds a byte. */
  lemma TookStep(mode: Mode, s: Session, out: seq<byte>, r: Regs, out2: seq<byte>, start: Stream, inp: seq<byte>, future: seq<byte>)
    requires SessionOk(s, start, inp) && RegsOk(r) && TabsOk(r, s.tabs) && !r.ctl.Done?
    requires Step(RefOf(s, out, inp, future)) == Some(RefOf(s.(r := r), out2, inp, future))
    ensures Took(mode, s, out, s.(r := r), out2, start, inp, future)
  {
    FollowsStep(RefOf(s, out, inp, future), RefOf(s.(r := r), out2, inp, future));
  }

  // ----- single bytes

  function AfterByte(r: Regs): Regs {
    match r.ctl
    case RawByte(_, left) => r.(ctl := RawData(left))
    case _ => r.(ctl := Symbols)
  }

  function ByteOf(r: Regs): byte
    requires r.ctl.LitOut? || r.ctl.RawByte?
  {
    if r.ctl.LitOut? then r.ctl.b else r.ctl.b
  }

  /** Writes the byte in hand, if there is room. */
  method PutByte(mode: Mode, s: Session, buf: array<byte>, pos: nat, limit: nat, inp: seq<byte>, ghost out: seq<byte>,
                 ghost start: Stream, ghost future: seq<byte>)
    returns (pace: Pace, d: Session, at: nat)
    requires SessionOk(s, start, inp) && (s.r.ctl.LitOut? || s.r.ctl.RawByte?) && pos <= limit <= buf.Length
    modifies buf
    ensures Wrote(old(buf[..]), buf[..], pos, at) && at <= limit
    ensures Took(mode, s, out, d, out + buf[pos..at], start, inp, future)
    ensures Paced(mode, pace, s, limit - pos, d, limit - at, out + buf[pos..at], inp)
  {
    pace, d, at := NeedsRoom, s, pos;
    if pos < limit {
      buf[pos] := ByteOf(s.r);
      assert buf[pos..pos + 1] == [ByteOf(s.r)];
      TookStep(mode, s, out, AfterByte(s.r), out + [ByteOf(s.r)], start, inp, future);
      pace, d, at := Go, s.(r := AfterByte(s.r)), pos + 1;
    } else {
      NothingWritten(out, buf[..], pos);
      FollowsSelf(RefOf(s, out, inp, future));
    }
  }

  lemma NothingWritten(out: seq<byte>, a: seq<byte>, pos: nat)
    requires pos <= |a|
    ensures out + a[pos..pos] == out
  {
  }

  // ----- byte boundaries

  /** The bits before the next byte boundary are those of the buffer. */
  lemma PartOfByte(c: Cursor, inp: seq<byte>, future: seq<byte>)
    requires c.cur <= |inp|
    ensures |RestOf(c, inp, future)| % 8 == c.b.n % 8
  {
    assert |RestOf(c, inp, future)| == c.b.n + 8 * |inp[c.cur..] + future|;
  }

  function AfterAlign(r: Regs): Regs {
    r.(ctl := if r.ctl.RawAlign? then RawHeader([]) else Ctl.Done)
  }

  lemma AlignStep(r: Ref, k: nat)
    requires (r.regs.ctl.RawAlign? || r.regs.ctl.LastAlign?) && k == |r.rest| % 8
    ensures k <= |r.rest| && Step(r) == Some(Ref(AfterAlign(r.regs), r.rest[k..], r.out))
  {
  }

  method SkipToByte(s: Session, inp: seq<byte>, ghost start: Stream, ghost future: seq<byte>, ghost out: seq<byte>)
    returns (d: Session)
    requires SessionOk(s, start, inp) && (s.r.ctl.RawAlign? || s.r.ctl.LastAlign?)
    ensures SessionOk(d, start, inp) && Follows(RefOf(s, out, inp, future), RefOf(d, out, inp, future))
    ensures Closer(s, 0, d, 0, inp)
  {
    hide Rest, Held;
    var k: nat := s.c.b.n % 8;
    PartOfByte(s.c, inp, future);
    AlignStep(RefOf(s, out, inp, future), k);
    var v, c := TakeBits(s.c, k, inp, start, future);
    d := Session(AfterAlign(s.r), c, s.tabs);
    DropsToByte(s.c.b.n);
    FollowsStep(RefOf(s, out, inp, future), RefOf(d, out, inp, future));
  }

  // ----- stored data

  function Least(a: nat, b: nat, c: nat): (m: nat)
    ensures m <= a && m <= b && m <= c && (m == a || m == b || m == c)
  {
    if a <= b && a <= c then a else if b <= c then b else c
  }

  /** Bytes taken straight from the input, past an empty bit buffer. */
  lemma StoredFollows(s: Session, n: nat, out: seq<byte>, start: Stream, inp: seq<byte>, future: seq<byte>)
    requires SessionOk(s, start, inp) && s.r.ctl.RawData? && s.c.b.n == 0 && n <= s.r.ctl.left && s.c.cur + n <= |inp|
    ensures var d := Session(s.r.(ctl := RawData(s.r.ctl.left - n)), Cursor(s.c.b, s.c.cur + n), s.tabs);
      SessionOk(d, start, inp) && Follows(RefOf(s, out, inp, future), RefOf(d, out + inp[s.c.cur..s.c.cur + n], inp, future))
  {
    hide BytesToBits;
    var cur := s.c.cur;
    var bytes := inp[cur..cur + n];
    var d := Session(s.r.(ctl := RawData(s.r.ctl.left - n)), Cursor(s.c.b, cur + n), s.tabs);
    assert inp[cur..] + future == bytes + (inp[cur + n..] + future);
    BytesToBitsAppend(bytes, inp[cur + n..] + future);
    assert RestOf(s.c, inp, future) == BytesToBits(bytes) + RestOf(d.c, inp, future);
    StoredRun(s.r, s.r.ctl.left, bytes, RestOf(d.c, inp, future), out);
    assert HeldAfter(d.c.b, start, start + BytesToBits(inp[..cur + n]), inp, cur + n);
  }

  /** Copies as much stored data as input and room allow. */
  method CopyStored(mode: Mode, s: Session, buf: array<byte>, pos: nat, limit: nat, inp: seq<byte>, ghost out: seq<byte>,
                    ghost start: Stream, ghost future: seq<byte>)
    returns (pace: Pace, d: Session, at: nat)
    requires SessionOk(s, start, inp) && s.r.ctl.RawData? && s.r.ctl.left > 0 && s.c.b.n == 0 && pos <= limit <= buf.Length
    modifies buf
    ensures Wrote(old(buf[..]), buf[..], pos, at) && at <= limit
    ensures Took(mode, s, out, d, out + buf[pos..at], start, inp, future)
    ensures Paced(mode, pace, s, limit - pos, d, limit - at, out + buf[pos..at], inp)
  {
    FollowsSelf(RefOf(s, out, inp, future));
    NothingWritten(out, buf[..], pos);
    if pos == limit {
      return NeedsRoom, s, pos;
    }
    if s.c.cur == |inp| {
      assert |RestOf(s.c, inp, [])| == 0;
      return NeedsInput, s, pos;
    }
    var n := Least(limit - pos, |inp| - s.c.cur, s.r.ctl.left);
    forall i | 0 <= i < n {
      buf[pos + i] := inp[s.c.cur + i];
    }
    assert buf[..pos + n][pos..] == inp[s.c.cur..s.c.cur + n] && buf[..pos + n][pos..] == buf[pos..pos + n];
    StoredFollows(s, n, out, start, inp, future);
    pace, d, at := Go, Session(s.r.(ctl := RawData(s.r.ctl.left - n)), Cursor(s.c.b, s.c.cur + n), s.tabs), pos + n;
  }

  // ----- matches

  /** What a match that was copied as far as `n` bytes has come to, if its bytes were there. */
  lemma CopyTook(mode: Mode, s: Session, n: nat, out: seq<byte>, out2: seq<byte>, start: Stream, inp: seq<byte>, future: seq<byte>)
    requires SessionOk(s, start, inp) && s.r.ctl.Copy? && n <= s.r.ctl.len && (mode.Flat? ==> InReach(mode, |out|, s.r.ctl.dist))
    requires InReach(mode, |out|, s.r.ctl.dist) ==> out2 == CopyOut(out, n, s.r.ctl.dist)
    ensures Took(mode, s, out, s.(r := s.r.(ctl := Copy(s.r.ctl.len - n, s.r.ctl.dist))), out2, start, inp, future)
    ensures n == s.r.ctl.len ==> Took(mode, s, out, s.(r := s.r.(ctl := Symbols)), out2, start, inp, future)
  {
    hide WholeBytes, RestOf, Inflates, TabFor, Step, ReadStep, HeldAfter, ReadSymbol, OnBits, OnSymbol, CopyOut, Strays;
    var len, dist := s.r.ctl.len, s.r.ctl.dist;
    if InReach(mode, |out|, dist) {
      CopyPart(s.r, len, n, dist, RestOf(s.c, inp, future), out);
      CopyRun(s.r, len, dist, RestOf(s.c, inp, future), out);
    } else {
      StraysHere(mode, RefOf(s, out, inp, future));
    }
  }

  /** A match that fits, all at once. */
  method CopyWhole(mode: Mode, buf: array<byte>, pos: nat, limit: nat, len: nat, dist: nat, src: nat, ghost out: seq<byte>)
    requires Room(mode, buf[..], pos, limit, out) && src == Source(mode, pos, dist) && src + len <= limit && pos + len <= limit
    requires mode.Flat? ==> InReach(mode, |out|, dist)
    modifies buf
    ensures Wrote(old(buf[..]), buf[..], pos, pos + len)
    ensures InReach(mode, |out|, dist) ==> out + buf[pos..pos + len] == CopyOut(out, len, dist)
  {
    ghost var a := buf[..];
    CopyThree(buf, src, pos, len);
    ForwardWrote(a, src, pos, len);
    assert buf[pos..pos + len] == buf[..][pos..pos + len];
    if InReach(mode, |out|, dist) && len > 0 {
      SourceIs(mode, a, pos, limit, out, dist);
      ForwardIsCopyOut(a, pos, out, len, dist, src);
    }
  }

  /** Copies a match from earlier output, or as much of it as there is room for. Only a flat buffer makes sure
      that the output reaches back that far. */
  method CopyMatch(mode: Mode, s: Session, buf: array<byte>, pos: nat, limit: nat, inp: seq<byte>, ghost out: seq<byte>,
                   ghost start: Stream, ghost future: seq<byte>)
    returns (pace: Pace, d: Session, at: nat)
    requires SessionOk(s, start, inp) && s.r.ctl.Copy? && Room(mode, buf[..], pos, limit, out)
    modifies buf
    ensures Wrote(old(buf[..]), buf[..], pos, at) && at <= limit
    ensures Took(mode, s, out, d, out + buf[pos..at], start, inp, future)
    ensures Paced(mode, pace, s, limit - pos, d, limit - at, out + buf[pos..at], inp)
  {
    hide View, SessionOk, Strays, Follows, RestOf, Went, CopyOut;
    var len, dist := s.r.ctl.len, s.r.ctl.dist;
    pace, d, at := Go, s, pos;
    NothingWritten(out, buf[..], pos);
    if mode.Flat? && (dist == 0 || dist > pos) {
      var r := s.r.(ctl := Ctl.Failed);
      TookFailed(mode, s, out, r, start, inp, future);
      d := s.(r := r);
      return;
    }
    var src := Source(mode, pos, dist);
    if pos + len > limit || src + len > limit {
      if pos == limit {
        TookNothing(mode, s, out, start, inp, future);
        pace := NeedsRoom;
        return;
      }
      var left;
      at, left := CopyWrapped(mode, buf, pos, limit, len, dist, out);
      CopyTook(mode, s, len - left, out, out + buf[pos..at], start, inp, future);
      d := s.(r := s.r.(ctl := if left == 0 then Symbols else Copy(left, dist)));
    } else {
      CopyWhole(mode, buf, pos, limit, len, dist, src, out);
      at := pos + len;
      CopyTook(mode, s, len, out, out + buf[pos..at], start, inp, future);
      d := s.(r := s.r.(ctl := Symbols));
    }
  }

  lemma TookNothing(mode: Mode, s: Session, out: seq<byte>, start: Stream, inp: seq<byte>, future: seq<byte>)
    requires SessionOk(s, start, inp)
    ensures Took(mode, s, out, s, out, start, inp, future)
  {
    FollowsSelf(RefOf(s, out, inp, future));
  }

  lemma TookFailed(mode: Mode, s: Session, out: seq<byte>, r: Regs, start: Stream, inp: seq<byte>, future: seq<byte>)
    requires SessionOk(s, start, inp) && s.r.ctl.Copy? && !(1 <= s.r.ctl.dist <= |out|) && r == s.r.(ctl := Ctl.Failed)
    ensures Took(mode, s, out, s.(r := r), out, start, inp, future)
  {
    TookStep(mode, s, out, r, out, start, inp, future);
  }

  // ----- the fast path

  /** A code of no bits is found only where no symbol of an incomplete code begins. */
  lemma NoBitsNoSymbol(s: Session, c: Cursor, sym: nat, out: seq<byte>, inp: seq<byte>, future: seq<byte>)
    requires s.r.ctl.Symbols? && s.c.cur <= |inp| && c.cur == s.c.cur && c.b.n == s.c.b.n
    requires Decoded(s.r.lit, RestOf(s.c, inp, future), sym, RestOf(c, inp, future))
    ensures Step(RefOf(s, out, inp, future)).None?
  {
    assert |RestOf(c, inp, future)| == |RestOf(s.c, inp, future)|;
  }

  /** One symbol, with at least 15 bits held. A code of no bits is given up at once. */
  method FastSymbol(s: Session, inp: seq<byte>, ghost start: Stream, ghost future: seq<byte>, ghost out: seq<byte>)
    returns (ok: bool, sym: nat, d: Session)
    requires SessionOk(s, start, inp) && s.r.ctl.Symbols? && s.c.b.n >= MAX_SIZE
    ensures SessionOk(d, start, inp) && Follows(RefOf(s, out, inp, future), RefOf(d, out, inp, future)) && sym < 512
    ensures ok ==> d.r == OnSymbol(s.r, sym) && d.c.b.n >= s.c.b.n - MAX_SIZE && d.tabs == s.tabs
    ensures ok ==> Avail(d.c, inp) < Avail(s.c, inp)
    ensures !ok ==> d.r.ctl.Failed? && Closer(s, 0, d, 0, inp) && Derails(RefOf(s, out, inp, future))
  {
    var codeLen, c;
    sym, codeLen, c := TakeSymbol(s.tabs.lit, s.c, inp, s.r.lit, start, future);
    ok := codeLen > 0;
    if ok {
      OnSymbolRegs(s.r, sym);
      OnSymbolTabs(s.r, s.tabs, sym);
      d := Session(OnSymbol(s.r, sym), c, s.tabs);
      SymbolFollows(s, d, sym, out, inp, future);
    } else {
      d := Session(s.r.(ctl := Ctl.Failed), c, s.tabs);
      NoBitsNoSymbol(s, c, sym, out, inp, future);
      FollowsStep(RefOf(s, out, inp, future), RefOf(d, out, inp, future));
      ReachesSelf(Step, RefOf(s, out, inp, future));
    }
  }

  lemma DerailsLater(a: Ref, b: Ref, c: Ref)
    requires Follows(a, b) && Derails(b)
    ensures Follows(a, c)
  {
    if Inflates(a, b) {
      var d: Ref :| Reaches(Step, b, d) && Step(d).None?;
      ReachesTrans(Step, a, b, d);
    }
  }

  lemma WentOff(mode: Mode, a: Ref, b: Ref, c: Ref)
    requires Went(mode, a, b) && Derails(b)
    ensures Went(mode, a, c)
  {
    if Follows(a, b) {
      DerailsLater(a, b, c);
    }
  }

  /** Writing a literal that was decoded with room to spare. */
  lemma LiteralTook(mode: Mode, s: Session, d: Session, out: seq<byte>, b: byte, start: Stream, inp: seq<byte>, future: seq<byte>)
    requires Took(mode, s, out, d, out, start, inp, future) && d.r.ctl == LitOut(b)
    ensures Took(mode, s, out, d.(r := d.r.(ctl := Symbols)), out + [b], start, inp, future)
  {
    var r := d.r.(ctl := Symbols);
    TookStep(mode, d, out, r, out + [b], start, inp, future);
    TookTrans(mode, s, out, d, out, d.(r := r), out + [b], start, inp, future);
  }

  /** Tops the bit buffer up by four bytes at once. */
  method FetchFour(s: Session, inp: seq<byte>, ghost start: Stream, ghost future: seq<byte>, ghost out: seq<byte>) returns (d: Session)
    requires SessionOk(s, start, inp) && s.r.ctl.Symbols? && |inp| - s.c.cur >= 4
    ensures d == s.(c := d.c) && SessionOk(d, start, inp) && Follows(RefOf(s, out, inp, future), RefOf(d, out, inp, future)) && Avail(d.c, inp) == Avail(s.c, inp)
    ensures d.c.b.n >= 30
  {
    var c := s.c;
    if c.b.n < 30 {
      c := FetchByte(c, inp, start, future);
      c := FetchByte(c, inp, start, future);
      c := FetchByte(c, inp, start, future);
      c := FetchByte(c, inp, start, future);
    }
    d := s.(c := c);
    FollowsSelf(RefOf(s, out, inp, future));
  }

  /** Decodes up to two symbols while at least four bytes of input and two of room are left. */
  method FastPair(mode: Mode, s: Session, buf: array<byte>, pos: nat, limit: nat, inp: seq<byte>, ghost out: seq<byte>,
                  ghost start: Stream, ghost future: seq<byte>)
    returns (d: Session, at: nat)
    requires SessionOk(s, start, inp) && s.r.ctl.Symbols? && pos <= limit <= buf.Length
    requires |inp| - s.c.cur >= 4 && limit - pos >= 2
    modifies buf
    ensures Wrote(old(buf[..]), buf[..], pos, at) && at <= limit
    ensures Took(mode, s, out, d, out + buf[pos..at], start, inp, future)
    ensures Paced(mode, Go, s, limit - pos, d, limit - at, out + buf[pos..at], inp)
  {
    hide RestOf, TabFor, Follows, Strays, HeldAfter;
    NothingWritten(out, buf[..], pos);
    var e := FetchFour(s, inp, start, future, out);
    var ok, sym, f := FastSymbol(e, inp, start, future, out);
    TookTrans(mode, s, out, e, out, f, out, start, inp, future);
    if !ok || sym >= 256 {
      return f, pos;
    }
    LiteralTook(mode, s, f, out, sym, start, inp, future);
    f := f.(r := f.r.(ctl := Symbols));
    var ok2, sym2, g := FastSymbol(f, inp, start, future, out + [sym]);
    TookTrans(mode, s, out, f, out + [sym], g, out + [sym], start, inp, future);
    if !ok2 {
      WentOff(mode, RefOf(s, out, inp, future), RefOf(f, out + [sym], inp, future), RefOf(g, out, inp, future));
      return g, pos;
    }
    buf[pos] := sym;
    assert buf[pos..pos + 1] == [sym];
    if sym2 >= 256 {
      return g, pos + 1;
    }
    LiteralTook(mode, f, g, out + [sym], sym2, start, inp, future);
    d, at := g.(r := g.r.(ctl := Symbols)), pos + 2;
    TookTrans(mode, s, out, f, out + [sym], d, out + [sym] + [sym2], start, inp, future);
    buf[pos + 1] := sym2;
    assert out + buf[pos..pos + 2] == out + [sym] + [sym2];
  }
}
