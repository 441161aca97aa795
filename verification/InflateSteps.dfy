/** The steps of the decompressor that only read: what is always true of its registers, and how each
    step follows one of `InflateSpec` or stops for want of input. */
module InflateSteps {
  import opened Bits
  import opened Canonical
  import opened Machine
  import opened InflateSpec
  import opened BitBuffer
  import opened DecodeTable
  import opened SymbolReader

  datatype Tabs = Tabs(lens: Tab, lit: Tab, dist: Tab)

  /** Registers, bits and input position, and tables, while a call runs. */
  datatype Session = Session(r: Regs, c: Cursor, tabs: Tabs)

  // ----- what is always true of the registers

  predicate RegsOk(r: Regs) {
    && |r.t| <= 3 && (|r.t| > 0 ==> r.t[0] <= 288) && (|r.t| > 1 ==> r.t[1] <= 32) && (|r.t| > 2 ==> r.t[2] <= 19)
    && (r.ctl.TableSizes? ==> |r.t| == r.ctl.k < 3)
    && |r.clens| <= 19 && Valid(r.clens) && Valid(r.lens)
    && |r.lit| <= 288 && Valid(r.lit) && |r.dist| <= 32 && Valid(r.dist)
  }

  /** In the states that decode symbols the tables are those of the registers' codes. */
  ghost predicate TabsOk(r: Regs, t: Tabs) {
    && (r.ctl.LenCodes? || r.ctl.LenRepeat? ==> TabFor(r.clens, t.lens))
    && (InBlock(r.ctl) ==> TabFor(r.lit, t.lit) && TabFor(r.dist, t.dist))
  }

  predicate InBlock(c: Ctl) {
    c.Symbols? || c.LitOut? || c.LenExtra? || c.DistSym? || c.DistExtra? || c.Copy?
  }

  /** Order of the states between which no bit is read and no byte written. */
  function Rank(r: Regs): nat {
    match r.ctl
    case BuildLens => 5000
    case LenCodes => if |r.lens| < 400 then 1400 - |r.lens| else 1000
    case LenRepeat(_) => 999
    case BuildBlock => 900
    case LenExtra(_) => 60
    case DistSym(_) => 50
    case DistExtra(_, _) => 40
    case Copy(_, _) => 30
    case Symbols => 20
    case LitOut(_) => 10
    case RawAlign => 9
    case RawHeader(_) => 8
    case RawByte(_, _) => 7
    case RawData(_) => 6
    case BlockEnd => 5
    case BlockHead => 4
    case LastAlign => 4
    case TableSizes(_) => 3
    case CodeLens(_) => 3
    case Done => 0
    case Failed => 0
  }

  lemma StaticValid()
    ensures Valid(StaticLit) && |StaticLit| == 288 && Valid(StaticDist) && |StaticDist| == 32
  {
  }

  lemma CodeLensRegs(r: Regs, v: nat)
    requires RegsOk(r) && r.ctl.CodeLens? && v < 8
    ensures RegsOk(OnBits(r, v))
  {
  }

  lemma LenRepeatRegs(r: Regs, v: nat)
    requires RegsOk(r) && r.ctl.LenRepeat?
    ensures RegsOk(OnBits(r, v))
  {
  }

  lemma TableSizesRegs(r: Regs, v: nat)
    requires RegsOk(r) && r.ctl.TableSizes? && v < 32 && (r.ctl.k == 2 ==> v < 16)
    ensures RegsOk(OnBits(r, v))
  {
    assert Valid(Repeat(0, 19));
  }

  /** The other states only move on. */
  lemma OtherRegs(r: Regs, v: nat)
    requires RegsOk(r) && !r.ctl.BlockHead? && !r.ctl.TableSizes? && !r.ctl.CodeLens? && !r.ctl.LenRepeat?
    ensures RegsOk(OnBits(r, v))
  {
    assert OnBits(r, v) == r.(ctl := OnBits(r, v).ctl) && !OnBits(r, v).ctl.TableSizes?;
  }

  lemma OnBitsRegs(r: Regs, n: nat, v: nat)
    requires RegsOk(r) && FixedBits(r.ctl) == Some(n) && v < Pow2(n)
    ensures RegsOk(OnBits(r, v))
  {
    if r.ctl.BlockHead? {
      StaticValid();
    } else if r.ctl.TableSizes? {
      Pow2Values();
      TableSizesRegs(r, v);
    } else if r.ctl.CodeLens? {
      Pow2Values();
      CodeLensRegs(r, v);
    } else if r.ctl.LenRepeat? {
      LenRepeatRegs(r, v);
    } else {
      OtherRegs(r, v);
    }
  }

  lemma OnBitsTabs(r: Regs, t: Tabs, v: nat)
    requires FixedBits(r.ctl).Some? && TabsOk(r, t)
    ensures TabsOk(OnBits(r, v), t) && !OnBits(r, v).ctl.Done?
  {
    hide TabFor;
  }

  lemma OnBitsRank(r: Regs, n: nat, v: nat)
    requires FixedBits(r.ctl) == Some(n)
    ensures n <= 13 && (n == 0 ==> Rank(OnBits(r, v)) < Rank(r))
  {
    match r.ctl {
      case LenExtra(sym) =>
      case DistExtra(len, sym) =>
      case LenRepeat(sym) =>
      case _ =>
    }
  }

  lemma OnSymbolRegs(r: Regs, s: nat)
    requires RegsOk(r) && SymbolCode(r).Some?
    ensures RegsOk(OnSymbol(r, s))
  {
  }

  lemma OnSymbolTabs(r: Regs, t: Tabs, s: nat)
    requires SymbolCode(r).Some? && TabsOk(r, t)
    ensures TabsOk(OnSymbol(r, s), t) && !OnSymbol(r, s).ctl.Done?
  {
  }

  lemma OnSymbolRank(r: Regs)
    requires RegsOk(r) && SymbolCode(r).Some?
    ensures Rank(OnSymbol(r, 0)) < Rank(r)
  {
  }

  // ----- following the reference steps

  ghost predicate Derails(a: Ref) {
    exists d: Ref :: Reaches(Step, a, d) && Step(d).None?
  }

  /** `b` is a later state of the run from `a`, unless that run meets input that is no DEFLATE data. */
  ghost predicate Follows(a: Ref, b: Ref) {
    Inflates(a, b) || Derails(a)
  }

  lemma FollowsTrans(a: Ref, b: Ref, c: Ref)
    requires Follows(a, b) && Follows(b, c)
    ensures Follows(a, c)
  {
    if Inflates(a, b) {
      if Inflates(b, c) {
        ReachesTrans(Step, a, b, c);
      } else {
        var d: Ref :| Reaches(Step, b, d) && Step(d).None?;
        ReachesTrans(Step, a, b, d);
      }
    }
  }

  lemma FollowsStep(a: Ref, b: Ref)
    requires Step(a) == Some(b) || Step(a).None?
    ensures Follows(a, b)
  {
    if Step(a).None? {
      ReachesSelf(Step, a);
      assert Derails(a);
    } else {
      ReachesStep(Step, a, b);
    }
  }

  lemma FollowsSelf(a: Ref)
    ensures Follows(a, a)
  {
    ReachesSelf(Step, a);
  }

  ghost function RefOf(s: Session, out: seq<byte>, inp: seq<byte>, future: seq<byte>): Ref
    requires s.c.cur <= |inp|
  {
    Ref(s.r, RestOf(s.c, inp, future), out)
  }

  ghost predicate SessionOk(s: Session, start: Stream, inp: seq<byte>) {
    && Held(s.c, start, inp) && s.c.cur <= |inp| && RegsOk(s.r) && TabsOk(s.r, s.tabs)
    && (s.r.ctl.Done? ==> WholeBytes(s.c.b.n))
  }

  /** Progress: fewer bits to read, or less room, or a later state. */
  predicate Closer(a: Session, room: int, b: Session, room': int, inp: seq<byte>) {
    || Avail(b.c, inp) < Avail(a.c, inp)
    || (Avail(b.c, inp) == Avail(a.c, inp) && (room' < room || (room' == room && Rank(b.r) < Rank(a.r))))
  }

  /** All input of the call is read, and without more of it there is no next step. */
  ghost predicate Starved(s: Session, out: seq<byte>, inp: seq<byte>) {
    s.c.cur == |inp| && Step(RefOf(s, out, inp, [])).None?
  }

  // ----- steps that only read

  /** GET_BITS: reads a fixed number of bits, or stops for lack of input. */
  method ReadFixed(s: Session, n: nat, inp: seq<byte>, ghost start: Stream, ghost future: seq<byte>, ghost out: seq<byte>)
    returns (go: bool, d: Session)
    requires SessionOk(s, start, inp) && FixedBits(s.r.ctl) == Some(n) && Silent(s.r).None?
    ensures SessionOk(d, start, inp) && s.c.cur <= d.c.cur
    ensures Follows(RefOf(s, out, inp, future), RefOf(d, out, inp, future))
    ensures if go then Closer(s, 0, d, 0, inp) else Starved(d, out, inp)
  {
    hide BytesToBits;
    ghost var a := RefOf(s, out, inp, future);
    var c := NeedBits(s.c, if n < 48 then n else 48, inp, start, future);
    go, d := false, s.(c := c);
    FollowsSelf(a);
    if c.b.n >= n {
      var v;
      v, c := TakeBits(c, n, inp, start, future);
      OnBitsRegs(s.r, n, v);
      OnBitsTabs(s.r, s.tabs, v);
      OnBitsRank(s.r, n, v);
      go, d := true, Session(OnBits(s.r, v), c, s.tabs);
      FollowsStep(a, RefOf(d, out, inp, future));
    } else {
      OnBitsRank(s.r, n, 0);
    }
  }

  // ----- steps that neither read nor write

  /** Builds the tables of one code, if it is one. */
  method BuildTab(sizes: Sizes) returns (ok: bool, t: Tab)
    requires Valid(sizes) && |sizes| <= 288
    ensures ok <==> IsTable(sizes)
    ensures ok ==> TabFor(sizes, t)
  {
    var a := new nat[|sizes|](i requires 0 <= i < |sizes| => sizes[i]);
    var look := new int[FAST_SIZE](i => 0);
    var tree := new int[if |sizes| < 5 then 10 else 2 * |sizes|](i => 0);
    assert a[..|sizes|] == sizes;
    ok := BuildTables(a, |sizes|, look, tree);
    t := Tab(look[..], tree[..]);
  }

  lemma SilentOk(r: Regs)
    requires RegsOk(r) && Silent(r).Some?
    ensures !Silent(r).value.ctl.Done? && RegsOk(Silent(r).value) && Rank(Silent(r).value) < Rank(r)
  {
  }

  method DoSilent(s: Session, inp: seq<byte>, ghost start: Stream, ghost future: seq<byte>, ghost out: seq<byte>)
    returns (d: Session)
    requires SessionOk(s, start, inp) && Silent(s.r).Some?
    ensures SessionOk(d, start, inp) && d.c == s.c
    ensures Follows(RefOf(s, out, inp, future), RefOf(d, out, inp, future)) && Closer(s, 0, d, 0, inp)
  {
    SilentOk(s.r);
    d := s.(r := Silent(s.r).value);
    if s.r.ctl.BuildLens? {
      var ok, t := BuildTab(s.r.clens);
      d := d.(tabs := s.tabs.(lens := t));
    } else if s.r.ctl.BuildBlock? {
      var ok, t := BuildTab(s.r.dist);
      var ok2, u := BuildTab(s.r.lit);
      d := d.(tabs := s.tabs.(dist := t, lit := u));
    }
    FollowsStep(RefOf(s, out, inp, future), RefOf(d, out, inp, future));
  }

  // ----- steps that read a symbol

  /** The table of the code a state reads a symbol of. */
  function TabOf(s: Session): Tab {
    if s.r.ctl.LenCodes? then s.tabs.lens else if s.r.ctl.Symbols? then s.tabs.lit else s.tabs.dist
  }

  /** A decoded symbol is a reference step. */
  lemma SymbolFollows(s: Session, d: Session, sym: nat, out: seq<byte>, inp: seq<byte>, future: seq<byte>)
    requires Silent(s.r).None? && SymbolCode(s.r).Some? && s.c.cur <= |inp| && d.c.cur <= |inp| && d.r == OnSymbol(s.r, sym)
    requires Decoded(SymbolCode(s.r).value, RestOf(s.c, inp, future), sym, RestOf(d.c, inp, future))
    ensures Follows(RefOf(s, out, inp, future), RefOf(d, out, inp, future))
  {
    var a := RefOf(s, out, inp, future);
    assert FixedBits(s.r.ctl).None?;
    assert Step(a) == ReadSymbol(a, SymbolCode(s.r).value);
    FollowsStep(a, RefOf(d, out, inp, future));
  }

  /** HUFF_DECODE and the dispatch on its result. */
  method ReadSym(s: Session, inp: seq<byte>, ghost start: Stream, ghost future: seq<byte>, ghost out: seq<byte>)
    returns (go: bool, d: Session)
    requires SessionOk(s, start, inp) && Silent(s.r).None? && SymbolCode(s.r).Some?
    ensures SessionOk(d, start, inp) && s.c.cur <= d.c.cur
    ensures Follows(RefOf(s, out, inp, future), RefOf(d, out, inp, future))
    ensures if go then Closer(s, 0, d, 0, inp) else Starved(d, out, inp)
  {
    var sym, c;
    go, sym, c := HuffDecode(TabOf(s), s.c, inp, SymbolCode(s.r).value, start, future);
    d := s.(c := c);
    if go {
      OnSymbolRegs(s.r, sym);
      OnSymbolTabs(s.r, s.tabs, sym);
      OnSymbolRank(s.r);
      d := Session(OnSymbol(s.r, sym), c, s.tabs);
      SymbolFollows(s, d, sym, out, inp, future);
    } else {
      FollowsSelf(RefOf(s, out, inp, future));
      assert RestOf(c, inp, []) == c.b.Stream();
      assert FixedBits(s.r.ctl).None?;
    }
  }
}
