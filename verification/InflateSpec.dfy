/** What inflating means, one small step at a time, with the whole remaining input in sight.
    The states are the points where the decompressor may stop and wait; a step reads a fixed number
    of bits, one Huffman symbol, or writes one byte. Nothing here knows about calls, buffers or room. */
module InflateSpec {
  import opened Bits
  import opened Canonical
  import opened Machine

  datatype Ctl =
    | BlockHead                              // 3 bits: last block?, block type
    | RawAlign                               // skip to a byte boundary
    | RawHeader(got: seq<nat>)                 // length and its complement, byte by byte
    | RawData(left: nat)
    | RawByte(b: byte, left: nat)            // a stored byte waiting for room
    | TableSizes(k: nat)                     // how many codes of each kind
    | CodeLens(k: nat)                       // 3 bits for each size of the code length code
    | BuildLens                              // make the table of the code length code
    | LenCodes                               // read code sizes, run-length coded
    | LenRepeat(sym: nat)                    // extra bits of a repeat code
    | BuildBlock                             // make the tables of the block
    | Symbols                                // a literal, a length or the end of the block
    | LitOut(b: byte)                        // a literal waiting for room
    | LenExtra(sym: nat)
    | DistSym(len: nat)
    | DistExtra(len: nat, sym: nat)
    | Copy(len: nat, dist: nat)              // bytes of a match still to be written
    | BlockEnd
    | LastAlign                              // skip to a byte boundary after the last block
    | Done
    | Failed

  /** Everything the decompressor remembers besides its bits and its output. */
  datatype Regs = Regs(ctl: Ctl, final: bool, t: seq<nat>, clens: Sizes, lens: seq<nat>, lit: Sizes, dist: Sizes)

  datatype Ref = Ref(regs: Regs, rest: Stream, out: seq<byte>)

  const Start: Regs := Regs(BlockHead, false, [], [], [], [], [])

  // ----- tables of the format

  /** Extra bits and first length of length code 257 + i (RFC 1951, section 3.2.5); codes 286 and 287
      have zeros in the decompressor's table. */
  function LengthExtra(i: nat): (e: nat)
    ensures e <= 6
  {
    if i < 8 || i >= 28 then 0 else (i - 4) / 4
  }

  function LengthBase(i: nat): nat {
    if i < 8 then i + 3
    else if i < 28 then 3 + (4 + i % 4) * Pow2(LengthExtra(i))
    else if i == 28 then 258 else 0
  }

  /** The same for distance code i; codes 30 and 31 have zeros. */
  function DistExtraBits(i: nat): (e: nat)
    ensures e <= 13
  {
    if i < 4 || i >= 30 then 0 else (i - 2) / 2
  }

  function DistBase(i: nat): nat {
    if i < 4 then i + 1
    else if i < 30 then 1 + (2 + i % 2) * Pow2(DistExtraBits(i))
    else 0
  }

  const LENGTH_BASES: seq<nat> := [3, 4, 5, 6, 7, 8, 9, 10, 11, 13, 15, 17, 19, 23, 27, 31, 35, 43, 51, 59, 67, 83, 99, 115, 131,
    163, 195, 227, 258, 0, 0]

  const LENGTH_EXTRAS: seq<nat> := [0, 0, 0, 0, 0, 0, 0, 0, 1, 1, 1, 1, 2, 2, 2, 2, 3, 3, 3, 3, 4, 4, 4, 4, 5, 5, 5, 5, 0, 0, 0]

  const DIST_BASES: seq<nat> := [1, 2, 3, 4, 5, 7, 9, 13, 17, 25, 33, 49, 65, 97, 129, 193, 257, 385, 513, 769, 1025, 1537, 2049,
    3073, 4097, 6145, 8193, 12289, 16385, 24577, 0, 0]

  const DIST_EXTRAS: seq<nat> := [0, 0, 0, 0, 1, 1, 2, 2, 3, 3, 4, 4, 5, 5, 6, 6, 7, 7, 8, 8, 9, 9, 10, 10, 11, 11, 12, 12, 13, 13,
    0, 0]

  /** The values as the tables list them: 31 for lengths, 32 for distances. */
  lemma TableValues()
    ensures |LENGTH_BASES| == |LENGTH_EXTRAS| == 31 && |DIST_BASES| == |DIST_EXTRAS| == 32
    ensures forall i :: 0 <= i < 31 ==> LengthExtra(i) == LENGTH_EXTRAS[i] && LengthBase(i) == LENGTH_BASES[i]
    ensures forall i :: 0 <= i < 32 ==> DistExtraBits(i) == DIST_EXTRAS[i] && DistBase(i) == DIST_BASES[i]
  {
    forall i | 0 <= i < 31
      ensures LengthExtra(i) == LENGTH_EXTRAS[i] && LengthBase(i) == LENGTH_BASES[i]
    {
      LengthValue(i);
    }
    forall i | 0 <= i < 32
      ensures DistExtraBits(i) == DIST_EXTRAS[i] && DistBase(i) == DIST_BASES[i]
    {
      DistValue(i);
    }
  }

  lemma LengthValue(i: nat)
    requires i < 31
    ensures LengthExtra(i) == LENGTH_EXTRAS[i] && LengthBase(i) == LENGTH_BASES[i]
  {
    SmallPowers();
    hide Pow2;
  }

  lemma DistExtraValue(i: nat)
    requires i < 32
    ensures DistExtraBits(i) == DIST_EXTRAS[i]
  {
  }

  lemma DistValue(i: nat)
    requires i < 32
    ensures DistExtraBits(i) == DIST_EXTRAS[i] && DistBase(i) == DIST_BASES[i]
  {
    SmallPowers();
    DistExtraValue(i);
    hide Pow2, DistExtraBits;
  }

  lemma SmallPowers()
    ensures Pow2(0) == 1 && Pow2(1) == 2 && Pow2(2) == 4 && Pow2(3) == 8 && Pow2(4) == 16 && Pow2(5) == 32 && Pow2(6) == 64
    ensures Pow2(7) == 128 && Pow2(8) == 256 && Pow2(9) == 512 && Pow2(10) == 1024 && Pow2(11) == 2048 && Pow2(12) == 4096
    ensures Pow2(13) == 8192
  {
    Pow2Values();
    assert Pow2(6) == 2 * Pow2(5);
    assert Pow2(9) == 2 * Pow2(8);
    assert Pow2(11) == 2 * Pow2(10);
    assert Pow2(12) == 2 * Pow2(11);
  }

  /** The order in which the sizes of the code length code are sent. */
  function Dezigzag(i: nat): (j: nat)
    ensures i < 19 ==> j < 19
  {
    if i < 3 then 16 + i
    else if i == 3 || i >= 19 then 0
    else if i % 2 == 0 then 8 + (i - 4) / 2 else 7 - (i - 5) / 2
  }

  lemma DezigzagValues()
    ensures seq(19, i requires 0 <= i => Dezigzag(i)) == [16, 17, 18, 0, 8, 7, 9, 6, 10, 5, 11, 4, 12, 3, 13, 2, 14, 1, 15]
  {
  }

  function Repeat(v: nat, n: nat): (s: seq<nat>)
    ensures |s| == n && forall i :: 0 <= i < n ==> s[i] == v
  {
    seq(n, _ => v)
  }

  const StaticLit: Sizes := Repeat(8, 144) + Repeat(9, 112) + Repeat(7, 24) + Repeat(8, 8)

  const StaticDist: Sizes := Repeat(5, 32)

  function RepeatBits(sym: nat): nat {
    if sym == 16 then 2 else if sym == 17 then 3 else 7
  }

  function RepeatBase(sym: nat): nat {
    if sym == 18 then 11 else 3
  }

  // ----- steps

  /** How many bits a state reads at a fixed size; states not listed read none or a symbol. */
  function FixedBits(c: Ctl): Option<nat> {
    match c
    case BlockHead => Some(3)
    case RawHeader(_) => Some(8)
    case RawData(left) => if left > 0 then Some(8) else None
    case TableSizes(k) => Some(if k == 2 then 4 else 5)
    case CodeLens(_) => Some(3)
    case LenRepeat(sym) => Some(RepeatBits(sym))
    case LenExtra(sym) => if 257 <= sym < 288 then Some(LengthExtra(sym - 257)) else None
    case DistExtra(_, sym) => if sym < 32 then Some(DistExtraBits(sym)) else None
    case _ => None
  }

  function TableMin(k: nat): nat {
    if k == 0 then 257 else if k == 1 then 1 else 4
  }

  /** The registers after reading the fixed bits `v`. */
  function OnBits(r: Regs, v: nat): Regs {
    match r.ctl
    case BlockHead =>
      var s := r.(final := v % 2 == 1);
      if v / 2 == 0 then s.(ctl := RawAlign)
      else if v / 2 == 1 then s.(lit := StaticLit, dist := StaticDist, ctl := BuildBlock)
      else if v / 2 == 2 then s.(t := [], ctl := TableSizes(0))
      else s.(ctl := Failed)
    case RawHeader(got) =>
      if |got| < 3 then r.(ctl := RawHeader(got + [v]))
      else
        var left := got[0] + 256 * got[1];
        if left == 65535 - (got[2] + 256 * v) then r.(ctl := RawData(left)) else r.(ctl := Failed)
    case RawData(left) =>
      if left > 0 && v < 256 then r.(ctl := RawByte(v, left - 1)) else r.(ctl := Failed)
    case TableSizes(k) =>
      var s := r.(t := r.t + [v + TableMin(k)]);
      if k < 2 then s.(ctl := TableSizes(k + 1)) else s.(ctl := CodeLens(0), clens := Repeat(0, 19))
    case CodeLens(k) =>
      var s := if k < 19 && |r.clens| == 19 then r.(clens := r.clens[Dezigzag(k) := v]) else r;
      if |r.t| == 3 && k + 1 < r.t[2] then s.(ctl := CodeLens(k + 1)) else s.(ctl := BuildLens)
    case LenRepeat(sym) =>
      var again := if sym == 16 && r.lens != [] then r.lens[|r.lens| - 1] else 0;
      r.(lens := r.lens + Repeat(again, v + RepeatBase(sym)), ctl := LenCodes)
    case LenExtra(sym) =>
      if 257 <= sym < 288 then r.(ctl := DistSym(LengthBase(sym - 257) + v)) else r.(ctl := Failed)
    case DistExtra(len, sym) =>
      if sym < 32 then r.(ctl := Copy(len, DistBase(sym) + v)) else r.(ctl := Failed)
    case _ => r.(ctl := Failed)
  }

  /** The code a state reads a symbol of. */
  function SymbolCode(r: Regs): Option<Sizes> {
    match r.ctl
    case LenCodes => if LensWanted(r) then Some(r.clens) else None
    case Symbols => Some(r.lit)
    case DistSym(_) => Some(r.dist)
    case _ => None
  }

  predicate LensWanted(r: Regs) {
    |r.t| == 3 && |r.lens| < r.t[0] + r.t[1]
  }

  function OnSymbol(r: Regs, s: nat): Regs {
    match r.ctl
    case LenCodes =>
      if s < 16 then r.(lens := r.lens + [s])
      else if s == 16 && r.lens == [] then r.(ctl := Failed)
      else r.(ctl := LenRepeat(s))
    case Symbols =>
      if s < 256 then r.(ctl := LitOut(s))
      else if s == 256 then r.(ctl := BlockEnd)
      else if s < 288 then
        if LengthExtra(s - 257) > 0 then r.(ctl := LenExtra(s)) else r.(ctl := DistSym(LengthBase(s - 257)))
      else r.(ctl := Failed)
    case DistSym(len) =>
      if s < 32 then
        if DistExtraBits(s) > 0 then r.(ctl := DistExtra(len, s)) else r.(ctl := Copy(len, DistBase(s)))
      else r.(ctl := Failed)
    case _ => r.(ctl := Failed)
  }

  /** States that neither read nor write. */
  function Silent(r: Regs): Option<Regs> {
    match r.ctl
    case RawData(left) => if left == 0 then Some(r.(ctl := BlockEnd)) else None
    case BuildLens => Some(r.(lens := [], ctl := if IsTable(r.clens) then LenCodes else Failed))
    case LenCodes =>
      if LensWanted(r) then None
      else if |r.t| == 3 && |r.lens| == r.t[0] + r.t[1] then
        Some(r.(lit := r.lens[..r.t[0]], dist := r.lens[r.t[0]..], ctl := BuildBlock))
      else Some(r.(ctl := Failed))
    case BuildBlock => Some(r.(ctl := if IsTable(r.lit) && IsTable(r.dist) then Symbols else Failed))
    case BlockEnd => Some(r.(ctl := if r.final then LastAlign else BlockHead))
    case _ => None
  }

  ghost function ReadBits(r: Ref, n: nat): Option<Ref> {
    if |r.rest| < n then None else Some(Ref(OnBits(r.regs, Value(r.rest[..n])), r.rest[n..], r.out))
  }

  ghost function ReadSymbol(r: Ref, sizes: Sizes): Option<Ref> {
    match DecodeSymbol(sizes, r.rest)
    case Some(s) =>
      if s < |sizes| && sizes[s] <= |r.rest| then Some(Ref(OnSymbol(r.regs, s), r.rest[sizes[s]..], r.out)) else None
    case None => None
  }

  /** A step that writes nothing. */
  ghost function ReadStep(r: Ref): Option<Ref> {
    match Silent(r.regs)
    case Some(s) => Some(r.(regs := s))
    case None =>
      match FixedBits(r.regs.ctl)
      case Some(n) => ReadBits(r, n)
      case None =>
        match SymbolCode(r.regs)
        case Some(sizes) => ReadSymbol(r, sizes)
        case None => Some(r.(regs := r.regs.(ctl := Failed)))
  }

  /** One step, or none: the input is used up, or does not start with a code. */
  ghost function Step(r: Ref): (n: Option<Ref>) {
    match r.regs.ctl
    case Done => Some(r)
    case Failed => Some(r)
    case RawAlign => Some(Ref(r.regs.(ctl := RawHeader([])), r.rest[|r.rest| % 8..], r.out))
    case LastAlign => Some(Ref(r.regs.(ctl := Done), r.rest[|r.rest| % 8..], r.out))
    case RawByte(b, left) => Some(Ref(r.regs.(ctl := RawData(left)), r.rest, r.out + [b]))
    case LitOut(b) => Some(Ref(r.regs.(ctl := Symbols), r.rest, r.out + [b]))
    case Copy(len, dist) =>
      if dist == 0 || dist > |r.out| then Some(r.(regs := r.regs.(ctl := Failed)))
      else if len == 0 then Some(r.(regs := r.regs.(ctl := Symbols)))
      else Some(Ref(r.regs.(ctl := Copy(len - 1, dist)), r.rest, r.out + [r.out[|r.out| - dist]]))
    case _ => ReadStep(r)
  }

  ghost predicate Inflates(a: Ref, b: Ref) {
    Reaches(Step, a, b)
  }
}
