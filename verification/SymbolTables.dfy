/** The compressor's tables from match lengths and distances to symbols, given by the ranges they
    encode, and that they undo the decompressor's tables of bases and extra bits. */
module SymbolTables {
  import opened Bits
  import opened InflateSpec

  /** How often `v` is halved until it is below `top`. */
  function Shifts(v: nat, top: nat): (e: nat)
    requires top > 0
    decreases v
  {
    if v < top then 0 else 1 + Shifts(v / 2, top)
  }

  /** The low `n` bits of `v`. */
  function Low(v: nat, n: nat): (r: nat)
    ensures r < Pow2(n)
    decreases v, n
  {
    if n == 0 then 0 else v % 2 + 2 * Low(v / 2, n - 1)
  }

  lemma {:induction false} LowSplits(v: nat, n: nat)
    ensures v == Low(v, n) + Pow2(n) * Shr(v, n)
    decreases n
  {
    if n > 0 {
      LowSplits(v / 2, n - 1);
      assert Pow2(n) * Shr(v, n) == 2 * (Pow2(n - 1) * Shr(v / 2, n - 1));
    }
  }

  lemma {:induction false} LowBitsSame(v: nat, n: nat)
    ensures ToBits(Low(v, n), n) == ToBits(v, n) && Value(ToBits(v, n)) == Low(v, n)
    decreases n
  {
    if n > 0 {
      LowBitsSame(v / 2, n - 1);
      assert Low(v, n) / 2 == Low(v / 2, n - 1) && Low(v, n) % 2 == v % 2;
      assert ToBits(v, n)[1..] == ToBits(v / 2, n - 1);
    }
  }

  /** Halving stops in the upper half of the range below `top`. */
  lemma {:induction false} ShiftsStop(v: nat, half: nat)
    requires half > 0
    ensures var e := Shifts(v, 2 * half);
      Shr(v, e) < 2 * half && (e > 0 ==> half <= Shr(v, e)) && (e == 0 ==> Shr(v, e) == v)
    decreases v
  {
    if v >= 2 * half {
      ShiftsStop(v / 2, half);
    }
  }

  lemma {:induction false} ShiftsBound(v: nat, top: nat, n: nat)
    requires top > 0 && v < top * Pow2(n)
    ensures Shifts(v, top) <= n
    decreases n
  {
    if v >= top {
      if n > 0 {
        assert top * Pow2(n) == 2 * (top * Pow2(n - 1));
        ShiftsBound(v / 2, top, n - 1);
      }
    }
  }

  // ----- lengths

  /** Symbol and extra bits of match length `x + 3`. */
  function LenSym(x: nat): nat {
    if x == 255 then 285 else 257 + 4 * Shifts(x, 8) + Shr(x, Shifts(x, 8))
  }

  function LenSymExtra(x: nat): nat {
    if x == 255 then 0 else Shifts(x, 8)
  }

  /** The decompressor's tables give the length back. */
  lemma LengthsAgree(x: nat)
    requires x < 256
    ensures 257 <= LenSym(x) < 286 && LengthExtra(LenSym(x) - 257) == LenSymExtra(x) <= 5
    ensures LengthBase(LenSym(x) - 257) + Low(x, LenSymExtra(x)) == x + 3
  {
    if x < 255 {
      Pow2Values();
      ShiftsStop(x, 4);
      ShiftsBound(x, 8, 5);
      var e: nat := Shifts(x, 8);
      var t: nat := Shr(x, e);
      LowSplits(x, e);
      if e > 0 {
        LengthCode(e, t);
      } else {
        assert LenSym(x) == 257 + x;
      }
    }
  }

  lemma LengthCode(e: nat, t: nat)
    requires 1 <= e <= 5 && 4 <= t < 8
    ensures LengthExtra(4 * e + t) == e && LengthBase(4 * e + t) == 3 + Pow2(e) * t
  {
    var i: nat := 4 * e + t;
    assert i % 4 == t - 4 && (i - 4) / 4 == e;
  }

  // ----- distances

  /** Symbol and extra bits by the bits above: the same rule serves the table of small distances and,
      eight bits higher, the table of large ones. */
  function SmallDistSym(v: nat): nat {
    2 * Shifts(v, 4) + Shr(v, Shifts(v, 4))
  }

  function LargeDistSym(h: nat): nat {
    if h < 2 then 0 else 16 + 2 * Shifts(h, 4) + Shr(h, Shifts(h, 4))
  }

  function LargeDistExtra(h: nat): nat {
    if h < 2 then 0 else 8 + Shifts(h, 4)
  }

  /** Symbol and extra bits of distance `v + 1`, as looked up in the two tables. */
  function DistSymOf(v: nat): nat {
    if v < 512 then SmallDistSym(v) else LargeDistSym(v / 256)
  }

  function DistSymExtra(v: nat): nat {
    if v < 512 then Shifts(v, 4) else LargeDistExtra(v / 256)
  }

  lemma {:induction false} ShiftsAgree(v: nat, n: nat, h: nat)
    requires Shr(v, n) == h && h >= 2
    ensures Shifts(v, 4) == n + Shifts(h, 4) && Shr(v, n + Shifts(h, 4)) == Shr(h, Shifts(h, 4))
    decreases n
  {
    if n > 0 {
      ShrSmall(v, n);
      ShiftsAgree(v / 2, n - 1, h);
    }
  }

  lemma {:induction false} ShrSmall(v: nat, n: nat)
    requires n > 0 && Shr(v, n) >= 2
    ensures v >= 4
    decreases n
  {
    if n > 1 {
      ShrSmall(v / 2, n - 1);
    }
  }

  /** The two tables are one rule. */
  lemma TablesAgree(v: nat)
    ensures DistSymOf(v) == SmallDistSym(v) && DistSymExtra(v) == Shifts(v, 4)
  {
    if v >= 512 {
      var n: nat := 8;
      Pow2Values();
      ShrIsDivision(v, n, v % 256, v / 256);
      ShiftsAgree(v, n, v / 256);
    }
  }

  lemma DistCode(e: nat, t: nat)
    requires 1 <= e <= 13 && 2 <= t < 4
    ensures DistExtraBits(2 * e + t) == e && DistBase(2 * e + t) == 1 + Pow2(e) * t
  {
    hide Pow2;
    var i: nat := 2 * e + t;
    assert i % 2 == t - 2 && (i - 2) / 2 == e;
  }

  /** The decompressor's tables give the distance back. */
  lemma DistancesAgree(v: nat)
    requires v < 32768
    ensures DistSymOf(v) < 30 && DistExtraBits(DistSymOf(v)) == DistSymExtra(v) <= 13
    ensures DistBase(DistSymOf(v)) + Low(v, DistSymExtra(v)) == v + 1
  {
    TablesAgree(v);
    Pow2Values();
    ShiftsStop(v, 2);
    ShiftsBound(v, 4, 13);
    var e: nat := Shifts(v, 4);
    var t: nat := Shr(v, e);
    LowSplits(v, e);
    if e > 0 {
      DistCode(e, t);
    }
  }
}
