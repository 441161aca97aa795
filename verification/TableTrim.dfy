/** Unused symbols at the end of an alphabet can be left out: the header of a dynamic block sends code
    sizes only up to the last used one. */
module TableTrim {
  import opened Canonical
  import opened SymbolTables
  import opened Tokens

  /** All sizes from `n` on are zero. */
  predicate ZeroFrom(sizes: Sizes, n: nat) {
    n <= |sizes| && forall i :: n <= i < |sizes| ==> sizes[i] == 0
  }

  lemma {:induction false} CountTrim(sizes: Sizes, n: nat, l: nat)
    requires ZeroFrom(sizes, n) && l >= 1
    ensures Count(sizes, l) == Count(sizes[..n], l)
    decreases |sizes|
  {
    var m := |sizes| - 1;
    if n <= m {
      CountTrim(sizes[..m], n, l);
      assert sizes[..m][..n] == sizes[..n];
    } else {
      assert sizes[..n] == sizes;
    }
  }

  lemma {:induction false} FirstTrim(sizes: Sizes, n: nat, l: nat)
    requires ZeroFrom(sizes, n)
    ensures First(sizes, l) == First(sizes[..n], l)
  {
    if l > 1 {
      FirstTrim(sizes, n, l - 1);
      CountTrim(sizes, n, l - 1);
    }
  }

  lemma {:induction false} UsedTrim(sizes: Sizes, n: nat, l: nat)
    requires ZeroFrom(sizes, n)
    ensures Used(sizes, l) == Used(sizes[..n], l)
  {
    if l > 0 {
      UsedTrim(sizes, n, l - 1);
      CountTrim(sizes, n, l);
    }
  }

  lemma TableTrimmed(sizes: Sizes, n: nat)
    requires ZeroFrom(sizes, n) && IsTable(sizes)
    ensures IsTable(sizes[..n])
  {
    FirstTrim(sizes, n, MAX_SIZE + 1);
    UsedTrim(sizes, n, MAX_SIZE);
  }

  lemma SymbolTrimmed(sizes: Sizes, n: nat, s: nat)
    requires ZeroFrom(sizes, n) && s < |sizes| && sizes[s] > 0
    ensures s < n && SymbolBits(sizes[..n], s) == SymbolBits(sizes, s)
  {
    FirstTrim(sizes, n, sizes[s]);
    assert sizes[..n][..s] == sizes[..s];
  }

  lemma TokenTrimmed(lit: Sizes, nlit: nat, dist: Sizes, ndist: nat, t: Token)
    requires ZeroFrom(lit, nlit) && ZeroFrom(dist, ndist) && Coded(lit, dist, t)
    ensures Coded(lit[..nlit], dist[..ndist], t) && TokenBits(lit[..nlit], dist[..ndist], t) == TokenBits(lit, dist, t)
  {
    match t
    case Lit(b) => SymbolTrimmed(lit, nlit, b);
    case Match(len, d) =>
      SymbolTrimmed(lit, nlit, LenSym(len - 3));
      SymbolTrimmed(dist, ndist, DistSymOf(d - 1));
  }

  lemma AllCodedTrimmed(lit: Sizes, nlit: nat, dist: Sizes, ndist: nat, ts: seq<Token>)
    requires ZeroFrom(lit, nlit) && ZeroFrom(dist, ndist) && AllCoded(lit, dist, ts)
    ensures AllCoded(lit[..nlit], dist[..ndist], ts)
  {
    forall i | 0 <= i < |ts|
      ensures Coded(lit[..nlit], dist[..ndist], ts[i])
    {
      TokenTrimmed(lit, nlit, dist, ndist, ts[i]);
    }
  }

  lemma {:induction false} TokensTrimmed(lit: Sizes, nlit: nat, dist: Sizes, ndist: nat, ts: seq<Token>)
    requires ZeroFrom(lit, nlit) && ZeroFrom(dist, ndist) && AllCoded(lit, dist, ts) && AllCoded(lit[..nlit], dist[..ndist], ts)
    ensures TokensBits(lit[..nlit], dist[..ndist], ts) == TokensBits(lit, dist, ts)
    decreases |ts|
  {
    if ts != [] {
      var n := |ts| - 1;
      TokensTrimmed(lit, nlit, dist, ndist, ts[..n]);
      TokenTrimmed(lit, nlit, dist, ndist, ts[n]);
    }
  }
}
