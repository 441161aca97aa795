/** The lazy, greedy and run-length parsers of the compressor: how input becomes literals and matches. */
module Parser {
  import opened Bits
  import opened Canonical
  import opened HuffmanBuilder
  import opened Tokens
  import opened Dictionary
  import opened MatchFinder

  const HASH_SIZE: nat := 32768

  datatype Config = Config(probes: nat, longProbes: nat, greedy: bool, rle: bool, filter: bool, forceStatic: bool, forceRaw: bool)

  // ----- hashes

  /** The low `n` bits of the exclusive or. */
  function Xor(a: nat, b: nat, n: nat): (r: nat)
    ensures r < Pow2(n)
    decreases a, b, n
  {
    if n == 0 then 0 else (a + b) % 2 + 2 * Xor(a / 2, b / 2, n - 1)
  }

  /** Shifting the next byte into a hash. */
  function Mix(hash: nat, c: byte): (h: nat)
    ensures h < HASH_SIZE
  {
    Pow2Values();
    var bits := 15;
    Xor(hash * 32, c, bits)
  }

  // ----- what the tokens recorded so far stand for

  /** The tokens of the current block, after the first `start` bytes of input, give its first `parsed` bytes. */
  ghost predicate Stands(input: seq<byte>, start: nat, ts: seq<Token>, parsed: nat) {
    start <= parsed <= |input| && Expand(input[..start], ts) == Some(input[..parsed])
  }

  lemma StandsLiteral(input: seq<byte>, start: nat, ts: seq<Token>, p: nat)
    requires Stands(input, start, ts, p) && p < |input|
    ensures Stands(input, start, ts + [Lit(input[p])], p + 1)
  {
    ExpandSnoc(input[..start], ts, Lit(input[p]));
    assert input[..p] + [input[p]] == input[..p + 1];
  }

  lemma StandsMatch(input: seq<byte>, start: nat, ts: seq<Token>, p: nat, len: nat, dist: nat)
    requires Stands(input, start, ts, p) && TrueMatch(input, p, len, dist)
    ensures Stands(input, start, ts + [Match(len, dist)], p + len)
  {
    ExpandSnoc(input[..start], ts, Match(len, dist));
    MatchCopies(input, p, len, dist);
  }

  lemma StandsMore(input: seq<byte>, more: seq<byte>, start: nat, ts: seq<Token>, p: nat)
    requires Stands(input, start, ts, p)
    ensures Stands(input + more, start, ts, p)
  {
    assert (input + more)[..start] == input[..start] && (input + more)[..p] == input[..p];
  }

  /** A match that may be recorded at `p`. */
  ghost predicate Usable(input: seq<byte>, p: nat, len: nat, dist: nat) {
    MIN_MATCH <= len <= MAX_MATCH && dist <= WINDOW && TrueMatch(input, p, len, dist)
  }

  lemma UsableStays(input: seq<byte>, more: seq<byte>, p: nat, len: nat, dist: nat)
    requires Usable(input, p, len, dist)
    ensures Usable(input + more, p, len, dist)
  {
    MatchStays(input, more, p, len, dist);
  }

  /** A literal held back while a better match is looked for. */
  datatype Saved = Nothing | Held(lit: byte, len: nat, dist: nat)

  function HeldBytes(s: Saved): nat {
    if s.Held? then 1 else 0
  }

  ghost predicate SavedOk(input: seq<byte>, pos: nat, s: Saved) {
    s.Held? ==> 1 <= pos <= |input| && s.lit == input[pos - 1] && s.len < 128 && Usable(input, pos - 1, s.len, s.dist)
  }

  /** Position, bytes looked ahead, and how far back matches may reach. */
  ghost predicate PlaceOk(input: seq<byte>, pos: nat, look: nat, dictSize: nat) {
    |input| == pos + look && look <= MAX_MATCH && dictSize <= pos && dictSize + look <= WINDOW
  }

  // ----- choosing a match

  /** A run of the byte before `pos`. */
  method RunLength(dict: array<byte>, pos: nat, look: nat, ghost input: seq<byte>) returns (len: nat)
    requires Holds(dict[..], input) && PlaceOk(input, pos, look, 1) && pos >= 1
    ensures len <= look && TrueMatch(input, pos, len, 1)
  {
    hide Holds, TrueMatch;
    HoldsLength(dict[..], input);
    var p := pos % WINDOW;
    var before := (pos - 1) % WINDOW;
    var c := dict[before];
    ReadAt(dict[..], input, pos - 1, 0);
    len := 0;
    TrueMatchZero(input, pos, 1);
    while len < look
      invariant len <= look && TrueMatch(input, pos, len, 1) && c == input[pos - 1 + len]
      decreases look - len
    {
      ReadAt(dict[..], input, pos, len);
      if dict[p + len] != c {
        break;
      }
      TrueMatchGrows(input, pos, len, 1);
      len := len + 1;
    }
  }

  lemma HoldsLength(dict: seq<byte>, input: seq<byte>)
    requires Holds(dict, input)
    ensures |dict| == WINDOW + MIRROR
  {
  }

  lemma TrueMatchZero(input: seq<byte>, p: nat, dist: nat)
    requires 1 <= dist <= p <= |input|
    ensures TrueMatch(input, p, 0, dist)
  {
  }

  lemma TrueMatchGrows(input: seq<byte>, p: nat, len: nat, dist: nat)
    requires TrueMatch(input, p, len, dist) && p + len < |input| && input[p + len] == input[p + len - dist]
    ensures TrueMatch(input, p, len + 1, dist)
  {
    forall i | p <= i < p + (len + 1)
      ensures Repeats(input, i, dist)
    {
    }
  }

  /** The match at the current position: length and distance, or distance 0 for none. */
  method ChooseMatch(dict: array<byte>, next: array<u16>, cfg: Config, pos: nat, look: nat, dictSize: nat, saved: Saved, ghost input: seq<byte>)
    returns (dist: nat, len: nat)
    requires Holds(dict[..], input) && next.Length == WINDOW && PlaceOk(input, pos, look, dictSize) && look > 0
    requires SavedOk(input, pos, saved) && cfg.probes >= 1 && cfg.longProbes >= 1
    ensures dist > 0 ==> Usable(input, pos, len, dist)
    ensures saved.Held? && len > saved.len ==> dist > 0
  {
    hide Holds, TrueMatch;
    dist, len := 0, if saved.Held? then saved.len else MIN_MATCH - 1;
    if cfg.rle || cfg.forceRaw {
      if dictSize > 0 && !cfg.forceRaw {
        len := RunLength(dict, pos, look, input);
        if len < MIN_MATCH {
          len := 0;
        } else {
          dist := 1;
        }
      }
    } else {
      var maxProbes := if len >= 32 then cfg.longProbes else cfg.probes;
      dist, len := FindMatch(dict, next, pos, dictSize, look, dist, len, maxProbes, input);
      FoundUsable(input, pos, look, len, dist);
    }
    if (len == MIN_MATCH && dist >= 8 * 1024) || pos % WINDOW == dist || (cfg.filter && len <= 5) {
      dist, len := 0, 0;
    }
  }

  lemma FoundUsable(input: seq<byte>, pos: nat, look: nat, len: nat, dist: nat)
    requires |input| == pos + look && look <= MAX_MATCH && dist <= WINDOW
    ensures len >= MIN_MATCH && TrueMatch(input, pos, len, dist) ==> dist > 0 && Usable(input, pos, len, dist)
  {
  }
}
