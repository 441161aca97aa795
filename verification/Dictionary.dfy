/** The compressor's circular dictionary: the last 32768 bytes of input, with the first 257 repeated
    behind the end so that a string of up to 258 bytes can be read without wrapping. */
module Dictionary {
  import opened Bits
  import opened LzCopy
  import opened Tokens

  const MIRROR: nat := MAX_MATCH - 1

  ghost predicate Mirrored(dict: seq<byte>) {
    |dict| == WINDOW + MIRROR && forall j :: 0 <= j < MIRROR ==> dict[WINDOW + j] == dict[j]
  }

  /** The dictionary holds the end of `input`. */
  ghost predicate Holds(dict: seq<byte>, input: seq<byte>) {
    Mirrored(dict) && Window(dict[..WINDOW], input)
  }

  /** Byte `i + k` of the input, read from the place of byte `i` on. */
  lemma ReadAt(dict: seq<byte>, input: seq<byte>, i: nat, k: nat)
    requires Holds(dict, input) && i + k < |input| <= i + WINDOW && k <= MIRROR
    ensures i % WINDOW + k < |dict| && dict[i % WINDOW + k] == input[i + k]
  {
    hide Window;
    var p := i % WINDOW;
    Place(i, k);
    WindowAt(dict[..WINDOW], input, i + k);
    if p + k >= WINDOW {
      assert dict[WINDOW + (p + k - WINDOW)] == dict[p + k - WINDOW];
    }
  }

  lemma WindowAt(a: seq<byte>, h: seq<byte>, i: nat)
    requires Window(a, h) && i < |h| <= i + |a|
    ensures a[i % |a|] == h[i]
  {
  }

  lemma Place(i: nat, k: nat)
    requires k < WINDOW
    ensures var p := i % WINDOW; (i + k) % WINDOW == if p + k < WINDOW then p + k else p + k - WINDOW
  {
  }

  lemma MirrorStore(dict: seq<byte>, dst: nat, c: byte, dict2: seq<byte>)
    requires Mirrored(dict) && dst < WINDOW
    requires dict2 == if dst < MIRROR then dict[dst := c][WINDOW + dst := c] else dict[dst := c]
    ensures Mirrored(dict2) && dict2[..WINDOW] == dict[..WINDOW][dst := c]
  {
  }

  /** Adds the next byte of input. */
  method Store(dict: array<byte>, dst: nat, c: byte, ghost input: seq<byte>)
    requires Holds(dict[..], input) && dst == |input| % WINDOW
    modifies dict
    ensures Holds(dict[..], input + [c])
  {
    ghost var d: seq<byte> := dict[..];
    dict[dst] := c;
    if dst < MIRROR {
      dict[WINDOW + dst] := c;
    }
    ghost var d2 := if dst < MIRROR then d[dst := c][WINDOW + dst := c] else d[dst := c];
    assert dict[..] == d2;
    MirrorStore(d, dst, c, d2);
    WindowGrows(d[..WINDOW], input, c);
  }

  // ----- true matches

  /** The `len` bytes at `p` repeat those `dist` before them. */
  ghost predicate TrueMatch(input: seq<byte>, p: nat, len: nat, dist: nat) {
    1 <= dist <= p && p + len <= |input| && forall i :: p <= i < p + len ==> Repeats(input, i, dist)
  }

  predicate Repeats(input: seq<byte>, i: nat, dist: nat) {
    dist <= i < |input| && input[i] == input[i - dist]
  }

  /** Copying a true match continues the input. */
  lemma {:induction false} MatchCopies(input: seq<byte>, p: nat, len: nat, dist: nat)
    requires TrueMatch(input, p, len, dist)
    ensures CopyOut(input[..p], len, dist) == input[..p + len]
    decreases len
  {
    if len > 0 {
      assert Repeats(input, p, dist);
      assert input[..p] + [input[..p][p - dist]] == input[..p + 1];
      MatchCopies(input, p + 1, len - 1, dist);
    }
  }

  /** More input does not spoil a match. */
  lemma MatchStays(input: seq<byte>, more: seq<byte>, p: nat, len: nat, dist: nat)
    requires TrueMatch(input, p, len, dist)
    ensures TrueMatch(input + more, p, len, dist)
  {
    forall i | p <= i < p + len
      ensures Repeats(input + more, i, dist)
    {
      assert Repeats(input, i, dist);
    }
  }

  /** Bytes equal in the dictionary are equal in the input. */
  lemma EqualBytes(dict: seq<byte>, input: seq<byte>, p: nat, dist: nat, k: nat)
    requires Holds(dict, input) && 1 <= dist <= p && p + k < |input| <= p - dist + WINDOW && k <= MIRROR
    ensures p % WINDOW + k < |dict| && (p - dist) % WINDOW + k < |dict|
    ensures dict[p % WINDOW + k] == dict[(p - dist) % WINDOW + k] <==> Repeats(input, p + k, dist)
  {
    hide Holds;
    ReadAt(dict, input, p, k);
    ReadAt(dict, input, p - dist, k);
    assert p - dist + k == p + k - dist;
  }
}
