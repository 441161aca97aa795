/** Following the hash chain for a longer match. What the chains hold does not matter: every candidate
    is compared byte by byte, and its distance is checked. */
module MatchFinder {
  import opened Bits
  import opened HuffmanBuilder
  import opened LzCopy
  import opened Tokens
  import opened Dictionary

  /** Distance to a 16-bit position. */
  function DistTo(pos: nat, probe: u16): u16 {
    (pos % 0x1_0000 + 0x1_0000 - probe) % 0x1_0000
  }

  /** Masking the 16-bit position gives the place `dist` bytes back. */
  lemma ProbePlace(pos: nat, probe: u16)
    requires DistTo(pos, probe) <= pos
    ensures probe % WINDOW == (pos - DistTo(pos, probe)) % WINDOW
  {
    var d, r, q := DistTo(pos, probe), pos % 0x1_0000, pos / 0x1_0000;
    assert pos == 0x1_0000 * q + r;
    assert d == r - probe || d == r + 0x1_0000 - probe;
    var k: int := if d == r - probe then 2 * q else 2 * q - 2;
    assert pos - d == WINDOW * k + probe;
    ModOf(pos - d, WINDOW, k + probe / WINDOW, probe % WINDOW);
  }

  ghost predicate SameAt(dict: seq<byte>, p: nat, q: nat, k: nat) {
    p + k < |dict| && q + k < |dict| && dict[p + k] == dict[q + k]
  }

  /** How many bytes from `p` and `q` on are equal, up to `limit`. */
  method EqualLength(dict: array<byte>, p: nat, q: nat, limit: nat) returns (n: nat)
    requires p + limit <= dict.Length && q + limit <= dict.Length
    ensures n <= limit && (forall k :: 0 <= k < n ==> SameAt(dict[..], p, q, k))
    ensures n < limit ==> !SameAt(dict[..], p, q, n)
  {
    n := 0;
    while n < limit && dict[p + n] == dict[q + n]
      invariant n <= limit && forall k :: 0 <= k < n ==> SameAt(dict[..], p, q, k)
    {
      assert SameAt(dict[..], p, q, n);
      n := n + 1;
    }
  }

  lemma EqualIsMatch(dict: seq<byte>, input: seq<byte>, pos: nat, dist: nat, p: nat, q: nat, n: nat)
    requires Holds(dict, input) && 1 <= dist <= pos && pos + n <= |input| <= pos - dist + WINDOW && n <= MAX_MATCH
    requires p == pos % WINDOW && q == (pos - dist) % WINDOW && forall k :: 0 <= k < n ==> SameAt(dict, p, q, k)
    ensures TrueMatch(input, pos, n, dist)
  {
    hide Holds;
    forall i | pos <= i < pos + n
      ensures Repeats(input, i, dist)
    {
      assert SameAt(dict, p, q, i - pos);
      EqualBytes(dict, input, pos, dist, i - pos);
    }
  }

  /** The next position of the chain whose bytes at the end of the match so far agree, if there is one
      within `maxDist` before the probes are used up. */
  method NextCandidate(dict: array<byte>, next: array<u16>, pos: nat, probe0: nat, maxDist: nat, matchLen: nat, c0: byte, c1: byte, probes0: nat)
    returns (found: bool, probe: nat, dist: nat, probes: nat)
    requires dict.Length == WINDOW + MIRROR && next.Length == WINDOW && probe0 < WINDOW && 1 <= matchLen <= MIRROR && probes0 >= 1
    ensures found ==> 1 <= probes < probes0 && dist <= maxDist && probe < WINDOW
    ensures found && dist <= pos ==> probe == (pos - dist) % WINDOW
  {
    found, probe, dist, probes := false, probe0, 0, probes0;
    while !found
      invariant probe < WINDOW && 1 <= probes <= probes0
      invariant found ==> probes < probes0 && dist <= maxDist && (dist <= pos ==> probe == (pos - dist) % WINDOW)
      decreases probes, if found then 0 else 1
    {
      probes := probes - 1;
      if probes == 0 {
        return;
      }
      for i := 0 to 3
        invariant probe < WINDOW && !found
      {
        var nextProbe := next[probe];
        dist := DistTo(pos, nextProbe);
        if nextProbe == 0 || dist > maxDist {
          return;
        }
        probe := nextProbe % WINDOW;
        if dict[probe + matchLen] == c0 && dict[probe + matchLen - 1] == c1 {
          found := true;
          if dist <= pos {
            ProbePlace(pos, nextProbe);
          }
          break;
        }
      }
    }
  }

  /** Looks for a match at `pos` longer than `len0`; without one the given length and distance stay. */
  method FindMatch(dict: array<byte>, next: array<u16>, pos: nat, maxDist: nat, maxLen: nat, dist0: nat, len0: nat, maxProbes: nat,
                   ghost input: seq<byte>)
    returns (dist: nat, len: nat)
    requires Holds(dict[..], input) && next.Length == WINDOW && |input| == pos + maxLen && maxLen <= MAX_MATCH
    requires maxDist <= pos && maxDist + maxLen <= WINDOW && 1 <= len0 <= MIRROR && maxProbes >= 1
    ensures (len, dist) == (len0, dist0) || (len > len0 && dist <= maxDist && TrueMatch(input, pos, len, dist))
  {
    hide Window, TrueMatch;
    dist, len := dist0, len0;
    var p := pos % WINDOW;
    var probe: nat, probes: nat := p, maxProbes;
    var c0, c1 := dict[p + len], dict[p + len - 1];
    if maxLen <= len {
      return;
    }
    while true
      invariant probe < WINDOW && 1 <= probes && len < maxLen && 1 <= len
      invariant (len, dist) == (len0, dist0) || (len > len0 && dist <= maxDist && TrueMatch(input, pos, len, dist))
      decreases probes
    {
      var found, d;
      found, probe, d, probes := NextCandidate(dict, next, pos, probe, maxDist, len, c0, c1, probes);
      if !found || d == 0 {
        return;
      }
      var n := EqualLength(dict, p, probe, maxLen);
      if n > len {
        EqualIsMatch(dict[..], input, pos, d, p, probe, n);
        dist, len := d, n;
        if n == maxLen {
          return;
        }
        c0, c1 := dict[p + len], dict[p + len - 1];
      }
    }
  }
}
