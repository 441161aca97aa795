/** Copying a match: the byte-by-byte reference, and the two ways the decompressor does it in place. */
module LzCopy {
  import opened Bits

  /** Reference: append `len` bytes, each the one `dist` before the end. */
  function CopyOut(out: seq<byte>, len: nat, dist: nat): (r: seq<byte>)
    requires 1 <= dist <= |out|
    ensures |r| == |out| + len && r[..|out|] == out
    decreases len
  {
    if len == 0 then out else CopyOut(out + [out[|out| - dist]], len - 1, dist)
  }

  /** Every byte written equals the one `dist` before it: what a match of any length means. */
  lemma {:induction false} CopyOutRepeats(out: seq<byte>, len: nat, dist: nat, i: nat)
    requires 1 <= dist <= |out| <= i < |out| + len
    ensures CopyOut(out, len, dist)[i] == CopyOut(out, len, dist)[i - dist]
    decreases len
  {
    var next := out + [out[|out| - dist]];
    if i > |out| {
      CopyOutRepeats(next, len - 1, dist, i);
    } else {
      assert CopyOut(out, len, dist)[..|next|] == next;
      assert next[i] == next[i - dist];
      assert CopyOut(out, len, dist)[i] == CopyOut(out, len, dist)[..|next|][i];
      assert CopyOut(out, len, dist)[i - dist] == CopyOut(out, len, dist)[..|next|][i - dist];
    }
  }

  /** Storing forward within one buffer, source and destination moving together. */
  function Forward(a: seq<byte>, src: nat, dst: nat, len: nat): (r: seq<byte>)
    requires src + len <= |a| && dst + len <= |a|
    ensures |r| == |a|
    decreases len
  {
    if len == 0 then a else Forward(a[dst := a[src]], src + 1, dst + 1, len - 1)
  }

  lemma {:induction false} ForwardAdd(a: seq<byte>, src: nat, dst: nat, m: nat, n: nat)
    requires src + m + n <= |a| && dst + m + n <= |a|
    ensures Forward(a, src, dst, m + n) == Forward(Forward(a, src, dst, m), src + m, dst + m, n)
    decreases m
  {
    if m > 0 {
      ForwardAdd(a[dst := a[src]], src + 1, dst + 1, m - 1, n);
    }
  }

  lemma {:induction false} ForwardKeepsPrefix(a: seq<byte>, src: nat, dst: nat, len: nat, i: nat)
    requires src + len <= |a| && dst + len <= |a| && i < |a| && (i < dst || i >= dst + len)
    ensures Forward(a, src, dst, len)[i] == a[i]
    decreases len
  {
    if len > 0 {
      ForwardKeepsPrefix(a[dst := a[src]], src + 1, dst + 1, len - 1, i);
    }
  }

  lemma ThreeForward(a: seq<byte>, src: nat, dst: nat)
    requires src + 3 <= |a| && dst + 3 <= |a|
    ensures var b := a[dst := a[src]]; var c := b[dst + 1 := b[src + 1]];
      Forward(a, src, dst, 3) == c[dst + 2 := c[src + 2]]
  {
    var b := a[dst := a[src]];
    var c := b[dst + 1 := b[src + 1]];
    assert Forward(b, src + 1, dst + 1, 2) == Forward(c, src + 2, dst + 2, 1);
  }

  /** The fast copy: three bytes a round, then one or two. */
  method CopyThree(buf: array<byte>, src0: nat, dst0: nat, len: nat)
    requires src0 + len <= buf.Length && dst0 + len <= buf.Length
    modifies buf
    ensures buf[..] == Forward(old(buf[..]), src0, dst0, len)
  {
    ghost var a := buf[..];
    var src: nat, dst: nat, counter: nat := src0, dst0, len;
    while counter > 2
      invariant counter <= len && src == src0 + (len - counter) && dst == dst0 + (len - counter)
      invariant buf[..] == Forward(a, src0, dst0, len - counter)
    {
      ghost var b := buf[..];
      ForwardAdd(a, src0, dst0, len - counter, 3);
      ThreeForward(b, src, dst);
      buf[dst] := buf[src];
      buf[dst + 1] := buf[src + 1];
      buf[dst + 2] := buf[src + 2];
      src, dst, counter := src + 3, dst + 3, counter - 3;
    }
    ForwardAdd(a, src0, dst0, len - counter, counter);
    if counter > 0 {
      ghost var b := buf[..];
      buf[dst] := buf[src];
      assert buf[..] == b[dst := b[src]];
      if counter > 1 {
        ghost var c := buf[..];
        buf[dst + 1] := buf[src + 1];
        assert Forward(c, src + 1, dst + 1, 1) == buf[..];
      }
    }
  }

  // ----- the output buffer

  /** A buffer for the whole output, or a circular one for the last bytes of it. */
  datatype Mode = Flat | Circular(size: nat)

  /** The buffer shows the last bytes of the output: in front of `pos` those of this lap, and behind it
      those of the lap before that are not written over yet. */
  ghost predicate View(a: seq<byte>, pos: nat, out: seq<byte>) {
    && pos <= |a| && pos <= |out|
    && (forall i :: 0 <= i < pos ==> a[i] == out[|out| - pos + i])
    && (forall j :: pos <= j < |a| && |out| - pos + j >= |a| ==> a[j] == out[|out| - pos + j - |a|])
  }

  /** What a call is given: the output so far, and room up to `limit`. A circular buffer is written to its end. */
  ghost predicate Room(mode: Mode, a: seq<byte>, pos: nat, limit: nat, out: seq<byte>) {
    && View(a, pos, out) && pos <= limit <= |a|
    && (if mode.Flat? then |out| == pos else mode.size == |a| == limit > 0)
  }

  /** The buffer was written from `pos` up to `at`, and nowhere else. */
  predicate Wrote(a: seq<byte>, b: seq<byte>, pos: nat, at: nat) {
    |a| == |b| && pos <= at <= |a| && forall i :: 0 <= i < |a| && (i < pos || at <= i) ==> b[i] == a[i]
  }

  lemma ViewWrote(a: seq<byte>, b: seq<byte>, pos: nat, at: nat, out: seq<byte>)
    requires View(a, pos, out) && Wrote(a, b, pos, at)
    ensures View(b, at, out + b[pos..at])
  {
  }

  lemma RoomWrote(mode: Mode, a: seq<byte>, b: seq<byte>, pos: nat, at: nat, limit: nat, out: seq<byte>)
    requires Room(mode, a, pos, limit, out) && Wrote(a, b, pos, at) && at <= limit
    ensures Room(mode, b, at, limit, out + b[pos..at])
  {
    hide View;
    ViewWrote(a, b, pos, at, out);
  }

  lemma WroteTrans(a: seq<byte>, b: seq<byte>, c: seq<byte>, p: nat, q: nat, r: nat)
    requires Wrote(a, b, p, q) && Wrote(b, c, q, r)
    ensures Wrote(a, c, p, r) && b[p..q] + c[q..r] == c[p..r]
  {
  }

  /** At the end of a circular buffer the next lap begins. */
  lemma NextLap(a: seq<byte>, out: seq<byte>)
    requires View(a, |a|, out)
    ensures View(a, 0, out)
  {
  }

  /** Where the code looks for the byte `dist` back: the position is masked in a circular buffer. */
  function Source(mode: Mode, pos: nat, dist: nat): int {
    if mode.Circular? && mode.size > 0 then (pos - dist) % mode.size else pos - dist
  }

  /** Whether a byte that far back can still be found. */
  predicate InReach(mode: Mode, n: nat, dist: nat) {
    1 <= dist <= n && (mode.Circular? ==> dist <= mode.size)
  }

  /** The source lies in this lap, or in the one before. */
  predicate IsSource(size: nat, pos: nat, dist: nat, src: nat) {
    src < size && (src == pos - dist || (dist <= size && src == pos - dist + size))
  }

  lemma SourceIs(mode: Mode, a: seq<byte>, pos: nat, limit: nat, out: seq<byte>, dist: nat)
    requires Room(mode, a, pos, limit, out) && pos < limit && InReach(mode, |out|, dist)
    ensures Source(mode, pos, dist) >= 0 && IsSource(|a|, pos, dist, Source(mode, pos, dist))
  {
    if mode.Circular? {
      var n := mode.size;
      if dist <= pos {
        ModOf(pos - dist, n, 0, pos - dist);
      } else {
        ModBelow(pos - dist, n);
      }
    }
  }

  lemma ModBelow(x: int, n: nat)
    requires x < 0 <= x + n
    ensures x % n == x + n
  {
    var d := x / n;
    assert x == n * d + x % n;
    assert d >= 0 ==> n * d >= 0;
    assert d <= -2 ==> n * d <= -2 * n;
  }

  lemma ByteBack(a: seq<byte>, pos: nat, out: seq<byte>, dist: nat, src: nat)
    requires View(a, pos, out) && 1 <= dist <= |out| && IsSource(|a|, pos, dist, src)
    ensures a[src] == out[|out| - dist]
  {
  }

  lemma ForwardFirst(a: seq<byte>, src: nat, pos: nat, len: nat)
    requires src + len <= |a| && pos + len <= |a| && len > 0
    ensures Forward(a, src, pos, len)[pos..pos + len] == [a[src]] + Forward(a[pos := a[src]], src + 1, pos + 1, len - 1)[pos + 1..pos + len]
  {
    var f := Forward(a[pos := a[src]], src + 1, pos + 1, len - 1);
    ForwardKeepsPrefix(a[pos := a[src]], src + 1, pos + 1, len - 1, pos);
    assert f[pos..pos + len] == [a[src]] + f[pos + 1..pos + len];
  }

  /** In a buffer that shows the output, storing forward is the reference copy. */
  lemma {:induction false} ForwardIsCopyOut(a: seq<byte>, pos: nat, out: seq<byte>, len: nat, dist: nat, src: nat)
    requires View(a, pos, out) && 1 <= dist <= |out| && IsSource(|a|, pos, dist, src) && src + len <= |a| && pos + len <= |a|
    ensures out + Forward(a, src, pos, len)[pos..pos + len] == CopyOut(out, len, dist)
    decreases len
  {
    hide View, Forward, Wrote;
    if len > 0 {
      ByteBack(a, pos, out, dist, src);
      ForwardFirst(a, src, pos, len);
      var x := a[src];
      var b := a[pos := x];
      OneWrote(a, pos, x);
      ViewWrote(a, b, pos, pos + 1, out);
      assert b[pos..pos + 1] == [x];
      if len > 1 {
        ForwardIsCopyOut(b, pos + 1, out + [x], len - 1, dist, src + 1);
      }
      var t := Forward(b, src + 1, pos + 1, len - 1)[pos + 1..pos + len];
      assert out + ([x] + t) == (out + [x]) + t;
    }
  }

  lemma OneWrote(a: seq<byte>, pos: nat, x: byte)
    requires pos < |a|
    ensures Wrote(a, a[pos := x], pos, pos + 1)
  {
  }

  lemma ForwardWrote(a: seq<byte>, src: nat, pos: nat, len: nat)
    requires src + len <= |a| && pos + len <= |a|
    ensures Wrote(a, Forward(a, src, pos, len), pos, pos + len)
  {
    forall i | 0 <= i < |a| && (i < pos || pos + len <= i)
      ensures Forward(a, src, pos, len)[i] == a[i]
    {
      ForwardKeepsPrefix(a, src, pos, len, i);
    }
  }

  lemma {:induction false} CopyOutSnoc(out: seq<byte>, n: nat, dist: nat)
    requires 1 <= dist <= |out|
    ensures var r := CopyOut(out, n, dist); CopyOut(out, n + 1, dist) == r + [r[|r| - dist]]
    decreases n
  {
    if n > 0 {
      CopyOutSnoc(out + [out[|out| - dist]], n - 1, dist);
    }
  }

  /** One byte more of a match. */
  lemma OneMoreByte(mode: Mode, a: seq<byte>, b: seq<byte>, c: seq<byte>, pos0: nat, pos: nat, limit: nat, dist: nat, out: seq<byte>)
    requires Room(mode, a, pos0, limit, out) && Wrote(a, b, pos0, pos) && pos < limit
    requires 0 <= Source(mode, pos, dist) < |b| && c == b[pos := b[Source(mode, pos, dist)]]
    requires InReach(mode, |out|, dist) ==> out + b[pos0..pos] == CopyOut(out, pos - pos0, dist)
    ensures Wrote(a, c, pos0, pos + 1)
    ensures InReach(mode, |out|, dist) ==> out + c[pos0..pos + 1] == CopyOut(out, pos + 1 - pos0, dist)
  {
    hide View, CopyOut;
    var h := out + b[pos0..pos];
    RoomWrote(mode, a, b, pos0, pos, limit, out);
    assert c[pos0..pos + 1] == b[pos0..pos] + [c[pos]];
    assert out + c[pos0..pos + 1] == h + [c[pos]];
    if InReach(mode, |out|, dist) {
      SourceIs(mode, b, pos, limit, h, dist);
      ByteBack(b, pos, h, dist, Source(mode, pos, dist));
      CopyOutSnoc(out, pos - pos0, dist);
    }
  }

  /** The slow copy: one byte at a time, positions wrapped by the mask; stops when the room is used up. */
  method CopyWrapped(mode: Mode, buf: array<byte>, pos0: nat, limit: nat, len: nat, dist: nat, ghost out: seq<byte>)
    returns (pos: nat, left: nat)
    requires Room(mode, buf[..], pos0, limit, out) && (mode.Flat? ==> InReach(mode, |out|, dist))
    modifies buf
    ensures Wrote(old(buf[..]), buf[..], pos0, pos) && pos == pos0 + (len - left) <= limit && left <= len && (left > 0 ==> pos == limit)
    ensures InReach(mode, |out|, dist) ==> out + buf[pos0..pos] == CopyOut(out, len - left, dist)
  {
    hide View;
    ghost var a := buf[..];
    pos, left := pos0, len;
    assert out + buf[pos0..pos0] == out;
    while left > 0 && pos < limit
      invariant left <= len && pos == pos0 + (len - left) <= limit
      invariant Wrote(a, buf[..], pos0, pos)
      invariant InReach(mode, |out|, dist) ==> out + buf[..][pos0..pos] == CopyOut(out, pos - pos0, dist)
    {
      ghost var b := buf[..];
      var src := Source(mode, pos, dist);
      buf[pos] := buf[src];
      OneMoreByte(mode, a, b, buf[..], pos0, pos, limit, dist, out);
      pos, left := pos + 1, left - 1;
    }
    assert buf[..][pos0..pos] == buf[pos0..pos];
  }

  // ----- a circular buffer by its indices

  /** The buffer holds the last bytes of the output `h`, byte `i` in place `i` modulo its size. */
  ghost predicate Window(a: seq<byte>, h: seq<byte>) {
    |a| > 0 && forall i :: 0 <= i < |h| && i + |a| >= |h| ==> a[i % |a|] == h[i]
  }

  lemma PlacesApart(i: nat, j: nat, n: nat)
    requires i < j < i + n
    ensures i % n != j % n
  {
    var d := j / n - i / n;
    assert j - i == n * d + (j % n - i % n);
    assert d >= 1 ==> n * d >= n;
    assert d <= 0 ==> n * d <= 0;
  }

  lemma WindowGrows(a: seq<byte>, h: seq<byte>, c: byte)
    requires Window(a, h)
    ensures Window(a[|h| % |a| := c], h + [c])
  {
    forall i | 0 <= i < |h| + 1 && i + |a| >= |h| + 1
      ensures a[|h| % |a| := c][i % |a|] == (h + [c])[i]
    {
      if i < |h| {
        PlacesApart(i, |h|, |a|);
      }
    }
  }

  lemma ModOf(x: nat, n: nat, q: int, r: nat)
    requires n > 0 && x == n * q + r && r < n
    ensures x % n == r
  {
    var d := x / n - q;
    assert n * d == r - x % n;
    assert d >= 1 ==> n * d >= n;
    assert d <= -1 ==> n * d + n <= 0;
  }

}
