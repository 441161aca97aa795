/** The in-place heap sort of entry indices by name. */
module ZipSort {
  import opened Bits
  import opened ZipNames

  predicate InRange(s: seq<nat>, names: seq<Name>) {
    forall i :: 0 <= i < |s| ==> s[i] < |names|
  }

  /** Entry `x` is not after entry `y`. */
  predicate Below(names: seq<Name>, x: nat, y: nat) {
    x < |names| && y < |names| && Le(names[x], names[y])
  }

  function Parent(c: nat): nat
    requires c > 0
  {
    (c - 1) / 2
  }

  /** Node `c` is not after its parent. */
  predicate EdgeOk(s: seq<nat>, names: seq<Name>, c: nat)
    requires 0 < c < |s|
  {
    Below(names, s[c], s[Parent(c)])
  }

  /** A heap among the first `n` nodes, for parents from `lo` on. */
  predicate Heap(s: seq<nat>, names: seq<Name>, lo: nat, n: nat) {
    n <= |s| && InRange(s, names) && forall c :: 1 <= c < n && Parent(c) >= lo ==> EdgeOk(s, names, c)
  }

  /** ... except that node `r` may be before its children; these fit below its parent, though. */
  predicate HeapExcept(s: seq<nat>, names: seq<Name>, lo: nat, n: nat, r: nat) {
    && n <= |s| && InRange(s, names) && lo <= r
    && (forall c :: 1 <= c < n && Parent(c) >= lo && Parent(c) != r ==> EdgeOk(s, names, c))
    && (r > lo && Parent(r) >= lo ==> forall c :: 1 <= c < n && Parent(c) == r ==> Below(names, s[c], s[Parent(r)]))
  }

  function Swapped(s: seq<nat>, i: nat, j: nat): (t: seq<nat>)
    requires i < |s| && j < |s|
    ensures |t| == |s|
  {
    s[i := s[j]][j := s[i]]
  }

  lemma BelowTotal(names: seq<Name>, x: nat, y: nat, z: nat)
    requires x < |names| && y < |names| && z < |names|
    ensures Below(names, x, y) || Below(names, y, x)
    ensures Below(names, x, y) && Below(names, y, z) ==> Below(names, x, z)
    ensures Less(names[x], names[y]) <==> !Below(names, y, x)
  {
    hide Less, Le;
    LeIsTotalOrder(names[x], names[y], names[z]);
  }

  lemma SwapKeeps(s: seq<nat>, i: nat, j: nat, n: nat)
    requires i < n <= |s| && j < n
    ensures multiset(Swapped(s, i, j)[..n]) == multiset(s[..n]) && Swapped(s, i, j)[n..] == s[n..]
  {
    var t := s[..n];
    assert Swapped(s, i, j)[..n] == t[i := t[j]][j := t[i]];
  }

  lemma SwapInRange(s: seq<nat>, i: nat, j: nat, names: seq<Name>)
    requires InRange(s, names) && i < |s| && j < |s|
    ensures InRange(Swapped(s, i, j), names)
  {
  }

  /** Swapping a node with its last child mends the node and moves the exception down. */
  lemma SiftStep(s: seq<nat>, names: seq<Name>, lo: nat, n: nat, r: nat, m: nat)
    requires HeapExcept(s, names, lo, n, r) && 1 <= m < n && Parent(m) == r
    requires Below(names, s[r], s[m]) && forall c :: 1 <= c < n && Parent(c) == r ==> Below(names, s[c], s[m])
    ensures HeapExcept(Swapped(s, r, m), names, lo, n, m)
  {
    hide Below;
    var t := Swapped(s, r, m);
    SwapInRange(s, r, m, names);
    forall c | 1 <= c < n && Parent(c) >= lo && Parent(c) != m
      ensures EdgeOk(t, names, c)
    {
      if Parent(c) != r {
        assert EdgeOk(s, names, c);
      }
    }
    forall c | 1 <= c < n && Parent(c) == m
      ensures Below(names, t[c], t[Parent(m)])
    {
      assert EdgeOk(s, names, c);
    }
  }

  /** A node that is not before its last child is in order. */
  lemma SiftEnds(s: seq<nat>, names: seq<Name>, lo: nat, n: nat, r: nat)
    requires HeapExcept(s, names, lo, n, r) && forall c :: 1 <= c < n && Parent(c) == r ==> Below(names, s[c], s[r])
    ensures Heap(s, names, lo, n)
  {
    hide Below;
  }

  /** Moves the entry at `lo` down to its place. */
  method SiftDown(a: array<nat>, dir: seq<byte>, offsets: seq<nat>, lo: nat, n: nat)
    requires DirOk(dir, offsets) && n <= a.Length && lo < n && HeapExcept(a[..], Names(dir, offsets), lo, n, lo)
    modifies a
    ensures Heap(a[..], Names(dir, offsets), lo, n)
    ensures multiset(a[..n]) == multiset(old(a[..n])) && a[n..] == old(a[n..])
  {
    hide Below, Less, DirOk, NameAt;
    ghost var names, a0, tail := Names(dir, offsets), a[..n], a[n..];
    var root := lo;
    while 2 * root + 1 < n
      invariant lo <= root < n && HeapExcept(a[..], names, lo, n, root)
      invariant multiset(a[..n]) == multiset(a0) && a[n..] == tail
      decreases n - root
    {
      ghost var s := a[..];
      var child := 2 * root + 1;
      if child + 1 < n {
        BelowTotal(names, a[child], a[child + 1], a[child]);
        BelowTotal(names, a[child + 1], a[child], a[child]);
        var less := FilenameLess(dir, offsets, a[child], a[child + 1]);
        if less {
          child := child + 1;
        }
      }
      BelowTotal(names, a[child], a[child], a[child]);
      Siblings(s, names, root, child, n);
      BelowTotal(names, a[root], a[child], a[root]);
      BelowTotal(names, a[child], a[root], a[root]);
      var less := FilenameLess(dir, offsets, a[root], a[child]);
      if !less {
        ChildrenBelow(s, names, root, child, n);
        SiftEnds(s, names, lo, n, root);
        return;
      }
      SiftStep(s, names, lo, n, root, child);
      SwapKeeps(s, root, child, n);
      a[root], a[child] := a[child], a[root];
      assert a[..] == Swapped(s, root, child);
      root := child;
    }
    SiftEnds(a[..], names, lo, n, root);
  }

  /** The chosen child is not before its sibling. */
  lemma Siblings(s: seq<nat>, names: seq<Name>, root: nat, child: nat, n: nat)
    requires InRange(s, names) && n <= |s| && 1 <= child < n && Parent(child) == root && Below(names, s[child], s[child])
    requires child == 2 * root + 1 && child + 1 < n ==> Below(names, s[child + 1], s[child])
    requires child == 2 * root + 2 ==> Below(names, s[child - 1], s[child])
    ensures forall c :: 1 <= c < n && Parent(c) == root ==> Below(names, s[c], s[child])
  {
    hide Below;
    forall c | 1 <= c < n && Parent(c) == root
      ensures Below(names, s[c], s[child])
    {
      assert c == 2 * root + 1 || c == 2 * root + 2;
    }
  }

  lemma ChildrenBelow(s: seq<nat>, names: seq<Name>, root: nat, child: nat, n: nat)
    requires InRange(s, names) && n <= |s| && root < n && 1 <= child < n && Below(names, s[child], s[root])
    requires forall c :: 1 <= c < n && Parent(c) == root ==> Below(names, s[c], s[child])
    ensures forall c :: 1 <= c < n && Parent(c) == root ==> Below(names, s[c], s[root])
  {
    hide Below;
    forall c | 1 <= c < n && Parent(c) == root
      ensures Below(names, s[c], s[root])
    {
      BelowTotal(names, s[c], s[child], s[root]);
    }
  }

  // ----- sorting

  /** In order from place `k` on, and nothing before `k` after anything from there on. */
  predicate SortedFrom(s: seq<nat>, names: seq<Name>, k: nat) {
    forall i, j :: 0 <= i < j < |s| && k <= j ==> Below(names, s[i], s[j])
  }

  /** The indices ordered by name. */
  predicate Sorted(s: seq<nat>, names: seq<Name>) {
    forall i, j :: 0 <= i < j < |s| ==> Below(names, s[i], s[j])
  }

  lemma {:induction false} RootIsLast(s: seq<nat>, names: seq<Name>, n: nat, i: nat)
    requires Heap(s, names, 0, n) && i < n
    ensures Below(names, s[i], s[0])
    decreases i
  {
    if i == 0 {
      BelowTotal(names, s[0], s[0], s[0]);
    } else {
      RootIsLast(s, names, n, Parent(i));
      assert EdgeOk(s, names, i);
      BelowTotal(names, s[i], s[Parent(i)], s[0]);
    }
  }

  /** Swapping the root behind the heap extends the sorted part. */
  lemma TakeRoot(s: seq<nat>, names: seq<Name>, end: nat)
    requires 0 < end < |s| && Heap(s, names, 0, end + 1) && SortedFrom(s, names, end + 1)
    ensures HeapExcept(Swapped(s, end, 0), names, 0, end, 0) && SortedFrom(Swapped(s, end, 0), names, end)
  {
    hide Below;
    var t := Swapped(s, end, 0);
    SwapInRange(s, end, 0, names);
    forall c | 1 <= c < end && Parent(c) >= 0 && Parent(c) != 0
      ensures EdgeOk(t, names, c)
    {
      assert EdgeOk(s, names, c);
    }
    forall i, j | 0 <= i < j < |t| && end <= j
      ensures Below(names, t[i], t[j])
    {
      if j == end {
        RootIsLast(s, names, end + 1, if i == 0 then end else i);
      } else {
        assert Below(names, s[if i == 0 then end else if i == end then 0 else i], s[j]);
      }
    }
  }

  /** Rearranging the front keeps the back sorted. */
  lemma FrontMoves(s: seq<nat>, t: seq<nat>, names: seq<Name>, k: nat)
    requires SortedFrom(s, names, k) && |t| == |s| && k <= |s| && t[k..] == s[k..] && multiset(t[..k]) == multiset(s[..k])
    ensures SortedFrom(t, names, k)
  {
    hide Below;
    forall i, j | 0 <= i < j < |t| && k <= j
      ensures Below(names, t[i], t[j])
    {
      assert t[j] == t[k..][j - k] == s[k..][j - k] == s[j];
      if i < k {
        assert t[..k][i] in multiset(t[..k]);
        assert t[i] in s[..k];
        var p :| 0 <= p < k && s[..k][p] == t[i];
        assert Below(names, s[p], s[j]);
      } else {
        assert t[i] == t[k..][i - k] == s[k..][i - k] == s[i];
      }
    }
  }

  lemma SamePieces(s: seq<nat>, t: seq<nat>, k: nat)
    requires |s| == |t| && k <= |s| && multiset(s[..k]) == multiset(t[..k]) && s[k..] == t[k..]
    ensures multiset(s) == multiset(t)
  {
    assert s == s[..k] + s[k..] && t == t[..k] + t[k..];
  }

  lemma HeapLower(s: seq<nat>, names: seq<Name>, lo: nat, n: nat)
    requires Heap(s, names, lo + 1, n)
    ensures HeapExcept(s, names, lo, n, lo)
  {
    hide Below;
  }

  /** Makes the indices a heap. */
  method BuildHeap(a: array<nat>, dir: seq<byte>, offsets: seq<nat>)
    requires DirOk(dir, offsets) && a.Length >= 2 && InRange(a[..], Names(dir, offsets))
    modifies a
    ensures Heap(a[..], Names(dir, offsets), 0, a.Length) && multiset(a[..]) == multiset(old(a[..]))
  {
    hide Below, Less, DirOk, NameAt;
    ghost var names, a0 := Names(dir, offsets), a[..];
    var size := a.Length;
    var start: nat := (size - 2) / 2;
    assert a[..size] == a[..];
    HeapLower(a[..], names, start, size);
    while true
      invariant start < size && HeapExcept(a[..], names, start, size, start) && multiset(a[..]) == multiset(a0)
      decreases start
    {
      ghost var s := a[..];
      SiftDown(a, dir, offsets, start, size);
      assert a[..size] == a[..] && s[..size] == s;
      if start == 0 {
        break;
      }
      start := start - 1;
      HeapLower(a[..], names, start, size);
    }
  }

  /** Puts the root behind the heap and mends the rest. */
  method MoveRoot(a: array<nat>, dir: seq<byte>, offsets: seq<nat>, end: nat)
    requires DirOk(dir, offsets) && 0 < end < a.Length
    requires Heap(a[..], Names(dir, offsets), 0, end + 1) && SortedFrom(a[..], Names(dir, offsets), end + 1)
    modifies a
    ensures Heap(a[..], Names(dir, offsets), 0, end) && SortedFrom(a[..], Names(dir, offsets), end)
    ensures multiset(a[..]) == multiset(old(a[..]))
  {
    hide Below, Less, DirOk, NameAt, Heap, SortedFrom;
    ghost var names, s := Names(dir, offsets), a[..];
    TakeRoot(s, names, end);
    SwapKeeps(s, end, 0, a.Length);
    a[end], a[0] := a[0], a[end];
    ghost var t := a[..];
    assert t == Swapped(s, end, 0);
    assert t[..a.Length] == t && s[..a.Length] == s;
    SiftDown(a, dir, offsets, 0, end);
    ghost var u := a[..];
    assert u[..end] == a[..end] && u[end..] == a[end..];
    FrontMoves(t, u, names, end);
    SamePieces(t, u, end);
  }

  /** mz_zip_reader_sort_central_dir_offsets_by_filename: orders the indices by name. */
  method SortByFilename(a: array<nat>, dir: seq<byte>, offsets: seq<nat>)
    requires DirOk(dir, offsets) && InRange(a[..], Names(dir, offsets))
    modifies a
    ensures Sorted(a[..], Names(dir, offsets)) && multiset(a[..]) == multiset(old(a[..]))
  {
    hide Below, Less, DirOk, NameAt, Heap;
    if a.Length <= 1 {
      return;
    }
    BuildHeap(a, dir, offsets);
    var end: nat := a.Length - 1;
    while end > 0
      invariant end < a.Length && Heap(a[..], Names(dir, offsets), 0, end + 1) && SortedFrom(a[..], Names(dir, offsets), end + 1)
      invariant multiset(a[..]) == multiset(old(a[..]))
    {
      MoveRoot(a, dir, offsets, end);
      end := end - 1;
    }
  }
}
