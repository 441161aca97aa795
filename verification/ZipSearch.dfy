/** Finding an entry by name: by binary search over the sorted indices, or by scanning all entries. */
module ZipSearch {
  import opened Bits
  import opened Canonical
  import opened ZipNames
  import opened ZipSort

  /** `x` is an entry whose name is `name`, letters folded. */
  predicate Matches(names: seq<Name>, x: nat, name: Name) {
    x < |names| && Fold(names[x]) == Fold(name)
  }

  /** Every entry is among the indices. */
  predicate Covers(s: seq<nat>, names: seq<Name>) {
    forall x :: 0 <= x < |names| ==> x in s
  }

  lemma NotBefore(names: seq<Name>, x: nat, y: nat, name: Name)
    requires Below(names, x, y) && Compare(names[y], name) < 0
    ensures !Matches(names, x, name)
  {
    SameName(names[x], name);
    LeIsTotalOrder(names[x], names[y], name);
    LeIsTotalOrder(names[y], names[x], name);
    LeIsTotalOrder(name, names[x], names[y]);
    LeIsTotalOrder(name, names[y], names[y]);
    LeIsTotalOrder(names[y], name, name);
  }

  lemma NotAfter(names: seq<Name>, x: nat, y: nat, name: Name)
    requires Below(names, y, x) && Compare(names[y], name) > 0
    ensures !Matches(names, x, name)
  {
    SameName(names[x], name);
    LeIsTotalOrder(names[y], names[x], name);
    LeIsTotalOrder(names[x], name, name);
  }

  /** No index outside [l, h] has the name. */
  predicate Outside(s: seq<nat>, names: seq<Name>, name: Name, l: int, h: int) {
    forall i :: 0 <= i < |s| && (i < l || i > h) ==> !Matches(names, s[i], name)
  }

  lemma GoRight(s: seq<nat>, names: seq<Name>, name: Name, l: int, h: int, m: nat)
    requires Sorted(s, names) && InRange(s, names) && Outside(s, names, name, l, h) && m < |s| && Compare(names[s[m]], name) < 0
    ensures Outside(s, names, name, m + 1, h)
  {
    hide Matches, Below;
    forall i | 0 <= i < |s| && (i < m + 1 || i > h)
      ensures !Matches(names, s[i], name)
    {
      if i <= m {
        BelowTotal(names, s[m], s[m], s[m]);
        NotBefore(names, s[i], s[m], name);
      }
    }
  }

  lemma GoLeft(s: seq<nat>, names: seq<Name>, name: Name, l: int, h: int, m: nat)
    requires Sorted(s, names) && InRange(s, names) && Outside(s, names, name, l, h) && m < |s| && Compare(names[s[m]], name) > 0
    ensures Outside(s, names, name, l, m - 1)
  {
    hide Matches, Below;
    forall i | 0 <= i < |s| && (i < l || i > m - 1)
      ensures !Matches(names, s[i], name)
    {
      if i >= m {
        BelowTotal(names, s[m], s[m], s[m]);
        NotAfter(names, s[i], s[m], name);
      }
    }
  }

  lemma NoneLeft(s: seq<nat>, names: seq<Name>, name: Name, l: int, h: int)
    requires Covers(s, names) && Outside(s, names, name, l, h) && l > h
    ensures forall x :: 0 <= x < |names| ==> !Matches(names, x, name)
  {
    hide Matches;
    forall x | 0 <= x < |names|
      ensures !Matches(names, x, name)
    {
      assert x in s;
    }
  }

  /** mz_zip_locate_file_binary_search. */
  method BinarySearch(a: array<nat>, dir: seq<byte>, offsets: seq<nat>, name: Name) returns (found: Option<nat>)
    requires DirOk(dir, offsets) && InRange(a[..], Names(dir, offsets))
    requires Sorted(a[..], Names(dir, offsets)) && Covers(a[..], Names(dir, offsets))
    ensures found.Some? ==> Matches(Names(dir, offsets), found.value, name)
    ensures found.None? ==> forall x :: 0 <= x < |offsets| ==> !Matches(Names(dir, offsets), x, name)
  {
    hide Sorted, Covers, DirOk, NameAt, Outside;
    ghost var names, s := Names(dir, offsets), a[..];
    var l: int, h: int := 0, a.Length - 1;
    NothingOutside(s, names, name);
    while l <= h
      invariant 0 <= l <= h + 1 <= a.Length && Outside(s, names, name, l, h)
      decreases h - l
    {
      var m: nat := l + (h - l) / 2;
      var fileIndex := a[m];
      var comp := FilenameCompare(dir, offsets, fileIndex, name);
      if comp == 0 {
        SameName(names[fileIndex], name);
        return Some(fileIndex);
      } else if comp < 0 {
        GoRight(s, names, name, l, h, m);
        l := m + 1;
      } else {
        GoLeft(s, names, name, l, h, m);
        h := m - 1;
      }
    }
    NoneLeft(s, names, name, l, h);
    found := None;
  }

  lemma NothingOutside(s: seq<nat>, names: seq<Name>, name: Name)
    ensures Outside(s, names, name, 0, |s| - 1)
  {
  }

  /** mz_zip_string_equal without the case-sensitive flag. */
  method StringEqual(a: Name, b: Name) returns (equal: bool)
    requires |a| == |b|
    ensures equal <==> Fold(a) == Fold(b)
  {
    for i := 0 to |a|
      invariant Fold(a)[..i] == Fold(b)[..i]
    {
      if Lower(a[i]) != Lower(b[i]) {
        assert Fold(a)[i] != Fold(b)[i];
        return false;
      }
    }
    assert Fold(a)[..|a|] == Fold(a) && Fold(b)[..|a|] == Fold(b);
    return true;
  }

  /** The scan of mz_zip_reader_locate_file_v2 without flags and comment: the first entry of that name;
      names of more than 65535 bytes are refused. */
  method LinearSearch(dir: seq<byte>, offsets: seq<nat>, name: Name) returns (found: Option<nat>)
    requires DirOk(dir, offsets)
    ensures found.Some? ==> Matches(Names(dir, offsets), found.value, name)
    ensures found.Some? ==> forall x :: 0 <= x < found.value ==> !Matches(Names(dir, offsets), x, name)
    ensures found.None? ==> forall x :: 0 <= x < |offsets| ==> !Matches(Names(dir, offsets), x, name)
  {
    ghost var names := Names(dir, offsets);
    if |name| > 0xFFFF {
      return None;
    }
    for i := 0 to |offsets|
      invariant forall x :: 0 <= x < i ==> !Matches(names, x, name)
    {
      var entry := NameAt(dir, offsets[i]);
      assert entry == names[i];
      if |entry| == |name| {
        var equal := StringEqual(name, entry);
        if equal {
          return Some(i);
        }
      } else {
        assert |Fold(entry)| != |Fold(name)|;
      }
    }
    found := None;
  }

  /** Sorted indices of all entries: what the reader prepares and both searches rely on. */
  lemma SortedCovers(s: seq<nat>, t: seq<nat>, names: seq<Name>)
    requires multiset(s) == multiset(t) && |s| == |names| && forall i :: 0 <= i < |s| ==> s[i] == i
    ensures Covers(t, names) && InRange(t, names)
  {
    forall x | 0 <= x < |names|
      ensures x in t
    {
      assert s[x] in multiset(s);
    }
    forall i | 0 <= i < |t|
      ensures t[i] < |names|
    {
      assert t[i] in multiset(t);
      assert t[i] in s;
    }
  }

  /** After sorting, the binary search finds an entry exactly when the scan does. */
  method LocateBothWays(dir: seq<byte>, offsets: seq<nat>, name: Name) returns (fast: Option<nat>, slow: Option<nat>)
    requires DirOk(dir, offsets)
    ensures fast.Some? <==> slow.Some?
    ensures fast.Some? <==> exists x :: 0 <= x < |offsets| && Matches(Names(dir, offsets), x, name)
    ensures fast.Some? ==> Matches(Names(dir, offsets), fast.value, name) && Matches(Names(dir, offsets), slow.value, name)
  {
    hide DirOk, NameAt, Matches, Sorted;
    var a := new nat[|offsets|](i => i);
    ghost var s := a[..];
    assert InRange(s, Names(dir, offsets));
    SortByFilename(a, dir, offsets);
    assert |a[..]| == |offsets|;
    SortedCovers(s, a[..], Names(dir, offsets));
    fast := BinarySearch(a, dir, offsets, name);
    slow := LinearSearch(dir, offsets, name);
    FoundInRange(Names(dir, offsets), fast, name);
    FoundInRange(Names(dir, offsets), slow, name);
  }

  lemma FoundInRange(names: seq<Name>, found: Option<nat>, name: Name)
    ensures found.Some? && Matches(names, found.value, name) ==> found.value < |names|
  {
  }
}
