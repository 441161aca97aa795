/** An archive written, opened again and searched: a name is found just when an entry of that name was added. */
module ZipArchive {
  import opened Bits
  import opened Canonical
  import opened ZipNames
  import opened ZipFormat
  import opened ZipDirectory
  import opened ZipReader
  import opened ZipSearch

  /** A file to add: the bytes that go to the archive for it, local header and data, and its directory entry. */
  datatype Item = Item(local: seq<byte>, entry: Entry)

  function Entries(items: seq<Item>): (es: seq<Entry>)
    ensures |es| == |items| && forall i :: 0 <= i < |items| ==> es[i] == items[i].entry
  {
    seq(|items|, i requires 0 <= i < |items| => items[i].entry)
  }

  /** The bytes in front of the directory. */
  function Locals(items: seq<Item>): seq<byte> {
    if items == [] then [] else Locals(items[..|items| - 1]) + items[|items| - 1].local
  }

  function DirSize(items: seq<Item>): nat {
    StartOf(Entries(items), |items|)
  }

  /** The size of the archive of these items. */
  function ArchiveSize(items: seq<Item>): nat {
    |Locals(items)| + DirSize(items) + ECDH_SIZE
  }

  lemma OneMore(items: seq<Item>, k: nat)
    requires k < |items|
    ensures Entries(items[..k + 1]) == Entries(items[..k]) + [items[k].entry]
    ensures Locals(items[..k + 1]) == Locals(items[..k]) + items[k].local
    ensures DirSize(items[..k + 1]) == DirSize(items[..k]) + EntrySize(items[k].entry)
  {
    assert items[..k + 1][..k] == items[..k];
    StartOfPrefix(Entries(items[..k]), [items[k].entry], k);
  }

  lemma {:induction false} SizesGrow(items: seq<Item>, k: nat)
    requires k <= |items|
    ensures DirSize(items[..k]) <= DirSize(items)
    decreases |items| - k
  {
    if k < |items| {
      OneMore(items, k);
      SizesGrow(items, k + 1);
    } else {
      assert items[..k] == items;
    }
  }

  /** Adds all items and finalizes. It works just when there are few enough of them and all of it stays
      within 32 bits. */
  method WriteArchive(items: seq<Item>) returns (ok: bool, file: seq<byte>, ghost dir: seq<byte>, ghost offs: seq<nat>)
    requires forall i :: 0 <= i < |items| ==> EntryFits(items[i].entry)
    ensures ok <==> |items| < 0x1_0000 && ArchiveSize(items) <= MAX32
    ensures ok ==> Written(file, |Locals(items)|, dir, offs, Entries(items)) && |file| == ArchiveSize(items)
  {
    hide DirFor, Written, DirSize;
    var w := new Writer();
    ok, file, dir, offs := true, [], [], [];
    Nothing(items);
    for i := 0 to |items|
      invariant fresh(w) && w.Valid() && ok
      invariant w.file == Locals(items[..i]) && w.entries == Entries(items[..i])
    {
      OneMore(items, i);
      w.Append(items[i].local);
      DirIsThatLong(w.dir, w.offsets, w.entries, items[..i]);
      SizesGrow(items, i + 1);
      ok := w.AddToCentralDir(items[i].entry);
      if !ok {
        return;
      }
    }
    assert items[..|items|] == items;
    DirIsThatLong(w.dir, w.offsets, w.entries, items);
    ok := w.Finalize();
    file, dir, offs := w.file, w.dir, w.offsets;
    if ok {
      WrittenLength(file, |Locals(items)|, dir, offs, Entries(items));
    }
  }

  lemma Nothing(items: seq<Item>)
    ensures Locals(items[..0]) == [] && Entries(items[..0]) == []
  {
  }

  lemma DirIsThatLong(dir: seq<byte>, offs: seq<nat>, es: seq<Entry>, items: seq<Item>)
    requires DirFor(dir, offs, es) && es == Entries(items)
    ensures |dir| == DirSize(items)
  {
  }

  lemma WrittenLength(file: seq<byte>, n: nat, dir: seq<byte>, offs: seq<nat>, es: seq<Entry>)
    requires Written(file, n, dir, offs, es)
    ensures |file| == n + |dir| + ECDH_SIZE && DirFor(dir, offs, es)
  {
  }

  /** Some item has this name, letters folded. */
  predicate Added(items: seq<Item>, name: Name) {
    exists i :: 0 <= i < |items| && Fold(items[i].entry.name) == Fold(name)
  }

  predicate IsNamed(items: seq<Item>, found: Option<nat>, name: Name) {
    found.Some? ==> found.value < |items| && Fold(items[found.value].entry.name) == Fold(name)
  }

  /** Writes an archive, opens it and looks for a name, by binary search over the sorted entries and by
      scanning them. If the writer got through, the reader accepts each entry and the bytes in front of the
      end record do not look like a zip64 locator, the name is found just when it was added. */
  method WriteAndFind(items: seq<Item>, name: Name)
    returns (ok: bool, file: seq<byte>, result: Opened, fast: Option<nat>, slow: Option<nat>)
    requires forall i :: 0 <= i < |items| ==> EntryFits(items[i].entry)
    ensures ok <==> |items| < 0x1_0000 && ArchiveSize(items) <= MAX32
    ensures ok && AllReadable(Entries(items), ArchiveSize(items)) && NoLocator(file) ==>
      && result.Opened? && |result.offsets| == |items|
      && (fast.Some? <==> Added(items, name)) && (slow.Some? <==> Added(items, name))
      && IsNamed(items, fast, name) && IsNamed(items, slow, name)
  {
    hide Written, AllReadable, NoLocator, DirOk, NameAt, ArchiveSize;
    ghost var dir, offs;
    fast, slow := None, None;
    ok, file, dir, offs := WriteArchive(items);
    if !ok {
      result := Refused(NotAnArchive);
      return;
    }
    ghost var es := Entries(items);
    result := ReadCentralDir(file, |Locals(items)|, dir, offs, es);
    if result.Opened? {
      fast, slow := LocateBothWays(result.dir, result.offsets, name);
      if AllReadable(es, ArchiveSize(items)) && NoLocator(file) {
        WrittenLength(file, |Locals(items)|, dir, offs, es);
        FoundAreAdded(dir, offs, items, name, fast, slow);
      }
    }
  }

  lemma FoundAreAdded(dir: seq<byte>, offs: seq<nat>, items: seq<Item>, name: Name, fast: Option<nat>, slow: Option<nat>)
    requires DirFor(dir, offs, Entries(items)) && DirOk(dir, offs)
    requires fast.Some? <==> exists x :: 0 <= x < |offs| && Matches(Names(dir, offs), x, name)
    requires fast.Some? ==> slow.Some? && Matches(Names(dir, offs), fast.value, name) && Matches(Names(dir, offs), slow.value, name)
    ensures fast.Some? <==> Added(items, name)
    ensures fast.Some? ==> IsNamed(items, fast, name) && IsNamed(items, slow, name)
  {
    hide DirFor, DirOk, NameAt;
    NamesReadBack(dir, offs, Entries(items));
    var names := Names(dir, offs);
    assert |offs| == |items| && forall i :: 0 <= i < |items| ==> names[i] == items[i].entry.name;
    if Added(items, name) {
      var i :| 0 <= i < |items| && Fold(items[i].entry.name) == Fold(name);
      assert Matches(names, i, name);
    }
  }
}
