/** Writing and reading the central directory of a ZIP archive (APPNOTE sections 4.3.12 and 4.3.16),
    without zip64 and without an archive comment. */
module ZipDirectory {
  import opened Bits
  import opened ZipNames
  import opened ZipFormat

  // ----- where entries lie

  function EntrySize(e: Entry): nat {
    HEADER_SIZE + |e.name| + |e.extra| + |e.comment|
  }

  /** Header, name, extra data and comment of `e`, one after the other. */
  predicate Lies(dir: seq<byte>, at: nat, e: Entry) {
    && at + EntrySize(e) <= |dir| && HeaderFor(dir[at..at + HEADER_SIZE], e)
    && dir[at + HEADER_SIZE..at + EntrySize(e)] == e.name + e.extra + e.comment
  }

  /** Where entry `i` starts. */
  function StartOf(es: seq<Entry>, i: nat): nat
    requires i <= |es|
  {
    if i == 0 then 0 else StartOf(es, i - 1) + EntrySize(es[i - 1])
  }

  predicate EntryAt(dir: seq<byte>, offsets: seq<nat>, es: seq<Entry>, i: nat)
    requires i < |es| == |offsets|
  {
    offsets[i] == StartOf(es, i) && Lies(dir, offsets[i], es[i])
  }

  /** The directory holds the entries back to back, and nothing else. */
  predicate DirFor(dir: seq<byte>, offsets: seq<nat>, es: seq<Entry>) {
    |offsets| == |es| && |dir| == StartOf(es, |es|) && forall i :: 0 <= i < |es| ==> EntryAt(dir, offsets, es, i)
  }

  lemma {:induction false} StartOfPrefix(es: seq<Entry>, more: seq<Entry>, i: nat)
    requires i <= |es|
    ensures StartOf(es + more, i) == StartOf(es, i)
    decreases i
  {
    if i > 0 {
      StartOfPrefix(es, more, i - 1);
    }
  }

  lemma LiesStays(dir: seq<byte>, more: seq<byte>, at: nat, e: Entry)
    requires Lies(dir, at, e)
    ensures Lies(dir + more, at, e)
  {
    assert (dir + more)[at..at + HEADER_SIZE] == dir[at..at + HEADER_SIZE];
    assert (dir + more)[at + HEADER_SIZE..at + EntrySize(e)] == dir[at + HEADER_SIZE..at + EntrySize(e)];
  }

  lemma LiesNew(dir: seq<byte>, h: seq<byte>, e: Entry)
    requires HeaderFor(h, e)
    ensures Lies(dir + h + e.name + e.extra + e.comment, |dir|, e)
  {
    var d, at := dir + h + e.name + e.extra + e.comment, |dir|;
    assert d[at..at + HEADER_SIZE] == h;
    assert d[at + HEADER_SIZE..at + EntrySize(e)] == e.name + e.extra + e.comment;
  }

  lemma DirGrows(dir: seq<byte>, offsets: seq<nat>, es: seq<Entry>, h: seq<byte>, e: Entry)
    requires DirFor(dir, offsets, es) && HeaderFor(h, e)
    ensures DirFor(dir + h + e.name + e.extra + e.comment, offsets + [|dir|], es + [e])
  {
    hide Lies, HeaderFor;
    var tail := h + e.name + e.extra + e.comment;
    var d, o, f := dir + h + e.name + e.extra + e.comment, offsets + [|dir|], es + [e];
    assert d == dir + tail;
    HeaderLength(h, e);
    StartOfPrefix(es, [e], |es|);
    forall i | 0 <= i < |f|
      ensures EntryAt(d, o, f, i)
    {
      StartOfPrefix(es, [e], if i < |es| then i else 0);
      if i < |es| {
        assert EntryAt(dir, offsets, es, i);
        LiesStays(dir, tail, offsets[i], es[i]);
      } else {
        LiesNew(dir, h, e);
      }
    }
  }

  lemma HeaderLength(h: seq<byte>, e: Entry)
    requires HeaderFor(h, e)
    ensures |h| == HEADER_SIZE
  {
  }

  // ----- the end record

  predicate EndFor(h: seq<byte>, total: nat, dirSize: nat, dirOfs: nat) {
    && |h| == ECDH_SIZE && LE32(h, 0) == ECDH_SIG && LE16(h, 4) == 0 && LE16(h, 6) == 0
    && LE16(h, 8) == total && LE16(h, 10) == total && LE32(h, 12) == dirSize && LE32(h, 16) == dirOfs
  }

  method FillEnd(total: nat, dirSize: nat, dirOfs: nat) returns (h: seq<byte>)
    requires total < 0x1_0000 && dirSize <= MAX32 && dirOfs <= MAX32
    ensures EndFor(h, total, dirSize, dirOfs) && h[4..8] == [0, 0, 0, 0] && h[20..] == [0, 0]
  {
    var a := new byte[ECDH_SIZE](i => 0);
    Put32(a, 0, ECDH_SIG);
    Put16(a, 8, total);
    Put16(a, 10, total);
    Put32(a, 12, dirSize);
    Put32(a, 16, dirOfs);
    h := a[..];
  }

  /** The end record of an archive without a comment. */
  method CreateEnd(total: nat, dirSize: nat, dirOfs: nat) returns (h: seq<byte>)
    requires total < 0x1_0000 && dirSize <= MAX32 && dirOfs <= MAX32
    ensures EndFor(h, total, dirSize, dirOfs)
    ensures h == [0x50, 0x4b, 5, 6, 0, 0, 0, 0] + Two(total) + Two(total) + Four(dirSize) + Four(dirOfs) + [0, 0]
  {
    h := FillEnd(total, dirSize, dirOfs);
    EndBytes(h, total, dirSize, dirOfs);
    FieldBytes32(h, 0, ECDH_SIG);
    assert Four(ECDH_SIG) == [0x50, 0x4b, 5, 6];
    hide Two, Four, LE16, LE32, EndFor;
    assert h[..8] == h[0..4] + h[4..8];
  }

  lemma EndBytes(h: seq<byte>, total: nat, dirSize: nat, dirOfs: nat)
    requires EndFor(h, total, dirSize, dirOfs)
    ensures total < 0x1_0000 && dirSize <= MAX32 && dirOfs <= MAX32
    ensures h == h[..8] + Two(total) + Two(total) + Four(dirSize) + Four(dirOfs) + h[20..]
  {
    hide LE16, LE32, Two, Four;
    FieldBytes16(h, 8, total);
    FieldBytes16(h, 10, total);
    FieldBytes32(h, 12, dirSize);
    FieldBytes32(h, 16, dirOfs);
    assert h == h[..8] + h[8..10] + h[10..12] + h[12..16] + h[16..20] + h[20..];
  }

  // ----- the writer

  /** A finished archive: `n` bytes of entries, the directory, the end record. */
  predicate Written(file: seq<byte>, n: nat, dir: seq<byte>, offsets: seq<nat>, es: seq<Entry>) {
    && |es| < 0x1_0000 && |file| == n + |dir| + ECDH_SIZE <= MAX32 && DirFor(dir, offsets, es)
    && file[n..n + |dir|] == dir && EndFor(file[n + |dir|..], |es|, |dir|, if es == [] then 0 else n)
  }

  class Writer {
    /** Bytes written to the archive, and the directory that will follow them. */
    var file: seq<byte>
    var dir: seq<byte>
    var offsets: seq<nat>
    var totalFiles: nat
    ghost var entries: seq<Entry>

    ghost predicate Valid()
      reads this
    {
      totalFiles == |entries| && DirFor(dir, offsets, entries)
    }

    constructor ()
      ensures Valid() && entries == [] && file == []
    {
      file, dir, offsets, totalFiles, entries := [], [], [], 0, [];
    }

    /** Local headers and data go to the archive as they are. */
    method Append(bytes: seq<byte>)
      requires Valid()
      modifies this`file
      ensures Valid() && file == old(file) + bytes
    {
      file := file + bytes;
    }

    /** mz_zip_writer_add_to_central_dir; user extra data is part of the extra data. */
    method AddToCentralDir(e: Entry) returns (ok: bool)
      requires Valid() && EntryFits(e)
      modifies this`dir, this`offsets, this`totalFiles, this`entries
      ensures Valid() && ok == (|old(dir)| + EntrySize(e) < MAX32)
      ensures entries == if ok then old(entries) + [e] else old(entries)
    {
      hide DirFor, HeaderFor;
      ok := |dir| + EntrySize(e) < MAX32;
      if ok {
        var h := CreateHeader(e);
        DirGrows(dir, offsets, entries, h, e);
        offsets := offsets + [|dir|];
        dir := dir + h + e.name + e.extra + e.comment;
        totalFiles := totalFiles + 1;
        entries := entries + [e];
      }
    }

    /** mz_zip_writer_finalize_archive. */
    method Finalize() returns (ok: bool)
      requires Valid()
      modifies this`file
      ensures Valid() && ok == (|entries| < 0x1_0000 && |old(file)| + |dir| + ECDH_SIZE <= MAX32)
      ensures if ok then Written(file, |old(file)|, dir, offsets, entries) && file[..|old(file)|] == old(file) else file == old(file)
    {
      hide HeaderFor, Lies;
      ok := totalFiles < 0x1_0000 && |file| + |dir| + ECDH_SIZE <= MAX32;
      if ok {
        var dirOfs := if totalFiles > 0 then |file| else 0;
        ghost var n := |file|;
        if totalFiles > 0 {
          file := file + dir;
        } else {
          assert dir == [] && file + dir == file;
        }
        var h := CreateEnd(totalFiles, |dir|, dirOfs);
        file := file + h;
        assert file[n..n + |dir|] == dir && file[n + |dir|..] == h;
      }
    }
  }
}
