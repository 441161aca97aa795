/** Reading the central directory back. */
module ZipReader {
  import opened Bits
  import opened Canonical
  import opened ZipNames
  import opened ZipFormat
  import opened ZipDirectory

  datatype ZipError = NotAnArchive | NoCentralDir | NeedsZip64 | MultiDisk | Corrupted | Encrypted

  datatype Opened = Opened(dir: seq<byte>, offsets: seq<nat>) | Refused(error: ZipError)

  const CHUNK: nat := 4096

  /** How far from the end the search for the end record may give up: a comment of 65535 bytes and the record. */
  const SEARCHED: nat := 0xFFFF + ECDH_SIZE

  /** No record of the signature begins at `i`. */
  predicate NoSigAt(file: seq<byte>, i: int) {
    0 <= i && i + ECDH_SIZE <= |file| ==> LE32(file, i) != ECDH_SIG
  }

  /** One piece of the search, backwards from its end. */
  method SearchPiece(file: seq<byte>, base: nat) returns (at: Option<nat>)
    requires base <= |file| && ECDH_SIZE <= |file|
    ensures at.Some? ==> base <= at.value && at.value + ECDH_SIZE <= |file| && LE32(file, at.value) == ECDH_SIG
    ensures at.Some? ==> forall i :: at.value < i <= base + CHUNK - 4 ==> NoSigAt(file, i)
    ensures at.None? ==> forall i :: base <= i <= base + CHUNK - 4 ==> NoSigAt(file, i)
  {
    var n := if |file| - base < CHUNK then |file| - base else CHUNK;
    var i := n - 4;
    while i >= 0
      invariant i <= n - 4 && forall k :: base + i < k <= base + CHUNK - 4 && base <= k ==> NoSigAt(file, k)
    {
      if LE32(file, base + i) == ECDH_SIG && |file| - (base + i) >= ECDH_SIZE {
        return Some(base + i);
      }
      i := i - 1;
    }
    at := None;
  }

  /** mz_zip_reader_locate_header_sig: the last place where the signature stands with room for a record
      behind it, searched in overlapping pieces from the end until it is found or too far away. */
  method LocateHeaderSig(file: seq<byte>) returns (at: Option<nat>)
    ensures at.Some? ==> at.value + ECDH_SIZE <= |file| && LE32(file, at.value) == ECDH_SIG
    ensures at.Some? ==> forall i :: at.value < i ==> NoSigAt(file, i)
    ensures at.None? ==> forall i :: |file| - (65535 + 22) <= i ==> NoSigAt(file, i)
  {
    hide NoSigAt;
    if |file| < ECDH_SIZE {
      TooShort(file);
      return None;
    }
    var base: nat := if |file| > CHUNK then |file| - CHUNK else 0;
    Behind(file);
    while true
      invariant base <= |file| && forall i :: base + CHUNK - 4 < i ==> NoSigAt(file, i)
      decreases base
    {
      at := SearchPiece(file, base);
      if at.Some? || base == 0 || |file| - base >= SEARCHED {
        InFront(file);
        return;
      }
      base := if base > CHUNK - 3 then base - (CHUNK - 3) else 0;
    }
  }

  lemma TooShort(file: seq<byte>)
    requires |file| < ECDH_SIZE
    ensures forall i :: NoSigAt(file, i)
  {
  }

  /** Within four bytes of the end there is no room for a record, and none in front of the file. */
  lemma Behind(file: seq<byte>)
    ensures forall i :: i > |file| - 4 ==> NoSigAt(file, i)
  {
  }

  lemma InFront(file: seq<byte>)
    ensures forall i :: i < 0 ==> NoSigAt(file, i)
  {
  }

  /** What the reader insists on for an entry of an archive of `size` bytes. */
  predicate Readable(e: Entry, size: nat) {
    && EntryFits(e) && (e.kind == 0 && e.time == 0 ==> e.size == e.compSize) && (e.size > 0 ==> e.compSize > 0)
    && e.headerOfs + LOCAL_HEADER_SIZE + e.compSize <= size && e.flags / 8192 % 2 == 0
  }

  /** Fields read in place are the fields of the header. */
  lemma FieldsInPlace(dir: seq<byte>, p: nat, e: Entry)
    requires Lies(dir, p, e)
    ensures p + HEADER_SIZE <= |dir| && LE32(dir, p) == CDH_SIG && LE32(dir, p + 20) == e.compSize && LE32(dir, p + 24) == e.size
    ensures LE32(dir, p + 42) == e.headerOfs && LE16(dir, p + 10) == e.kind && LE16(dir, p + 12) == e.time && LE16(dir, p + 34) == 0
    ensures LE16(dir, p + 8) == e.flags && LE16(dir, p + 28) == |e.name| && LE16(dir, p + 30) == |e.extra| && LE16(dir, p + 32) == |e.comment|
  {
    var h := dir[p..p + HEADER_SIZE];
    assert forall k :: 0 <= k < HEADER_SIZE ==> h[k] == dir[p + k];
  }

  function SizeAt(dir: seq<byte>, p: nat): nat
    requires p + 46 <= |dir|
  {
    46 + LE16(dir, p + 28) + LE16(dir, p + 30) + LE16(dir, p + 32)
  }

  /** What passes: the signature, no field left to zip64 beside extra data, sizes that can belong together, a disk
      the archive has, data inside the archive, and no masked header. */
  predicate Sound(dir: seq<byte>, p: nat, archiveSize: nat, numThisDisk: nat)
    requires p + 46 <= |dir|
  {
    var compSize, decompSize, headerOfs := LE32(dir, p + 20), LE32(dir, p + 24), LE32(dir, p + 42);
    && LE32(dir, p) == 0x02014b50
    && (LE16(dir, p + 30) > 0 ==> compSize < 0xFFFFFFFF && decompSize < 0xFFFFFFFF && headerOfs < 0xFFFFFFFF)
    && (compSize < 0xFFFFFFFF && decompSize < 0xFFFFFFFF ==>
          (decompSize == compSize || LE32(dir, p + 10) != 0) && (decompSize == 0 || compSize > 0))
    && LE16(dir, p + 34) != 0xFFFF && LE16(dir, p + 34) in {numThisDisk, 1}
    && (compSize < 0xFFFFFFFF ==> headerOfs + 30 + compSize <= archiveSize)
    && (LE16(dir, p + 8) / 8192) % 2 == 0
  }

  lemma AtMost32(s: seq<byte>, at: nat)
    requires at + 4 <= |s|
    ensures LE32(s, at) <= 0xFFFFFFFF
  {
  }

  /** Checks the entry at `p`, with `n` bytes of directory left, and says how long it is. */
  method CheckEntry(dir: seq<byte>, p: nat, n: nat, archiveSize: nat, numThisDisk: nat, ghost e: Entry) returns (error: Option<ZipError>, size: nat)
    requires p + n == |dir|
    ensures Lies(dir, p, e) && Readable(e, archiveSize) && numThisDisk == 0 ==> error.None? && size == EntrySize(e)
    ensures error.None? ==> HEADER_SIZE <= size <= n && EntryOk(dir, p)
    ensures error.None? <==> n >= 46 && Sound(dir, p, archiveSize, numThisDisk) && size <= n && size == SizeAt(dir, p)
    ensures error == Some(Encrypted) ==> n >= 46 && (LE16(dir, p + 8) / 8192) % 2 == 1
  {
    ghost var fine := Lies(dir, p, e) && Readable(e, archiveSize) && numThisDisk == 0;
    if fine {
      FieldsInPlace(dir, p, e);
    }
    hide Lies;
    size := 0;
    if n >= HEADER_SIZE {
      AtMost32(dir, p + 20);
      AtMost32(dir, p + 24);
      AtMost32(dir, p + 42);
    }
    hide LE32;
    if n < HEADER_SIZE || LE32(dir, p) != CDH_SIG {
      return Some(Corrupted), 0;
    }
    var compSize, decompSize, headerOfs := LE32(dir, p + 20), LE32(dir, p + 24), LE32(dir, p + 42);
    if LE16(dir, p + 30) > 0 && (compSize == MAX32 || decompSize == MAX32 || headerOfs == MAX32) {
      return Some(NeedsZip64), 0;
    }
    if compSize != MAX32 && decompSize != MAX32 {
      var methodAndTime := LE32(dir, p + 10);
      if (methodAndTime == 0 && decompSize != compSize) || (decompSize > 0 && compSize == 0) {
        return Some(Corrupted), 0;
      }
    }
    var disk := LE16(dir, p + 34);
    if disk == 0xFFFF || (disk != numThisDisk && disk != 1) {
      return Some(MultiDisk), 0;
    }
    if compSize != MAX32 && headerOfs + LOCAL_HEADER_SIZE + compSize > archiveSize {
      return Some(Corrupted), 0;
    }
    if LE16(dir, p + 8) / 8192 % 2 == 1 {
      return Some(Encrypted), 0;
    }
    size := HEADER_SIZE + LE16(dir, p + NAME_LEN_OFS) + LE16(dir, p + 30) + LE16(dir, p + 32);
    if size > n {
      return Some(Corrupted), 0;
    }
    error := None;
  }

  /** Entries and what the reader asks of them. */
  ghost predicate AllReadable(es: seq<Entry>, size: nat) {
    forall i :: 0 <= i < |es| ==> Readable(es[i], size)
  }

  /** The entries stand back to back from the start of the directory, and each of them passes. */
  predicate Passed(dir: seq<byte>, offsets: seq<nat>, archiveSize: nat, numThisDisk: nat) {
    forall i :: 0 <= i < |offsets| ==>
      && offsets[i] + 46 <= |dir| && offsets[i] + SizeAt(dir, offsets[i]) <= |dir|
      && Sound(dir, offsets[i], archiveSize, numThisDisk) && offsets[i] == NextStart(dir, offsets[..i])
  }

  /** Where the entry behind those at `offsets` starts. */
  function NextStart(dir: seq<byte>, offsets: seq<nat>): nat {
    if offsets == [] || offsets[|offsets| - 1] + 46 > |dir| then 0 else offsets[|offsets| - 1] + SizeAt(dir, offsets[|offsets| - 1])
  }

  lemma PassedOne(dir: seq<byte>, offsets: seq<nat>, p: nat, archiveSize: nat, numThisDisk: nat)
    requires Passed(dir, offsets, archiveSize, numThisDisk) && p == NextStart(dir, offsets) && p + 46 <= |dir|
    requires p + SizeAt(dir, p) <= |dir| && Sound(dir, p, archiveSize, numThisDisk)
    ensures Passed(dir, offsets + [p], archiveSize, numThisDisk) && NextStart(dir, offsets + [p]) == p + SizeAt(dir, p)
  {
    hide Sound, SizeAt;
    var more := offsets + [p];
    assert forall i :: 0 <= i <= |offsets| ==> more[..i] == offsets[..i];
    assert offsets[..|offsets|] == offsets;
  }

  /** What this says of each entry of an opened archive: it lies in the directory and is no masked header, its
      data end inside the archive, and it begins where the entry before it ends. */
  lemma PassedMeans(dir: seq<byte>, offsets: seq<nat>, archiveSize: nat, numThisDisk: nat, i: nat)
    requires Passed(dir, offsets, archiveSize, numThisDisk) && i < |offsets|
    ensures var p := offsets[i]; p + 46 <= |dir| && p + 46 + LE16(dir, p + 28) + LE16(dir, p + 30) + LE16(dir, p + 32) <= |dir|
    ensures var p := offsets[i]; LE32(dir, p) == 0x02014b50 && (LE16(dir, p + 8) / 8192) % 2 == 0
    ensures var p := offsets[i]; LE32(dir, p + 20) < 0xFFFFFFFF ==> LE32(dir, p + 42) + 30 + LE32(dir, p + 20) <= archiveSize
    ensures if i == 0 then offsets[i] == 0
      else var q := offsets[i - 1]; q + 46 <= |dir| && offsets[i] == q + 46 + LE16(dir, q + 28) + LE16(dir, q + 30) + LE16(dir, q + 32)
  {
    hide LE16, LE32;
    if i > 0 {
      assert offsets[..i][|offsets[..i]| - 1] == offsets[i - 1];
    }
  }

  /** Walks the directory and notes where its entries start. */
  method ReadEntries(dir: seq<byte>, total: nat, archiveSize: nat, numThisDisk: nat, ghost good: bool, ghost offs: seq<nat>, ghost es: seq<Entry>)
    returns (r: Opened)
    requires good ==> DirFor(dir, offs, es) && total == |es| && AllReadable(es, archiveSize) && numThisDisk == 0
    ensures good ==> r == Opened(dir, offs)
    ensures r.Opened? ==> r.dir == dir && |r.offsets| == total && DirOk(dir, r.offsets)
    ensures r.Opened? ==> Passed(dir, r.offsets, archiveSize, numThisDisk)
  {
    hide Lies, Readable, EntryOk, Sound, SizeAt;
    var p: nat, n: nat, offsets := 0, |dir|, [];
    for i := 0 to total
      invariant p + n == |dir| && |offsets| == i && DirOk(dir, offsets)
      invariant Passed(dir, offsets, archiveSize, numThisDisk) && p == NextStart(dir, offsets)
      invariant good ==> p == StartOf(es, i) && offsets == offs[..i]
    {
      assert good ==> EntryAt(dir, offs, es, i);
      ghost var e := if good then es[i] else Entry([], [], [], 0, 0, 0, 0, 0, 0, 0, 0, 0);
      var error, size := CheckEntry(dir, p, n, archiveSize, numThisDisk, e);
      if error.Some? {
        return Refused(error.value);
      }
      PassedOne(dir, offsets, p, archiveSize, numThisDisk);
      offsets := offsets + [p];
      n := n - size;
      p := p + size;
    }
    r := Opened(dir, offsets);
  }

  /** mz_zip_reader_read_central_dir. An archive that shows a zip64 locator is refused here. The ghost
      arguments say how the archive was written, if it was. */
  method ReadCentralDir(file: seq<byte>, ghost n: nat, ghost dir: seq<byte>, ghost offs: seq<nat>, ghost es: seq<Entry>) returns (r: Opened)
    ensures Written(file, n, dir, offs, es) && AllReadable(es, |file|) && NoLocator(file) ==> r == Opened(dir, offs)
    ensures r.Opened? ==> DirOk(r.dir, r.offsets)
    ensures r.Opened? ==> Passed(r.dir, r.offsets, |file|, 0) || Passed(r.dir, r.offsets, |file|, 1)
  {
    hide DirFor, AllReadable, Sound;
    ghost var good := Written(file, n, dir, offs, es) && AllReadable(es, |file|) && NoLocator(file);
    if |file| < ECDH_SIZE {
      return Refused(NotAnArchive);
    }
    var found := LocateHeaderSig(file);
    if good {
      EndInPlace(file, n + |dir|, |es|, |dir|, if es == [] then 0 else n);
      assert !NoSigAt(file, n + |dir|);
    }
    if found.None? {
      return Refused(NoCentralDir);
    }
    var eocd := found.value;
    assert good ==> eocd == n + |dir|;
    if eocd >= 20 + 56 && LE32(file, eocd - 20) == ECDL64_SIG {
      return Refused(NeedsZip64);
    }
    var total, onThisDisk := LE16(file, eocd + 10), LE16(file, eocd + 8);
    var numThisDisk, dirDisk := LE16(file, eocd + 4), LE16(file, eocd + 6);
    var dirSize, dirOfs := LE32(file, eocd + 12), LE32(file, eocd + 16);
    if total != onThisDisk || ((numThisDisk != 0 || dirDisk != 0) && (numThisDisk != 1 || dirDisk != 1)) {
      return Refused(MultiDisk);
    }
    if good {
      SizeOfEntries(dir, offs, es, |es|);
    }
    if dirSize < total * HEADER_SIZE || dirSize > |file| || dirOfs > |file| - dirSize || eocd < dirOfs + dirSize {
      return Refused(Corrupted);
    }
    // An archive may be appended to other data; its offsets count from its own start.
    var archiveOfs := eocd - (dirOfs + dirSize);
    if total == 0 {
      assert good ==> dir == [] && offs == [] by {
        if good {
          NoEntries(dir, offs, es);
        }
      }
      return Opened([], []);
    }
    var at := archiveOfs + dirOfs;
    r := ReadEntries(file[at..at + dirSize], total, |file| - archiveOfs, numThisDisk, good, offs, es);
    if r.Opened? {
      PassedInLarger(r.dir, r.offsets, |file| - archiveOfs, |file|, numThisDisk);
    }
  }

  lemma PassedInLarger(dir: seq<byte>, offsets: seq<nat>, archiveSize: nat, more: nat, numThisDisk: nat)
    requires Passed(dir, offsets, archiveSize, numThisDisk) && archiveSize <= more
    ensures Passed(dir, offsets, more, numThisDisk)
  {
    hide LE32, LE16;
  }

  /** The four bytes where a zip64 locator would begin are not its signature. */
  predicate NoLocator(file: seq<byte>) {
    |file| >= ECDH_SIZE + 76 ==> LE32(file, |file| - ECDH_SIZE - 20) != ECDL64_SIG
  }

  lemma EndInPlace(file: seq<byte>, at: nat, total: nat, dirSize: nat, dirOfs: nat)
    requires at + ECDH_SIZE == |file| && EndFor(file[at..], total, dirSize, dirOfs)
    ensures LE32(file, at) == ECDH_SIG && LE16(file, at + 4) == 0 && LE16(file, at + 6) == 0 && LE16(file, at + 8) == total
    ensures LE16(file, at + 10) == total && LE32(file, at + 12) == dirSize && LE32(file, at + 16) == dirOfs
  {
    var h := file[at..];
    assert forall k :: 0 <= k < ECDH_SIZE ==> h[k] == file[at + k];
  }

  lemma {:induction false} SizeOfEntries(dir: seq<byte>, offs: seq<nat>, es: seq<Entry>, k: nat)
    requires DirFor(dir, offs, es) && k <= |es|
    ensures StartOf(es, k) >= HEADER_SIZE * k && |dir| == StartOf(es, |es|)
    decreases k
  {
    if k > 0 {
      SizeOfEntries(dir, offs, es, k - 1);
    }
  }

  lemma NoEntries(dir: seq<byte>, offs: seq<nat>, es: seq<Entry>)
    requires DirFor(dir, offs, es) && es == []
    ensures dir == [] && offs == []
  {
  }

  /** The names read back are the names written, in order. */
  lemma NamesReadBack(dir: seq<byte>, offs: seq<nat>, es: seq<Entry>)
    requires DirFor(dir, offs, es)
    ensures DirOk(dir, offs) && |Names(dir, offs)| == |es| && forall i :: 0 <= i < |es| ==> Names(dir, offs)[i] == es[i].name
  {
    forall i | 0 <= i < |es|
      ensures EntryOk(dir, offs[i]) && NameAt(dir, offs[i]) == es[i].name
    {
      assert EntryAt(dir, offs, es, i);
      NameInPlace(dir, offs[i], es[i]);
    }
  }

  lemma NameInPlace(dir: seq<byte>, at: nat, e: Entry)
    requires Lies(dir, at, e)
    ensures EntryOk(dir, at) && NameAt(dir, at) == e.name
  {
    FieldsInPlace(dir, at, e);
    var rest := dir[at + HEADER_SIZE..at + EntrySize(e)];
    assert rest[..|e.name|] == e.name;
    assert rest[..|e.name|] == dir[at + HEADER_SIZE..at + HEADER_SIZE + |e.name|];
  }
}
