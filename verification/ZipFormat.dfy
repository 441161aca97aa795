/** Little-endian fields of ZIP headers, and the fields of a central directory header. */
module ZipFormat {
  import opened Bits
  import opened ZipNames

  const CDH_SIG: nat := 0x02014b50
  const ECDH_SIG: nat := 0x06054b50
  const ECDL64_SIG: nat := 0x07064b50
  const ECDH_SIZE: nat := 22
  const LOCAL_HEADER_SIZE: nat := 30
  const MAX32: nat := 0xFFFFFFFF

  function LE32(s: seq<byte>, at: nat): nat
    requires at + 4 <= |s|
  {
    LE16(s, at) + 65536 * LE16(s, at + 2)
  }

  function Low8(v: nat): byte {
    v % 256
  }

  /** MZ_WRITE_LE16. */
  method Put16(a: array<byte>, at: nat, v: nat)
    requires at + 2 <= a.Length && v < 0x1_0000
    modifies a
    ensures LE16(a[..], at) == v
    ensures forall i :: 0 <= i < a.Length && (i < at || i >= at + 2) ==> a[i] == old(a[i])
  {
    a[at] := Low8(v);
    a[at + 1] := Low8(v / 256);
  }

  /** MZ_WRITE_LE32. */
  method Put32(a: array<byte>, at: nat, v: nat)
    requires at + 4 <= a.Length && v <= MAX32
    modifies a
    ensures LE32(a[..], at) == v
    ensures forall i :: 0 <= i < a.Length && (i < at || i >= at + 4) ==> a[i] == old(a[i])
  {
    Put16(a, at, v % 0x1_0000);
    ghost var lo := LE16(a[..], at);
    Put16(a, at + 2, v / 0x1_0000);
    assert LE16(a[..], at) == lo;
  }

  /** A number in two or four bytes, the lowest first. */
  function Two(v: nat): seq<byte>
    requires v < 0x1_0000
  {
    [v % 256, v / 256]
  }

  function Four(v: nat): seq<byte>
    requires v <= MAX32
  {
    [v % 256, v / 256 % 256, v / 65536 % 256, v / 16777216]
  }

  /** A field read as `v` has just these bytes. */
  lemma FieldBytes16(s: seq<byte>, at: nat, v: nat)
    requires at + 2 <= |s| && LE16(s, at) == v
    ensures v < 0x1_0000 && s[at..at + 2] == Two(v)
  {
  }

  lemma FieldBytes32(s: seq<byte>, at: nat, v: nat)
    requires at + 4 <= |s| && LE32(s, at) == v
    ensures v <= MAX32 && s[at..at + 4] == Four(v)
  {
    var lo, hi := LE16(s, at), LE16(s, at + 2);
    assert v / 65536 == hi && v / 256 == 256 * hi + lo / 256 && v % 256 == lo % 256;
    assert v / 16777216 == hi / 256;
  }

  // ----- entries

  datatype Entry = Entry(name: Name, extra: seq<byte>, comment: seq<byte>, size: nat, compSize: nat, crc: nat, kind: nat,
                         flags: nat, time: nat, date: nat, headerOfs: nat, attributes: nat)

  /** Fields that fit their widths, without zip64. */
  predicate EntryFits(e: Entry) {
    && |e.name| < 0x1_0000 && |e.extra| < 0x1_0000 && |e.comment| < 0x1_0000
    && e.size < MAX32 && e.compSize < MAX32 && e.crc <= MAX32 && e.headerOfs < MAX32 && e.attributes <= MAX32
    && e.kind < 0x1_0000 && e.flags < 0x1_0000 && e.time < 0x1_0000 && e.date < 0x1_0000
  }

  /** The fields the reader looks at. */
  predicate HeaderFor(h: seq<byte>, e: Entry) {
    |h| == HEADER_SIZE && FirstFields(h, e) && SizeFields(h, e) && LengthFields(h, e) && LastFields(h, e)
  }

  predicate FirstFields(h: seq<byte>, e: Entry)
    requires |h| == HEADER_SIZE
  {
    LE32(h, 0) == CDH_SIG && LE16(h, 8) == e.flags && LE16(h, 10) == e.kind && LE16(h, 12) == e.time && LE16(h, 14) == e.date
  }

  predicate SizeFields(h: seq<byte>, e: Entry)
    requires |h| == HEADER_SIZE
  {
    LE32(h, 16) == e.crc && LE32(h, 20) == e.compSize && LE32(h, 24) == e.size
  }

  predicate LengthFields(h: seq<byte>, e: Entry)
    requires |h| == HEADER_SIZE
  {
    LE16(h, NAME_LEN_OFS) == |e.name| && LE16(h, 30) == |e.extra| && LE16(h, 32) == |e.comment|
  }

  predicate LastFields(h: seq<byte>, e: Entry)
    requires |h| == HEADER_SIZE
  {
    LE16(h, 34) == 0 && LE32(h, 38) == e.attributes && LE32(h, 42) == e.headerOfs
  }

  method PutFirst(a: array<byte>, e: Entry)
    requires EntryFits(e) && a.Length == HEADER_SIZE && a[4] == a[5] == 0
    modifies a
    ensures FirstFields(a[..], e) && a[16..] == old(a[16..])
    ensures a[4] == a[5] == 0 && a[6] == (if e.kind != 0 then 20 else 0) && a[7] == 0
  {
    Put32(a, 0, CDH_SIG);
    Put16(a, 6, if e.kind != 0 then 20 else 0);
    FieldBytes16(a[..], 6, if e.kind != 0 then 20 else 0);
    Put16(a, 8, e.flags);
    Put16(a, 10, e.kind);
    Put16(a, 12, e.time);
    Put16(a, 14, e.date);
  }

  method PutSizes(a: array<byte>, e: Entry)
    requires EntryFits(e) && a.Length == HEADER_SIZE
    modifies a
    ensures SizeFields(a[..], e) && a[..16] == old(a[..16]) && a[28..] == old(a[28..])
  {
    Put32(a, 16, e.crc);
    Put32(a, 20, e.compSize);
    Put32(a, 24, e.size);
  }

  method PutLengths(a: array<byte>, e: Entry)
    requires EntryFits(e) && a.Length == HEADER_SIZE
    modifies a
    ensures LengthFields(a[..], e) && a[..28] == old(a[..28]) && a[34..] == old(a[34..])
  {
    Put16(a, NAME_LEN_OFS, |e.name|);
    Put16(a, 30, |e.extra|);
    Put16(a, 32, |e.comment|);
  }

  method PutLast(a: array<byte>, e: Entry)
    requires EntryFits(e) && a.Length == HEADER_SIZE && LE16(a[..], 34) == 0
    modifies a
    ensures LastFields(a[..], e) && a[..34] == old(a[..34]) && a[34..38] == old(a[34..38])
  {
    Put32(a, 38, e.attributes);
    Put32(a, 42, e.headerOfs);
  }

  lemma FieldsStay(h: seq<byte>, g: seq<byte>, e: Entry)
    requires |h| == |g| == HEADER_SIZE
    ensures h[..16] == g[..16] && FirstFields(h, e) ==> FirstFields(g, e)
    ensures h[..28] == g[..28] && SizeFields(h, e) ==> SizeFields(g, e)
    ensures h[..34] == g[..34] && LengthFields(h, e) ==> LengthFields(g, e)
    ensures h[34..] == g[34..] && LE16(h, 34) == 0 ==> LE16(g, 34) == 0
  {
    assert h[..16] == g[..16] ==> forall i :: 0 <= i < 16 ==> h[i] == h[..16][i] == g[i];
    assert h[..28] == g[..28] ==> forall i :: 0 <= i < 28 ==> h[i] == h[..28][i] == g[i];
    assert h[..34] == g[..34] ==> forall i :: 0 <= i < 34 ==> h[i] == h[..34][i] == g[i];
    assert h[34..] == g[34..] ==> h[34] == h[34..][0] == g[34] && h[35] == h[34..][1] == g[35];
  }

  lemma Narrow(h: seq<byte>, g: seq<byte>, n: nat, m: nat)
    requires |h| == |g| && m <= n <= |h|
    ensures h[..n] == g[..n] ==> h[..m] == g[..m]
    ensures h[m..] == g[m..] ==> h[n..] == g[n..]
  {
    assert h[..n][..m] == h[..m] && g[..n][..m] == g[..m];
    assert h[m..][n - m..] == h[n..] && g[m..][n - m..] == g[n..];
  }

  lemma StartStays(h1: seq<byte>, h2: seq<byte>, h3: seq<byte>, h: seq<byte>)
    requires |h1| == |h2| == |h3| == |h| == HEADER_SIZE && h2[..16] == h1[..16] && h3[..28] == h2[..28] && h[..34] == h3[..34]
    ensures h[4..8] == h1[4..8]
  {
    assert h[4..8] == h[..34][4..8] && h3[4..8] == h3[..34][4..8] == h3[..28][4..8] && h2[4..8] == h2[..28][4..8] == h2[..16][4..8];
    assert h1[4..8] == h1[..16][4..8];
  }

  lemma EndStays(h0: seq<byte>, h1: seq<byte>, h2: seq<byte>, h3: seq<byte>, h: seq<byte>)
    requires |h0| == |h1| == |h2| == |h3| == |h| == HEADER_SIZE
    requires h1[16..] == h0[16..] && h2[28..] == h1[28..] && h3[34..] == h2[34..] && h[34..38] == h3[34..38]
    ensures h[34..38] == h0[34..38]
  {
    assert h0[34..38] == h0[16..][18..22] && h1[34..38] == h1[16..][18..22] == h1[28..][6..10] && h2[34..38] == h2[28..][6..10] == h2[34..][..4];
    assert h3[34..38] == h3[34..][..4];
  }

  /** The bytes of a header, but for those that depend on no field the reader looks at. */
  lemma HeaderBytes(h: seq<byte>, e: Entry)
    requires HeaderFor(h, e) && EntryFits(e)
    ensures h[..4] == [0x50, 0x4b, 1, 2]
    ensures h[8..24] == Two(e.flags) + Two(e.kind) + Two(e.time) + Two(e.date) + Four(e.crc) + Four(e.compSize)
    ensures h[24..34] == Four(e.size) + Two(|e.name|) + Two(|e.extra|) + Two(|e.comment|)
    ensures h[38..] == Four(e.attributes) + Four(e.headerOfs)
  {
    hide LE16, LE32, Two, Four, EntryFits;
    assert Four(CDH_SIG) == [0x50, 0x4b, 1, 2] by { SignatureBytes(); }
    FieldBytes32(h, 0, CDH_SIG);
    FieldBytes16(h, 8, e.flags);
    FieldBytes16(h, 10, e.kind);
    FieldBytes16(h, 12, e.time);
    FieldBytes16(h, 14, e.date);
    FieldBytes32(h, 16, e.crc);
    FieldBytes32(h, 20, e.compSize);
    FieldBytes32(h, 24, e.size);
    FieldBytes16(h, 28, |e.name|);
    FieldBytes16(h, 30, |e.extra|);
    FieldBytes16(h, 32, |e.comment|);
    FieldBytes32(h, 38, e.attributes);
    FieldBytes32(h, 42, e.headerOfs);
    Slices(h);
  }

  lemma SignatureBytes()
    ensures Four(CDH_SIG) == [0x50, 0x4b, 1, 2]
  {
  }

  lemma Slices(h: seq<byte>)
    requires |h| == HEADER_SIZE
    ensures h[..4] == h[0..4] && h[38..] == h[38..42] + h[42..46]
    ensures h[8..24] == h[8..10] + h[10..12] + h[12..14] + h[14..16] + h[16..20] + h[20..24]
    ensures h[24..34] == h[24..28] + h[28..30] + h[30..32] + h[32..34]
  {
  }

  /** The bytes no field of an entry fills. */
  predicate FixedBytes(h: seq<byte>, e: Entry)
    requires |h| == HEADER_SIZE
  {
    h[4..8] == [0, 0, if e.kind != 0 then 20 else 0, 0] && h[34..38] == [0, 0, 0, 0]
  }

  method FillHeader(e: Entry) returns (h: seq<byte>)
    requires EntryFits(e)
    ensures HeaderFor(h, e) && FixedBytes(h, e)
  {
    hide EntryFits, FirstFields, SizeFields, LengthFields, LastFields;
    var a := new byte[HEADER_SIZE](i => 0);
    ghost var h0: seq<byte> := a[..];
    assert LE16(h0, 34) == 0 && h0[34..38] == [0, 0, 0, 0];
    PutFirst(a, e);
    ghost var h1: seq<byte> := a[..];
    assert h1[4..8] == [0, 0, if e.kind != 0 then 20 else 0, 0];
    Narrow(h0, h1, 34, 16);
    FieldsStay(h0, h1, e);
    PutSizes(a, e);
    ghost var h2: seq<byte> := a[..];
    Narrow(h1, h2, 34, 28);
    FieldsStay(h1, h2, e);
    PutLengths(a, e);
    ghost var h3: seq<byte> := a[..];
    Narrow(h2, h3, 28, 16);
    FieldsStay(h2, h3, e);
    PutLast(a, e);
    h := a[..];
    Narrow(h3, h, 34, 28);
    Narrow(h3, h, 34, 16);
    FieldsStay(h3, h, e);
    StartStays(h1, h2, h3, h);
    EndStays(h0, h1, h2, h3, h);
  }

  /** mz_zip_writer_create_central_dir_header. */
  method CreateHeader(e: Entry) returns (h: seq<byte>)
    requires EntryFits(e)
    ensures HeaderFor(h, e)
    ensures h[..8] == [0x50, 0x4b, 1, 2, 0, 0, if e.kind != 0 then 20 else 0, 0]
    ensures h[8..24] == Two(e.flags) + Two(e.kind) + Two(e.time) + Two(e.date) + Four(e.crc) + Four(e.compSize)
    ensures h[24..34] == Four(e.size) + Two(|e.name|) + Two(|e.extra|) + Two(|e.comment|)
    ensures h[34..] == [0, 0, 0, 0] + Four(e.attributes) + Four(e.headerOfs)
  {
    hide EntryFits, FirstFields, SizeFields, LengthFields, LastFields, Two, Four;
    h := FillHeader(e);
    HeaderBytes(h, e);
    assert h[..8] == h[..4] + h[4..8] && h[34..] == h[34..38] + h[38..];
  }
}
