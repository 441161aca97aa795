/** Names in a ZIP central directory and their order: byte by byte with upper-case letters folded, a
    shorter name before a longer one it begins. */
module ZipNames {
  import opened Bits

  type Name = seq<byte>

  /** MZ_TOLOWER. */
  function Lower(c: byte): byte {
    if 65 <= c <= 90 then c + 32 else c
  }

  function Fold(n: Name): (f: Name)
    ensures |f| == |n| && forall i :: 0 <= i < |n| ==> f[i] == Lower(n[i])
  {
    seq(|n|, i requires 0 <= i < |n| => Lower(n[i]))
  }

  /** The letters A to Z become a to z, and every other byte stays. */
  lemma LowerIs(c: byte)
    ensures Lower(c) == if 'A' as int <= c <= 'Z' as int then c - 'A' as int + 'a' as int else c
    ensures Lower('A' as int) == 'a' as int && Lower('Z' as int) == 'z' as int && Lower('z' as int) == 'z' as int
    ensures Lower('@' as int) == '@' as int && Lower('[' as int) == '[' as int && Lower('9' as int) == '9' as int
  {
  }

  /** Negative, zero or positive as `a` is before, the same as, or after `b` from place `k` on. */
  function CompareFrom(a: Name, b: Name, k: nat): int
    requires k <= |a| && k <= |b|
    decreases |a| - k
  {
    if k == |a| || k == |b| then |a| - |b|
    else if Lower(a[k]) != Lower(b[k]) then Lower(a[k]) - Lower(b[k])
    else CompareFrom(a, b, k + 1)
  }

  function Compare(a: Name, b: Name): int {
    CompareFrom(a, b, 0)
  }

  predicate Less(a: Name, b: Name) {
    Compare(a, b) < 0
  }

  // ----- the order

  lemma {:induction false} CompareSwap(a: Name, b: Name, k: nat)
    requires k <= |a| && k <= |b|
    ensures CompareFrom(a, b, k) == -CompareFrom(b, a, k)
    decreases |a| - k
  {
    if k < |a| && k < |b| && Lower(a[k]) == Lower(b[k]) {
      CompareSwap(a, b, k + 1);
    }
  }

  lemma {:induction false} CompareZero(a: Name, b: Name, k: nat)
    requires k <= |a| && k <= |b|
    ensures CompareFrom(a, b, k) == 0 <==> Fold(a)[k..] == Fold(b)[k..]
    decreases |a| - k
  {
    var x, y := Fold(a), Fold(b);
    if k < |a| && k < |b| {
      assert x[k..] == [x[k]] + x[k + 1..] && y[k..] == [y[k]] + y[k + 1..];
      if Lower(a[k]) == Lower(b[k]) {
        CompareZero(a, b, k + 1);
      } else {
        assert x[k..][0] != y[k..][0];
      }
    } else {
      assert |x[k..]| == |a| - k && |y[k..]| == |b| - k;
    }
  }

  /** Equal in the order means equal after folding. */
  lemma SameName(a: Name, b: Name)
    ensures Compare(a, b) == 0 <==> Fold(a) == Fold(b)
  {
    CompareZero(a, b, 0);
    assert Fold(a)[0..] == Fold(a) && Fold(b)[0..] == Fold(b);
  }

  lemma {:induction false} CompareChain(a: Name, b: Name, c: Name, k: nat)
    requires k <= |a| && k <= |b| && k <= |c|
    requires CompareFrom(a, b, k) <= 0 && CompareFrom(b, c, k) <= 0
    ensures CompareFrom(a, c, k) <= 0
    ensures CompareFrom(a, c, k) == 0 ==> CompareFrom(a, b, k) == 0 && CompareFrom(b, c, k) == 0
    decreases |a| - k
  {
    if k < |a| && k < |b| && k < |c| && Lower(a[k]) == Lower(b[k]) == Lower(c[k]) {
      CompareChain(a, b, c, k + 1);
    }
  }

  /** `a` is not after `b`. */
  predicate Le(a: Name, b: Name) {
    Compare(a, b) <= 0
  }

  /** The names are totally ordered up to folding. */
  lemma LeIsTotalOrder(a: Name, b: Name, c: Name)
    ensures Le(a, b) || Le(b, a)
    ensures Le(a, b) && Le(b, c) ==> Le(a, c)
    ensures Le(a, b) && Le(b, a) <==> Fold(a) == Fold(b)
    ensures Less(a, b) <==> !Le(b, a)
  {
    CompareSwap(a, b, 0);
    SameName(a, b);
    if Le(a, b) && Le(b, c) {
      CompareChain(a, b, c, 0);
    }
  }

  predicate LessAt(a: Name, b: Name, k: nat, m: nat)
    requires k <= |a| && k <= |b|
  {
    k <= m <= |a| && m < |b| && (forall i :: k <= i < m ==> Lower(a[i]) == Lower(b[i])) && (m < |a| ==> Lower(a[m]) < Lower(b[m]))
  }

  lemma {:induction false} CompareFinds(a: Name, b: Name, k: nat)
    requires k <= |a| && k <= |b|
    ensures CompareFrom(a, b, k) < 0 <==> exists m: nat :: LessAt(a, b, k, m)
    decreases |a| - k
  {
    if k < |a| && k < |b| && Lower(a[k]) == Lower(b[k]) {
      var next := k + 1;
      CompareFinds(a, b, next);
      if m: nat :| LessAt(a, b, k, m) {
        assert LessAt(a, b, next, m);
      }
      if m: nat :| LessAt(a, b, next, m) {
        assert LessAt(a, b, k, m);
      }
    } else if CompareFrom(a, b, k) < 0 {
      assert LessAt(a, b, k, k);
    }
  }

  /** A name is less when, case aside, it ends where the other goes on, or has the lesser byte at the first
      place where they differ. */
  lemma LessMeans(a: Name, b: Name)
    ensures Less(a, b)
      <==> exists m :: 0 <= m <= |a| && m < |b| && Fold(a)[..m] == Fold(b)[..m] && (m < |a| ==> Lower(a[m]) < Lower(b[m]))
  {
    CompareFinds(a, b, 0);
    if Less(a, b) {
      var m: nat :| LessAt(a, b, 0, m);
      assert Fold(a)[..m] == Fold(b)[..m];
    }
    if m :| 0 <= m <= |a| && m < |b| && Fold(a)[..m] == Fold(b)[..m] && (m < |a| ==> Lower(a[m]) < Lower(b[m])) {
      assert forall i :: 0 <= i < m ==> Fold(a)[..m][i] == Fold(b)[..m][i];
      assert LessAt(a, b, 0, m);
    }
  }

  // ----- entries of the central directory

  const HEADER_SIZE: nat := 46
  const NAME_LEN_OFS: nat := 28

  function LE16(s: seq<byte>, at: nat): nat
    requires at + 2 <= |s|
  {
    s[at] + 256 * (s[at + 1] as int)
  }

  predicate EntryOk(dir: seq<byte>, ofs: nat) {
    ofs + HEADER_SIZE <= |dir| && ofs + HEADER_SIZE + LE16(dir, ofs + NAME_LEN_OFS) <= |dir|
  }

  function NameAt(dir: seq<byte>, ofs: nat): Name
    requires EntryOk(dir, ofs)
  {
    dir[ofs + HEADER_SIZE..ofs + HEADER_SIZE + LE16(dir, ofs + NAME_LEN_OFS)]
  }

  predicate DirOk(dir: seq<byte>, offsets: seq<nat>) {
    forall i :: 0 <= i < |offsets| ==> EntryOk(dir, offsets[i])
  }

  /** The names of all entries. */
  function Names(dir: seq<byte>, offsets: seq<nat>): (n: seq<Name>)
    requires DirOk(dir, offsets)
    ensures |n| == |offsets|
  {
    seq(|offsets|, i requires 0 <= i < |offsets| => NameAt(dir, offsets[i]))
  }

  /** mz_zip_reader_filename_less: compares two entries in place. */
  method FilenameLess(dir: seq<byte>, offsets: seq<nat>, l: nat, r: nat) returns (less: bool)
    requires DirOk(dir, offsets) && l < |offsets| && r < |offsets|
    ensures less == Less(Names(dir, offsets)[l], Names(dir, offsets)[r])
  {
    ghost var a, b := NameAt(dir, offsets[l]), NameAt(dir, offsets[r]);
    var lLen, rLen := LE16(dir, offsets[l] + NAME_LEN_OFS), LE16(dir, offsets[r] + NAME_LEN_OFS);
    var pl, pr := offsets[l] + HEADER_SIZE, offsets[r] + HEADER_SIZE;
    var n := if lLen < rLen then lLen else rLen;
    var i := 0;
    while i < n && Lower(dir[pl + i]) == Lower(dir[pr + i])
      invariant i <= n && Compare(a, b) == CompareFrom(a, b, i)
    {
      assert a[i] == dir[pl + i] && b[i] == dir[pr + i];
      i := i + 1;
    }
    assert i < n ==> a[i] == dir[pl + i] && b[i] == dir[pr + i];
    less := if i == n then lLen < rLen else Lower(dir[pl + i]) < Lower(dir[pr + i]);
  }

  /** mz_zip_filename_compare: compares an entry with a name. */
  method FilenameCompare(dir: seq<byte>, offsets: seq<nat>, l: nat, name: Name) returns (c: int)
    requires DirOk(dir, offsets) && l < |offsets|
    ensures c == Compare(Names(dir, offsets)[l], name)
  {
    ghost var a := NameAt(dir, offsets[l]);
    var lLen := LE16(dir, offsets[l] + NAME_LEN_OFS);
    var pl := offsets[l] + HEADER_SIZE;
    var n := if lLen < |name| then lLen else |name|;
    var i := 0;
    while i < n && Lower(dir[pl + i]) == Lower(name[i])
      invariant i <= n && Compare(a, name) == CompareFrom(a, name, i)
    {
      assert a[i] == dir[pl + i];
      i := i + 1;
    }
    assert i < n ==> a[i] == dir[pl + i];
    c := if i == n then lLen - |name| else Lower(dir[pl + i]) - Lower(name[i]);
  }
}
