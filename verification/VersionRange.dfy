/** Version ranges, and choosing the greatest indexed version that satisfies one. */
module VersionRange {
  import opened SemVer
  import opened Canonical

  datatype Op = Eq | Lower | LowerEq | Greater | GreaterEq | Caret | Tilde

  datatype Clause = Clause(op: Op, bound: Version)

  predicate SameCore(a: Version, b: Version) {
    a.major == b.major && a.minor == b.minor && a.patch == b.patch
  }

  /** One clause alone, branch by branch as the engine tests it. */
  predicate Admits(c: Clause, v: Version) {
    match c.op
    case Eq => Same(v, c.bound)
    case Lower => Lt(v, c.bound)
    case LowerEq => Le(v, c.bound)
    case Greater => Lt(c.bound, v)
    case GreaterEq => Le(c.bound, v)
    case Caret =>
      && !Lt(v, c.bound)
      && (if c.bound.major > 0 then v.major == c.bound.major
          else if c.bound.minor > 0 then v.major == 0 && v.minor == c.bound.minor
          else v.major == 0 && v.minor == 0 && v.patch == c.bound.patch)
    case Tilde => !Lt(v, c.bound) && v.major == c.bound.major && v.minor == c.bound.minor
  }

  /** VersionRange::satisfied_by. */
  predicate SatisfiedBy(clauses: seq<Clause>, v: Version) {
    clauses == [] ||
    ((v.pre == [] || exists i :: 0 <= i < |clauses| && clauses[i].bound.pre != [] && SameCore(clauses[i].bound, v))
     && forall i :: 0 <= i < |clauses| ==> Admits(clauses[i], v))
  }

  /** The first release a caret or tilde no longer allows. */
  function UpperBound(c: Clause): Version
    requires c.op == Caret || c.op == Tilde
  {
    var b := c.bound;
    if c.op == Tilde then Version(b.major, b.minor + 1, 0, "", "")
    else if b.major > 0 then Version(b.major + 1, 0, 0, "", "")
    else if b.minor > 0 then Version(0, b.minor + 1, 0, "", "")
    else Version(0, 0, b.patch + 1, "", "")
  }

  /** On releases, caret and tilde are exactly their half-open intervals. */
  lemma IntervalOfRelease(c: Clause, v: Version)
    requires (c.op == Caret || c.op == Tilde) && v.pre == []
    ensures SatisfiedBy([c], v) <==> Le(c.bound, v) && Lt(v, UpperBound(c))
  {
    PrecedenceIsTotalOrder(v, c.bound, v);
    PrecedenceIsTotalOrder(c.bound, v, v);
    assert SatisfiedBy([c], v) <==> Admits(c, v) by {
      assert [c][0] == c;
    }
  }

  // ----- what the operators and the pre-release rule mean

  /** Exactly one of lower, equal and greater admits a version, and the other two comparisons are the negations. */
  lemma Trichotomy(b: Version, v: Version)
    ensures Admits(Clause(Eq, b), v) <==> v.major == b.major && v.minor == b.minor && v.patch == b.patch && v.pre == b.pre
    ensures Admits(Clause(Lower, b), v) ==> !Admits(Clause(Eq, b), v) && !Admits(Clause(Greater, b), v)
    ensures Admits(Clause(Greater, b), v) ==> !Admits(Clause(Eq, b), v) && !Admits(Clause(Lower, b), v)
    ensures Admits(Clause(Lower, b), v) || Admits(Clause(Eq, b), v) || Admits(Clause(Greater, b), v)
    ensures Admits(Clause(LowerEq, b), v) <==> !Admits(Clause(Greater, b), v)
    ensures Admits(Clause(GreaterEq, b), v) <==> !Admits(Clause(Lower, b), v)
  {
    hide Le, Lt;
    PrecedenceIsTotalOrder(v, b, v);
    PrecedenceIsTotalOrder(b, v, b);
  }

  /** Lower admits the versions of a lesser triple, and of its own triple the lesser pre-releases. */
  lemma LowerMeans(b: Version, v: Version)
    ensures Admits(Clause(Lower, b), v)
      <==> || v.major < b.major
           || (v.major == b.major && v.minor < b.minor)
           || (v.major == b.major && v.minor == b.minor && v.patch < b.patch)
           || (v.major == b.major && v.minor == b.minor && v.patch == b.patch && ComparePre(v.pre, b.pre) < 0)
    ensures b.pre == "" ==> (ComparePre(v.pre, b.pre) < 0 <==> v.pre != "")
    ensures v.pre == "" ==> !(ComparePre(v.pre, b.pre) < 0)
  {
  }

  /** A release satisfies a range when every clause admits it; a version with a pre-release only if in addition
      a clause names a pre-release of the same triple. */
  lemma PreReleaseRule(clauses: seq<Clause>, v: Version)
    ensures SatisfiedBy([], v)
    ensures clauses != [] && v.pre == "" ==> (SatisfiedBy(clauses, v) <==> forall i :: 0 <= i < |clauses| ==> Admits(clauses[i], v))
    ensures clauses != [] && v.pre != "" ==>
      (SatisfiedBy(clauses, v)
       <==> (forall i :: 0 <= i < |clauses| ==> Admits(clauses[i], v))
            && exists i :: 0 <= i < |clauses| && clauses[i].bound.pre != "" && clauses[i].bound.major == v.major
                           && clauses[i].bound.minor == v.minor && clauses[i].bound.patch == v.patch)
  {
    if i :| 0 <= i < |clauses| && clauses[i].bound.pre != "" && clauses[i].bound.major == v.major
                           && clauses[i].bound.minor == v.minor && clauses[i].bound.patch == v.patch {
      assert SameCore(clauses[i].bound, v);
    }
  }

  /** On releases a caret or tilde is the range from its bound to below the next version: of the major number,
      of the minor number when the major one is 0 and for a tilde, of the patch number when both are 0. */
  lemma TwoClauses(b: Version, v: Version)
    requires v.pre == ""
    ensures b.major > 0 ==>
      (SatisfiedBy([Clause(Caret, b)], v)
       <==> SatisfiedBy([Clause(GreaterEq, b), Clause(Lower, Version(b.major + 1, 0, 0, "", ""))], v))
    ensures b.major == 0 && b.minor > 0 ==>
      (SatisfiedBy([Clause(Caret, b)], v)
       <==> SatisfiedBy([Clause(GreaterEq, b), Clause(Lower, Version(0, b.minor + 1, 0, "", ""))], v))
    ensures b.major == 0 && b.minor == 0 ==>
      (SatisfiedBy([Clause(Caret, b)], v)
       <==> SatisfiedBy([Clause(GreaterEq, b), Clause(Lower, Version(0, 0, b.patch + 1, "", ""))], v))
    ensures SatisfiedBy([Clause(Tilde, b)], v)
      <==> SatisfiedBy([Clause(GreaterEq, b), Clause(Lower, Version(b.major, b.minor + 1, 0, "", ""))], v)
  {
    var caret, tilde := Clause(Caret, b), Clause(Tilde, b);
    IntervalOfRelease(caret, v);
    IntervalOfRelease(tilde, v);
    Both(Clause(GreaterEq, b), Clause(Lower, UpperBound(caret)), v);
    Both(Clause(GreaterEq, b), Clause(Lower, UpperBound(tilde)), v);
  }

  lemma Both(c: Clause, d: Clause, v: Version)
    requires v.pre == ""
    ensures SatisfiedBy([c, d], v) <==> Admits(c, v) && Admits(d, v)
  {
    hide Admits;
    assert [c, d][0] == c && [c, d][1] == d;
  }

  // ----- the index

  datatype Record = Record(id: string, version: Version, location: string)

  /** No id is indexed twice at the same version. */
  predicate Distinct(rs: seq<Record>) {
    forall i, j :: 0 <= i < j < |rs| ==> !(rs[i].id == rs[j].id && Same(rs[i].version, rs[j].version))
  }

  predicate Descending(rs: seq<Record>) {
    forall i, j :: 0 <= i < j < |rs| ==> Lt(rs[j].version, rs[i].version)
  }

  /** No record here has the version. */
  predicate Lacks(rs: seq<Record>, v: Version) {
    forall i :: 0 <= i < |rs| ==> !Same(rs[i].version, v)
  }

  class ResourceIndex {
    var records: seq<Record>
    var conflicts: seq<Record>

    ghost predicate Valid()
      reads this
    {
      Distinct(records)
    }

    constructor ()
      ensures Valid() && records == [] && conflicts == []
    {
      records, conflicts := [], [];
    }

    /** The first record of an id and version stays; a later one is a conflict. */
    method Insert(record: Record) returns (clash: Option<Record>)
      requires Valid()
      modifies this
      ensures Valid()
      ensures clash.Some? <==> exists i :: 0 <= i < |old(records)| && old(records)[i].id == record.id && Same(old(records)[i].version, record.version)
      ensures clash.None? ==> records == old(records) + [record] && conflicts == old(conflicts)
      ensures clash.Some? ==> clash.value in records && clash.value.id == record.id && Same(clash.value.version, record.version)
      ensures clash.Some? ==> records == old(records) && conflicts == old(conflicts) + [record]
    {
      for i := 0 to |records|
        invariant forall k :: 0 <= k < i ==> !(records[k].id == record.id && Same(records[k].version, record.version))
        invariant records == old(records) && conflicts == old(conflicts)
      {
        if records[i].id == record.id && Same(records[i].version, record.version) {
          conflicts := conflicts + [record];
          return Some(records[i]);
        }
      }
      records := records + [record];
      clash := None;
    }

    /** All records of an id, each once, greatest version first. */
    method VersionsOf(id: string) returns (found: seq<Record>)
      requires Valid()
      ensures Descending(found) && forall r :: r in found <==> r in records && r.id == id
    {
      hide Le, Same, Lt;
      found := [];
      for i := 0 to |records|
        invariant Descending(found) && forall r :: r in found <==> r in records[..i] && r.id == id
      {
        assert records[..i + 1] == records[..i] + [records[i]];
        if records[i].id == id {
          NewVersion(found, id, i);
          found := InsertDescending(found, records[i]);
        }
      }
      assert records[..|records|] == records;
    }

    lemma NewVersion(found: seq<Record>, id: string, i: nat)
      requires Valid() && i < |records| && records[i].id == id
      requires forall r :: r in found <==> r in records[..i] && r.id == id
      ensures Lacks(found, records[i].version)
    {
      hide Same;
      forall k | 0 <= k < |found|
        ensures !Same(found[k].version, records[i].version)
      {
        assert found[k] in records[..i];
        var j :| 0 <= j < i && records[..i][j] == found[k];
      }
    }

    /** The greatest indexed version that satisfies the range. */
    method Select(id: string, range: seq<Clause>) returns (r: Option<Record>)
      requires Valid()
      ensures r.Some? ==> r.value in records && r.value.id == id && SatisfiedBy(range, r.value.version)
      ensures r.Some? ==> forall x :: x in records && x.id == id && SatisfiedBy(range, x.version) ==> Le(x.version, r.value.version)
      ensures r.None? ==> forall x :: x in records && x.id == id ==> !SatisfiedBy(range, x.version)
      ensures r.Some? ==> forall i :: 0 <= i < |range| ==> Admits(range[i], r.value.version)
      ensures r.Some? && r.value.version.pre != "" && range != [] ==>
        exists i :: 0 <= i < |range| && range[i].bound.pre != "" && range[i].bound.major == r.value.version.major
                       && range[i].bound.minor == r.value.version.minor && range[i].bound.patch == r.value.version.patch
    {
      hide Le, Same, SatisfiedBy, Lt, Admits;
      var found := VersionsOf(id);
      for i := 0 to |found|
        invariant forall k :: 0 <= k < i ==> !SatisfiedBy(range, found[k].version)
      {
        if SatisfiedBy(range, found[i].version) {
          FirstIsGreatest(found, range, i);
          PreReleaseRule(range, found[i].version);
          return Some(found[i]);
        }
      }
      r := None;
    }
  }

  lemma FirstIsGreatest(found: seq<Record>, range: seq<Clause>, i: nat)
    requires i < |found| && Descending(found) && forall k :: 0 <= k < i ==> !SatisfiedBy(range, found[k].version)
    ensures forall x :: x in found && SatisfiedBy(range, x.version) ==> Le(x.version, found[i].version)
  {
    hide SatisfiedBy, Le, Lt;
    forall x | x in found && SatisfiedBy(range, x.version)
      ensures Le(x.version, found[i].version)
    {
      PrecedenceIsTotalOrder(x.version, found[i].version, x.version);
    }
  }

  /** Puts a record in its place: what sorting by descending version comes to, one record at a time. */
  method InsertDescending(rs: seq<Record>, x: Record) returns (out: seq<Record>)
    requires Descending(rs) && Lacks(rs, x.version)
    ensures Descending(out) && forall r :: r in out <==> r in rs || r == x
  {
    hide Le, Lt, Same;
    var k := 0;
    while k < |rs| && Lt(x.version, rs[k].version)
      invariant k <= |rs| && forall i :: 0 <= i < k ==> Lt(x.version, rs[i].version)
    {
      k := k + 1;
    }
    out := rs[..k] + [x] + rs[k..];
    InsertKeeps(rs, x, k);
    assert rs == rs[..k] + rs[k..];
  }

  lemma InsertKeeps(rs: seq<Record>, x: Record, k: nat)
    requires Descending(rs) && Lacks(rs, x.version) && k <= |rs| && (forall i :: 0 <= i < k ==> Lt(x.version, rs[i].version))
    requires k < |rs| ==> !Lt(x.version, rs[k].version)
    ensures Descending(rs[..k] + [x] + rs[k..])
  {
    hide Le, Lt, Same;
    var out := rs[..k] + [x] + rs[k..];
    forall i, j | 0 <= i < j < |out|
      ensures Lt(out[j].version, out[i].version)
    {
      if i == k {
        BelowNew(rs, x, k, j - 1);
      }
    }
  }

  lemma BelowNew(rs: seq<Record>, x: Record, k: nat, j: nat)
    requires Descending(rs) && Lacks(rs, x.version) && k <= j < |rs| && !Lt(x.version, rs[k].version)
    ensures Lt(rs[j].version, x.version)
  {
    hide Le, Lt, Same;
    PrecedenceIsTotalOrder(rs[k].version, x.version, x.version);
    PrecedenceIsTotalOrder(x.version, rs[k].version, x.version);
    if k < j {
      PrecedenceIsTotalOrder(rs[j].version, rs[k].version, x.version);
    }
  }
}
