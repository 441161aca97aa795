/** From contributions to a workspace on disk: a plan, its transaction and the check afterwards. */
module Generation {
  import opened Bits
  import opened FileSystem
  import opened Plan
  import T = Transaction
  import V = WorkspaceVerify

  /** No entry is in the way: of another, of the working directory or of the record. */
  predicate ClaimsFit(claims: seq<Claim>, wd: Path) {
    && (forall m, n :: 0 <= m < |claims| && 0 <= n < |claims| ==> !(claims[m].entry.path < claims[n].entry.path))
    && (forall m :: 0 <= m < |claims| ==> Clear(claims[m].entry.path, wd))
    && (wd != [] ==> !(T.RecordPath <= wd))
  }

  predicate Clear(p: Path, wd: Path) {
    (wd != [] ==> !(p <= wd)) && !(p < T.RecordPath) && !(T.RecordPath < p)
  }

  /** The same, said of the steps. */
  ghost predicate PlacesFit(steps: seq<PlanStep>) {
    && (forall a, b :: HasWrite(steps, a) && HasWrite(steps, b) ==> !(a < b))
    && (forall a, d :: HasWrite(steps, a) && HasDir(steps, d) ==> !(a <= d))
    && (forall a :: HasWrite(steps, a) ==> !(a < T.RecordPath) && !(T.RecordPath < a))
    && (forall d :: HasDir(steps, d) ==> !(T.RecordPath <= d))
  }

  lemma PlaceOf(steps: seq<PlanStep>, i: nat)
    requires i < |steps|
    ensures if steps[i].isDir then HasDir(steps, steps[i].path) else HasWrite(steps, steps[i].path)
  {
  }

  lemma FitIfPlacesFit(steps: seq<PlanStep>)
    requires PlacesFit(steps)
    ensures T.Fit(StepsFor(steps) + [T.RecordStep])
  {
    hide HasDir, HasWrite;
    var t := StepsFor(steps) + [T.RecordStep];
    forall i, j | 0 <= i < |t| && 0 <= j < |t|
      ensures !T.Blocks(t[i], t[j])
    {
      if i < |steps| {
        PlaceOf(steps, i);
      }
      if j < |steps| {
        PlaceOf(steps, j);
      }
    }
  }

  lemma PlacesFitIfFit(steps: seq<PlanStep>)
    requires T.Fit(StepsFor(steps) + [T.RecordStep])
    ensures PlacesFit(steps)
  {
    var t, n := StepsFor(steps) + [T.RecordStep], |steps|;
    forall a, b | HasWrite(steps, a) && HasWrite(steps, b)
      ensures !(a < b)
    {
      var i: nat, j: nat :| i < n && j < n && !steps[i].isDir && steps[i].path == a && !steps[j].isDir && steps[j].path == b;
      assert !T.Blocks(t[i], t[j]);
    }
    forall a, d | HasWrite(steps, a) && HasDir(steps, d)
      ensures !(a <= d)
    {
      var i: nat, j: nat :| i < n && j < n && !steps[i].isDir && steps[i].path == a && steps[j].isDir && steps[j].path == d;
      assert !T.Blocks(t[i], t[j]);
    }
    forall a | HasWrite(steps, a)
      ensures !(a < T.RecordPath) && !(T.RecordPath < a)
    {
      var i: nat :| i < n && !steps[i].isDir && steps[i].path == a;
      assert !T.Blocks(t[i], t[n]) && !T.Blocks(t[n], t[i]);
    }
    forall d | HasDir(steps, d)
      ensures !(T.RecordPath <= d)
    {
      var i: nat :| i < n && steps[i].isDir && steps[i].path == d;
      assert !T.Blocks(t[n], t[i]);
    }
  }

  /** A stable arrangement has the same places. */
  lemma SamePlaces(steps: seq<PlanStep>, p: seq<nat>, sorted: seq<PlanStep>, q: Path)
    requires StablySorted(steps, p, sorted)
    ensures HasDir(sorted, q) <==> HasDir(steps, q)
    ensures HasWrite(sorted, q) <==> HasWrite(steps, q)
  {
    hide InOrder;
    SortKeepsWrites(steps, p, sorted, q);
    if i :| 0 <= i < |steps| && steps[i].path == q && steps[i].isDir {
      var j := HasPlace(p, |steps|, i);
      assert sorted[j] == steps[i];
    }
  }

  /** A directory of the plan is the working directory or lies above an entry. */
  lemma DirsAbove(steps: seq<PlanStep>, wd: Path, claims: seq<Claim>, d: Path)
    requires Tells(steps, wd, claims) && HasDir(steps, d)
    ensures d == wd || exists b :: ClaimedBy(claims, b) && d < b
  {
    var i :| 0 <= i < |steps| && steps[i].isDir && steps[i].path == d;
    if Needed(steps[i], WritesOf(claims)) {
      var j :| 0 <= j < |claims| && d < WritesOf(claims)[j].path;
      assert claims[j].entry.path == WritesOf(claims)[j].path;
      assert ClaimedBy(claims, claims[j].entry.path);
    }
  }

  lemma BelowTrans(a: Path, b: Path, c: Path)
    ensures a <= b && b < c ==> a < c
  {
  }

  lemma PlacesOfClaims(steps: seq<PlanStep>, wd: Path, claims: seq<Claim>)
    requires Tells(steps, wd, claims) && ClaimsFit(claims, wd) && forall d :: HasDir(steps, d) ==> d != []
    ensures PlacesFit(steps)
  {
    hide Tells, HasDir, HasWrite;
    forall a | HasWrite(steps, a)
      ensures ClaimedBy(claims, a)
    {
      ClaimedAreWritten(steps, wd, claims, a);
    }
    forall d | HasDir(steps, d)
      ensures !(T.RecordPath <= d) && forall a :: ClaimedBy(claims, a) ==> !(a <= d)
    {
      DirsAbove(steps, wd, claims, d);
      if d != wd {
        var b :| ClaimedBy(claims, b) && d < b;
        forall a | ClaimedBy(claims, a)
          ensures !(a <= d)
        {
          BelowTrans(a, d, b);
        }
        BelowTrans(T.RecordPath, d, b);
      }
    }
  }

  lemma ClaimsOfPlaces(steps: seq<PlanStep>, wd: Path, claims: seq<Claim>)
    requires Tells(steps, wd, claims) && PlacesFit(steps) && (wd != [] ==> HasDir(steps, wd))
    ensures ClaimsFit(claims, wd)
  {
    hide Tells, HasDir, HasWrite;
    forall m | 0 <= m < |claims|
      ensures HasWrite(steps, claims[m].entry.path)
    {
      assert ClaimedBy(claims, claims[m].entry.path);
      ClaimedAreWritten(steps, wd, claims, claims[m].entry.path);
    }
  }

  /** The steps of a plan can all be staged just when its entries are not in each other's way. */
  lemma PlanFits(cs: seq<Contribution>, wd: Path, steps: seq<PlanStep>, p: seq<nat>, sorted: seq<PlanStep>)
    requires Tells(steps, wd, Claims(cs)) && StablySorted(steps, p, sorted) && Sound(sorted, cs, wd) && (wd != [] ==> HasDir(steps, wd))
    ensures T.Fit(StepsFor(sorted) + [T.RecordStep]) <==> ClaimsFit(Claims(cs), wd)
  {
    hide Tells, StablySorted, ClaimsFit, HasDir, HasWrite, T.Fit, StepsFor, Claims;
    forall q
      ensures HasDir(sorted, q) <==> HasDir(steps, q)
      ensures HasWrite(sorted, q) <==> HasWrite(steps, q)
    {
      SamePlaces(steps, p, sorted, q);
    }
    DirsNamed(sorted, cs, wd);
    if T.Fit(StepsFor(sorted) + [T.RecordStep]) {
      PlacesFitIfFit(sorted);
      ClaimsOfPlaces(steps, wd, Claims(cs));
    }
    if ClaimsFit(Claims(cs), wd) {
      PlacesOfClaims(steps, wd, Claims(cs));
      FitIfPlacesFit(sorted);
    }
  }

  lemma DirsNamed(steps: seq<PlanStep>, cs: seq<Contribution>, wd: Path)
    requires Sound(steps, cs, wd)
    ensures forall d :: HasDir(steps, d) ==> d != []
  {
    hide DirsMade, DirsOnce, TakenOver;
  }

  /** A plan is not always one that can be applied: a file of one resource may stand where another needs a
      directory, and nothing in the plan says so. */
  lemma AcceptedButUnfit()
    ensures exists cs: seq<Contribution>, wd: Path :: InPhaseOrder(cs) && EntriesSafe(cs) && Acceptable(Claims(cs), wd) && !ClaimsFit(Claims(cs), wd)
  {
    var file := Entry(["share"], true, Seeded, []);
    var below := Entry(["share", "icon"], true, Seeded, []);
    var c := Contribution("kit", 2, [], [file, below]);
    var cs, wd: Path := [c], [];
    assert cs[..0] == [] && Claims(cs[..0]) == [];
    var claims := Claims(cs);
    assert claims == [Claim(c, file), Claim(c, below)];
    assert Problem(claims[..0], claims[0], wd).None?;
    assert Problem(claims[..1], claims[1], wd).None?;
    assert claims[0].entry.path < claims[1].entry.path;
    assert InPhaseOrder(cs) && EntriesSafe(cs) && Acceptable(claims, wd) && !ClaimsFit(claims, wd);
  }

  /** Contributions that can be planned, and their plan applied. */
  predicate Accepted(cs: seq<Contribution>, wd: Path) {
    InPhaseOrder(cs) && EntriesSafe(cs) && Acceptable(Claims(cs), wd) && ClaimsFit(Claims(cs), wd)
  }

  lemma OneClaim(c: Contribution)
    requires |c.entries| == 1
    ensures Claims([c]) == [Claim(c, c.entries[0])]
  {
    assert [c][..0] == [] && Claims([c][..0]) == [];
  }

  lemma TwoClaims(a: Contribution, b: Contribution)
    requires |a.entries| == |b.entries| == 1
    ensures Claims([a, b]) == [Claim(a, a.entries[0]), Claim(b, b.entries[0])]
  {
    OneClaim(a);
    assert [a, b][..1] == [a];
  }

  /** One entry may claim the record's own path. It is accepted and fits, and its file is lost. */
  lemma RecordEntryAccepted()
    ensures exists cs: seq<Contribution>, wd: Path :: Accepted(cs, wd) && !NoRecordEntry(Claims(cs))
  {
    hide Within, Claims;
    var e := Entry(T.RecordPath, true, Seeded, []);
    var c := Contribution("kit", 2, [], [e]);
    var cs, wd: Path := [c], [];
    OneClaim(c);
    var claims := Claims(cs);
    assert Problem(claims[..0], claims[0], wd).None?;
    assert claims[0].entry.path == T.RecordPath;
    assert Accepted(cs, wd) && !NoRecordEntry(claims);
  }

  /** Two writes to one path of different hash. */
  lemma NotSameHashes(t: seq<T.Step>, p: Path, hash: seq<byte> -> string)
    requires |t| == 2 && t[0].Write? && t[1].Write? && t[0].path == t[1].path == p && hash(t[0].content) != hash(t[1].content)
    ensures !V.SameHashes(t, hash)
  {
    T.FirstIs(t, 0);
    T.LastIs(t, 1);
    assert !V.SameHash(t, p, hash);
  }

  /** An entry may take over a path with something else. It is accepted and fits, and the record keeps the
      hash of what was there before. */
  lemma OverrideAccepted(hash: seq<byte> -> string, one: seq<byte>, other: seq<byte>)
    requires hash(one) != hash(other)
    ensures exists cs: seq<Contribution>, wd: Path ::
      Accepted(cs, wd) && NoRecordEntry(Claims(cs)) && !V.SameHashes(EntrySteps(Claims(cs)), hash)
  {
    hide Claims, V.SameHashes;
    var p: Path := ["share"];
    var first, second := Entry(p, true, Seeded, one), Entry(p, true, Seeded, other);
    var a, b := Contribution("template", 1, [], [first]), Contribution("kit", 2, [p], [second]);
    var cs, wd: Path := [a, b], [];
    TwoClaims(a, b);
    var claims := Claims(cs);
    NotSameHashes(EntrySteps(claims), p, hash);
    assert Problem(claims[..0], claims[0], wd).None?;
    assert Problem(claims[..1], claims[1], wd).None?;
    assert Clear(p, wd) by {
      assert p[0] != T.RecordPath[0];
    }
    assert Accepted(cs, wd) && NoRecordEntry(claims);
  }

  /** Plans and, if that works, applies. With no failing call a workspace comes out just when the entries
      are accepted and fit, and the target is free, in no workspace and below no file. Nothing is then
      missing, and it verifies clean just when no entry is at the record's path and none takes over a path
      with something of another hash. */
  method Generate(cs: seq<Contribution>, wd: Path, fs: Files, target: Path, hash: seq<byte> -> string)
    returns (r: Planned, outcome: T.Outcome, checked: V.Verified)
    requires InPhaseOrder(cs) && EntriesSafe(cs) && target != [] && T.TreeOk(fs.tree) && V.RealHash(hash)
    modifies fs
    ensures r.Planned? <==> Acceptable(Claims(cs), wd)
    ensures !r.Planned? ==> fs.tree == old(fs.tree) && !outcome.Done?
    ensures old(fs.Smooth()) && r.Planned? ==> (outcome.Done? <==> Free(old(fs.tree), target) && ClaimsFit(Claims(cs), wd))
    ensures outcome.Done? ==> checked.Verified? && checked.summary.missing == checked.summary.unhashed == 0
    ensures outcome.Done? ==>
      (V.Clean(checked.summary) <==> NoRecordEntry(Claims(cs)) && V.SameHashes(EntrySteps(Claims(cs)), hash))
    ensures outcome.Done? && (forall c :: c in cs ==> c.overrides == []) ==>
      (V.Clean(checked.summary) <==> NoRecordEntry(Claims(cs)))
  {
    hide Acceptable, Claims, ClaimsFit, Tells, StablySorted, Sound, FirstProblem, InPhaseOrder, EntriesSafe, StepsFor, NoRecordEntry, PhasesRise;
    hide EntrySteps, T.Fit, T.DistinctWrites, T.TreeOk, T.RowsOf, V.RealHash, V.SameHashes, V.NoRecordWrite, V.Clean, V.Counts, Files.Smooth;
    outcome, checked := T.Failed, V.NoRecord;
    ghost var contributed, p;
    r, contributed, p := BuildPlan(cs, wd);
    if r.Planned? {
      PlanFits(cs, wd, contributed, p, r.steps);
      StepsNamed(r.steps, cs, wd);
      outcome := T.Apply(fs, target, StepsFor(r.steps), hash);
      checked := V.Verify(fs, target, hash);
      if outcome.Done? {
        CleanEntries(cs, wd, contributed, p, r.steps, hash);
        V.CleanAfter(fs.tree, target, StepsFor(r.steps), hash, checked);
        if forall c :: c in cs ==> c.overrides == [] {
          PlanWritesDistinct(r.steps, cs, wd);
        }
      }
    }
  }

  /** Where a workspace can go. */
  predicate Free(t: Tree, target: Path)
    requires target != []
  {
    target !in t && !T.InWorkspace(t, target) && NoFileOnTheWay(t, target[..|target| - 1])
  }

  predicate NoRecordEntry(claims: seq<Claim>) {
    !ClaimedBy(claims, T.RecordPath)
  }

  lemma StepsNamed(steps: seq<PlanStep>, cs: seq<Contribution>, wd: Path)
    requires Sound(steps, cs, wd)
    ensures forall i :: 0 <= i < |StepsFor(steps)| ==> StepsFor(steps)[i].path != []
  {
    hide DirsMade, DirsOnce, TakenOver;
    forall i | 0 <= i < |steps|
      ensures StepsFor(steps)[i].path != []
    {
      assert StepOk(steps[i], wd);
    }
  }

  /** What the check afterwards depends on can be read off the entries. */
  lemma CleanEntries(cs: seq<Contribution>, wd: Path, steps: seq<PlanStep>, p: seq<nat>, sorted: seq<PlanStep>, hash: seq<byte> -> string)
    requires Tells(steps, wd, Claims(cs)) && StablySorted(steps, p, sorted) && PhasesRise(steps)
    ensures V.NoRecordWrite(StepsFor(sorted)) <==> NoRecordEntry(Claims(cs))
    ensures V.SameHashes(StepsFor(sorted), hash) <==> V.SameHashes(EntrySteps(Claims(cs)), hash)
  {
    hide Tells, StablySorted, Claims, ClaimedBy, PhasesRise, StepsFor, EntrySteps, HasWrite, T.Writes, T.FirstOf, T.FilesOf;
    SamePlaces(steps, p, sorted, T.RecordPath);
    ClaimedAreWritten(steps, wd, Claims(cs), T.RecordPath);
    WritesSame(sorted, T.RecordPath);
    PlanWritesEntries(steps, wd, Claims(cs), p, sorted);
  }
}
