/** Building a generation plan: what every resource contributes, the directories that needs, and a
    stable order. */
module Plan {
  import opened Bits
  import opened Strings
  import opened Canonical
  import opened FileSystem
  import opened Paths
  import T = Transaction

  /** A payload entry after substitution: its path in the workspace ([] when it names none), whether it
      could be read, its ownership class and its content. */
  datatype Entry = Entry(path: Path, readable: bool, ownership: Ownership, content: seq<byte>)

  /** What one resource contributes, and the paths it may take over. */
  datatype Contribution = Contribution(resource: string, phase: nat, overrides: seq<Path>, entries: seq<Entry>)

  datatype PlanStep = PlanStep(isDir: bool, phase: nat, path: Path, ownership: Ownership, content: seq<byte>, origin: string)

  datatype Planned = Planned(steps: seq<PlanStep>) | Unsafe | Conflict(path: Path) | NotReadable | GeneratedInWorkingDir

  /** Contributions come in phase order: the template, then kits, then packages. */
  predicate InPhaseOrder(cs: seq<Contribution>) {
    forall i, j :: 0 <= i < j < |cs| ==> cs[i].phase <= cs[j].phase
  }

  predicate EntriesSafe(cs: seq<Contribution>) {
    forall i, k :: 0 <= i < |cs| && 0 <= k < |cs[i].entries| ==> cs[i].entries[k].path == [] || Safe(cs[i].entries[k].path)
  }

  // ----- what a list of steps promises

  /** Some contribution of this origin names the path among its overrides. */
  predicate MayOverride(cs: seq<Contribution>, origin: string, p: Path) {
    exists i :: 0 <= i < |cs| && cs[i].resource == origin && p in cs[i].overrides
  }

  /** Directory `d` is made before step `i`, in no later phase. */
  predicate MadeBefore(steps: seq<PlanStep>, i: nat, d: Path) {
    exists j :: 0 <= j < i && j < |steps| && steps[j].isDir && steps[j].path == d && i < |steps| && steps[j].phase <= steps[i].phase
  }

  predicate DirsMade(steps: seq<PlanStep>, i: nat)
    requires i < |steps|
  {
    !steps[i].isDir ==> forall n :: 0 < n < |steps[i].path| ==> MadeBefore(steps, i, steps[i].path[..n])
  }

  predicate DirsOnce(steps: seq<PlanStep>) {
    forall i, j :: 0 <= i < j < |steps| && steps[i].isDir && steps[j].isDir ==> steps[i].path != steps[j].path
  }

  predicate TakenOver(steps: seq<PlanStep>, cs: seq<Contribution>) {
    forall i, j :: 0 <= i < j < |steps| && !steps[i].isDir && !steps[j].isDir && steps[i].path == steps[j].path ==>
      MayOverride(cs, steps[j].origin, steps[j].path)
  }

  predicate Within(wd: Path, p: Path) {
    wd != [] && wd <= p
  }

  predicate StepOk(s: PlanStep, wd: Path) {
    (s.isDir ==> s.path != []) && (!s.isDir ==> Safe(s.path) && !(s.ownership == Generated && Within(wd, s.path)))
  }

  predicate PhasesRise(steps: seq<PlanStep>) {
    forall i, j :: 0 <= i < j < |steps| ==> steps[i].phase <= steps[j].phase
  }

  /** Everything a list of contributed steps keeps. */
  predicate Sound(steps: seq<PlanStep>, cs: seq<Contribution>, wd: Path) {
    && (forall i :: 0 <= i < |steps| ==> StepOk(steps[i], wd) && DirsMade(steps, i))
    && DirsOnce(steps) && TakenOver(steps, cs)
  }

  // ----- adding steps

  lemma AddDir(steps: seq<PlanStep>, cs: seq<Contribution>, wd: Path, s: PlanStep)
    requires Sound(steps, cs, wd) && s.isDir && s.path != [] && forall i :: 0 <= i < |steps| && steps[i].isDir ==> steps[i].path != s.path
    ensures Sound(steps + [s], cs, wd)
  {
    hide MayOverride, Safe;
    var t := steps + [s];
    forall i | 0 <= i < |t|
      ensures StepOk(t[i], wd) && DirsMade(t, i)
    {
      if i < |steps| {
        DirsStay(steps, s, i);
      }
    }
  }

  lemma DirsStay(steps: seq<PlanStep>, s: PlanStep, i: nat)
    requires i < |steps| && DirsMade(steps, i)
    ensures DirsMade(steps + [s], i)
  {
    var t := steps + [s];
    if !t[i].isDir {
      forall n | 0 < n < |t[i].path|
        ensures MadeBefore(t, i, t[i].path[..n])
      {
        assert MadeBefore(steps, i, steps[i].path[..n]);
        var j :| 0 <= j < i && steps[j].isDir && steps[j].path == steps[i].path[..n] && steps[j].phase <= steps[i].phase;
        assert t[j] == steps[j];
      }
    }
  }

  lemma AddWrite(steps: seq<PlanStep>, cs: seq<Contribution>, wd: Path, s: PlanStep)
    requires Sound(steps, cs, wd) && !s.isDir && StepOk(s, wd) && DirsMade(steps + [s], |steps|)
    requires (exists i :: 0 <= i < |steps| && !steps[i].isDir && steps[i].path == s.path) ==> MayOverride(cs, s.origin, s.path)
    ensures Sound(steps + [s], cs, wd)
  {
    hide MayOverride, Safe;
    var t := steps + [s];
    forall i | 0 <= i < |t|
      ensures StepOk(t[i], wd) && DirsMade(t, i)
    {
      if i < |steps| {
        DirsStay(steps, s, i);
      }
    }
  }

  // ----- what a plan has to say

  /** An entry with the contribution it belongs to. */
  datatype Claim = Claim(owner: Contribution, entry: Entry)

  /** The first `k` entries of a contribution. */
  function ClaimsOf(c: Contribution, k: nat): seq<Claim>
    requires k <= |c.entries|
  {
    seq(k, j requires 0 <= j < k => Claim(c, c.entries[j]))
  }

  /** All entries, in the order they are taken up. */
  function Claims(cs: seq<Contribution>): seq<Claim> {
    if cs == [] then []
    else
      var c := cs[|cs| - 1];
      Claims(cs[..|cs| - 1]) + ClaimsOf(c, |c.entries|)
  }

  predicate ClaimedBy(claims: seq<Claim>, p: Path) {
    exists m :: 0 <= m < |claims| && claims[m].entry.path == p
  }

  /** What is wrong with an entry, given those before it. */
  function Problem(before: seq<Claim>, x: Claim, wd: Path): Option<Planned> {
    var e := x.entry;
    if e.path == [] then Some(Unsafe)
    else if ClaimedBy(before, e.path) && e.path !in x.owner.overrides then Some(Conflict(e.path))
    else if !e.readable then Some(NotReadable)
    else if e.ownership == Generated && Within(wd, e.path) then Some(GeneratedInWorkingDir)
    else None
  }

  predicate Acceptable(claims: seq<Claim>, wd: Path) {
    forall n :: 0 <= n < |claims| ==> Problem(claims[..n], claims[n], wd).None?
  }

  /** The first entry that has a problem has this one. */
  predicate FirstProblem(claims: seq<Claim>, wd: Path, r: Planned) {
    exists n :: 0 <= n < |claims| && Acceptable(claims[..n], wd) && Problem(claims[..n], claims[n], wd) == Some(r)
  }

  function WriteOf(x: Claim): PlanStep {
    PlanStep(false, x.owner.phase, x.entry.path, x.entry.ownership, x.entry.content, x.owner.resource)
  }

  function WritesOf(claims: seq<Claim>): (w: seq<PlanStep>)
    ensures |w| == |claims| && forall n :: 0 <= n < |claims| ==> w[n] == WriteOf(claims[n])
  {
    seq(|claims|, n requires 0 <= n < |claims| => WriteOf(claims[n]))
  }

  /** The steps that write, in order. */
  function Writes(steps: seq<PlanStep>): seq<PlanStep> {
    if steps == [] then []
    else
      var s := steps[|steps| - 1];
      Writes(steps[..|steps| - 1]) + (if s.isDir then [] else [s])
  }

  /** Some write of the same phase lies in the directory. */
  predicate Needed(d: PlanStep, writes: seq<PlanStep>) {
    exists j :: 0 <= j < |writes| && d.path < writes[j].path && d.phase == writes[j].phase
  }

  predicate IsWorkingDir(d: PlanStep, wd: Path) {
    d.path == wd && d.phase == 0
  }

  predicate Explained(steps: seq<PlanStep>, wd: Path, writes: seq<PlanStep>) {
    forall i :: 0 <= i < |steps| && steps[i].isDir ==> Needed(steps[i], writes) || IsWorkingDir(steps[i], wd)
  }

  /** The steps write just what the entries say, and make no directory without a reason. */
  predicate Tells(steps: seq<PlanStep>, wd: Path, claims: seq<Claim>) {
    Writes(steps) == WritesOf(claims) && Explained(steps, wd, WritesOf(claims))
  }

  lemma WritesSnoc(steps: seq<PlanStep>, s: PlanStep)
    ensures Writes(steps + [s]) == Writes(steps) + if s.isDir then [] else [s]
  {
    assert (steps + [s])[..|steps|] == steps;
  }

  lemma {:induction false} WritesAre(steps: seq<PlanStep>, p: Path)
    ensures HasWrite(steps, p) <==> exists m :: 0 <= m < |Writes(steps)| && Writes(steps)[m].path == p
    decreases |steps|
  {
    if steps != [] {
      var n := |steps| - 1;
      var front, s := steps[..n], steps[n];
      WritesAre(front, p);
      HasOneMore(front, s);
      assert steps == front + [s];
      var w, v := Writes(front), Writes(steps);
      assert forall m :: 0 <= m < |w| ==> v[m] == w[m];
      assert !s.isDir ==> v[|w|] == s;
    }
  }

  lemma ClaimedAreWritten(steps: seq<PlanStep>, wd: Path, claims: seq<Claim>, p: Path)
    requires Tells(steps, wd, claims)
    ensures HasWrite(steps, p) <==> ClaimedBy(claims, p)
  {
    WritesAre(steps, p);
    var w := WritesOf(claims);
    assert forall m :: 0 <= m < |claims| ==> w[m].path == claims[m].entry.path;
    if ClaimedBy(claims, p) {
      var m :| 0 <= m < |claims| && claims[m].entry.path == p;
      assert Writes(steps)[m].path == w[m].path == p;
    }
    if HasWrite(steps, p) {
      var m :| 0 <= m < |w| && w[m].path == p;
      assert claims[m].entry.path == p;
    }
  }

  lemma NeededStays(d: PlanStep, writes: seq<PlanStep>, more: seq<PlanStep>)
    requires Needed(d, writes)
    ensures Needed(d, writes + more)
  {
    var j :| 0 <= j < |writes| && d.path < writes[j].path && d.phase == writes[j].phase;
    assert (writes + more)[j] == writes[j];
  }

  lemma ExplainedStays(steps: seq<PlanStep>, wd: Path, writes: seq<PlanStep>, more: seq<PlanStep>)
    requires Explained(steps, wd, writes)
    ensures Explained(steps, wd, writes + more)
  {
    forall i | 0 <= i < |steps| && steps[i].isDir
      ensures Needed(steps[i], writes + more) || IsWorkingDir(steps[i], wd)
    {
      if Needed(steps[i], writes) {
        NeededStays(steps[i], writes, more);
      }
    }
  }

  lemma TellsWrite(steps: seq<PlanStep>, wd: Path, claims: seq<Claim>, x: Claim)
    requires Writes(steps) == WritesOf(claims) && Explained(steps, wd, WritesOf(claims + [x]))
    ensures Tells(steps + [WriteOf(x)], wd, claims + [x])
  {
    WritesSnoc(steps, WriteOf(x));
    assert WritesOf(claims + [x]) == WritesOf(claims) + [WriteOf(x)];
  }

  lemma {:induction false} WritesFront(s: PlanStep, steps: seq<PlanStep>)
    requires s.isDir
    ensures Writes([s] + steps) == Writes(steps)
    decreases |steps|
  {
    var t := [s] + steps;
    if steps == [] {
      assert t[..0] == [];
    } else {
      var n := |steps| - 1;
      WritesFront(s, steps[..n]);
      assert t[..n + 1] == [s] + steps[..n];
    }
  }

  // ----- the builder

  predicate HasDir(steps: seq<PlanStep>, p: Path) {
    exists i :: 0 <= i < |steps| && steps[i].isDir && steps[i].path == p
  }

  predicate HasWrite(steps: seq<PlanStep>, p: Path) {
    exists i :: 0 <= i < |steps| && !steps[i].isDir && steps[i].path == p
  }

  class Builder {
    var steps: seq<PlanStep>
    /** The paths written, each with the resource that owns it, and the directories made. */
    var claimed: map<Path, string>
    var directories: set<Path>

    ghost predicate Valid(cs: seq<Contribution>, wd: Path, phase: nat)
      reads this
    {
      && Sound(steps, cs, wd) && PhasesRise(steps) && (forall i :: 0 <= i < |steps| ==> steps[i].phase <= phase)
      && (forall p :: p in directories <==> HasDir(steps, p)) && forall p :: p in claimed <==> HasWrite(steps, p)
    }

    constructor ()
      ensures steps == [] && claimed == map[] && directories == {}
    {
      steps, claimed, directories := [], map[], {};
    }

    lemma Starts(cs: seq<Contribution>, wd: Path)
      requires steps == [] && claimed == map[] && directories == {}
      ensures Valid(cs, wd, 0)
    {
    }

    /** One directory, unless it is there already. */
    method ClaimDirectory(d: Path, phase: nat, ghost cs: seq<Contribution>, ghost wd: Path, ghost claims: seq<Claim>, ghost more: seq<PlanStep>)
      requires Valid(cs, wd, phase) && d != [] && Foretells(wd, claims, more) && Needed(PlanStep(true, phase, d, Seeded, [], ""), more)
      modifies this`steps, this`directories
      ensures Valid(cs, wd, phase) && HasDir(steps, d) && old(steps) <= steps && claimed == old(claimed)
      ensures Foretells(wd, claims, more)
    {
      hide Needed, Builder.Foretells, Sound, PhasesRise, Explained;
      if d !in directories {
        var s := PlanStep(true, phase, d, Seeded, [], "");
        DirAdded(cs, wd, phase, s);
        DirTells(wd, claims, more, s);
        steps := steps + [s];
        directories := directories + {d};
        Foretold(wd, claims, more);
      }
    }

    lemma Foretold(wd: Path, claims: seq<Claim>, more: seq<PlanStep>)
      requires Writes(steps) == WritesOf(claims) && Explained(steps, wd, more)
      ensures Foretells(wd, claims, more)
    {
    }

    lemma DirTells(wd: Path, claims: seq<Claim>, more: seq<PlanStep>, s: PlanStep)
      requires Foretells(wd, claims, more) && s.isDir && Needed(s, more)
      ensures Writes(steps + [s]) == WritesOf(claims) && Explained(steps + [s], wd, more)
    {
      hide Needed, Writes;
      WritesSnoc(steps, s);
    }

    /** The writes so far are those of `claims`; the directories are for `writes`. */
    predicate Foretells(wd: Path, claims: seq<Claim>, writes: seq<PlanStep>)
      reads this`steps
    {
      Writes(steps) == WritesOf(claims) && Explained(steps, wd, writes)
    }

    lemma DirAdded(cs: seq<Contribution>, wd: Path, phase: nat, s: PlanStep)
      requires Valid(cs, wd, phase) && s.isDir && s.path != [] && s.phase == phase && s.path !in directories
      ensures Sound(steps + [s], cs, wd) && PhasesRise(steps + [s])
      ensures forall p :: HasDir(steps + [s], p) <==> p in directories || p == s.path
      ensures forall p :: HasWrite(steps + [s], p) <==> p in claimed
    {
      hide Sound;
      forall i | 0 <= i < |steps| && steps[i].isDir
        ensures steps[i].path != s.path
      {
        assert HasDir(steps, steps[i].path);
      }
      AddDir(steps, cs, wd, s);
      HasOneMore(steps, s);
    }

    /** All directories a path needs. */
    method ClaimDirectories(path: Path, phase: nat, ghost cs: seq<Contribution>, ghost wd: Path, ghost claims: seq<Claim>, ghost more: seq<PlanStep>)
      requires Valid(cs, wd, phase) && Foretells(wd, claims, more)
      requires exists j :: 0 <= j < |more| && more[j].path == path && more[j].phase == phase
      modifies this`steps, this`directories
      ensures Valid(cs, wd, phase) && claimed == old(claimed) && old(steps) <= steps && Foretells(wd, claims, more)
      ensures forall n :: 0 < n < |path| ==> HasDir(steps, path[..n])
    {
      hide Builder.Foretells, Builder.Valid;
      var ds := AncestorDirectories(path);
      for i := 0 to |ds|
        invariant Valid(cs, wd, phase) && claimed == old(claimed) && old(steps) <= steps && Foretells(wd, claims, more)
        invariant forall n :: 0 < n <= i ==> HasDir(steps, path[..n])
      {
        ghost var before := steps;
        assert ds[i] == path[..i + 1];
        ClaimDirectory(ds[i], phase, cs, wd, claims, more);
        DirsRemain(before, steps);
      }
    }

    /** One payload entry: checked against what is claimed, then written after its directories. */
    method AddEntry(e: Entry, c: Contribution, wd: Path, ghost cs: seq<Contribution>, ghost claims: seq<Claim>) returns (error: Option<Planned>)
      requires Valid(cs, wd, c.phase) && c in cs && (e.path == [] || Safe(e.path)) && Tells(steps, wd, claims)
      modifies this
      ensures error == Problem(claims, Claim(c, e), wd)
      ensures error.None? <==>
        && e.path != [] && e.readable && !(e.ownership == Generated && wd != [] && wd <= e.path)
        && (e.path in c.overrides || forall m :: 0 <= m < |claims| ==> claims[m].entry.path != e.path)
      ensures error == Some(Unsafe) <==> e.path == []
      ensures error == Some(NotReadable) ==> !e.readable
      ensures error == Some(GeneratedInWorkingDir) ==> e.ownership == Generated && wd != [] && wd <= e.path
      ensures error.Some? && error.value.Conflict? ==> error.value.path == e.path && e.path !in c.overrides
      ensures error.None? ==> Valid(cs, wd, c.phase) && Tells(steps, wd, claims + [Claim(c, e)]) && old(steps) <= steps
    {
      hide Sound, PhasesRise, Tells, Builder.Foretells, ClaimedBy, Safe, HasWrite;
      KnownClaims(cs, wd, c.phase, claims, e.path);
      ProblemIs(claims, Claim(c, e), wd);
      if e.path == [] {
        return Some(Unsafe);
      }
      if e.path in claimed {
        if e.path !in c.overrides {
          return Some(Conflict(e.path));
        }
        claimed := claimed[e.path := c.resource];
      }
      if !e.readable {
        return Some(NotReadable);
      }
      if e.ownership == Generated && Within(wd, e.path) {
        return Some(GeneratedInWorkingDir);
      }
      ghost var x := Claim(c, e);
      ghost var more := Announced(wd, claims, x);
      ClaimDirectories(e.path, c.phase, cs, wd, claims, more);
      var s := PlanStep(false, c.phase, e.path, e.ownership, e.content, c.resource);
      WriteAdded(cs, wd, c, s);
      TellsNext(wd, claims, x);
      if e.path !in claimed {
        claimed := claimed[e.path := c.resource];
      }
      steps := steps + [s];
      error := None;
    }

    lemma KnownClaims(cs: seq<Contribution>, wd: Path, phase: nat, claims: seq<Claim>, p: Path)
      requires Valid(cs, wd, phase) && Tells(steps, wd, claims)
      ensures p in claimed <==> ClaimedBy(claims, p)
    {
      hide Sound, PhasesRise, Tells, ClaimedBy;
      ClaimedAreWritten(steps, wd, claims, p);
    }

    lemma Announced(wd: Path, claims: seq<Claim>, x: Claim) returns (more: seq<PlanStep>)
      requires Tells(steps, wd, claims)
      ensures more == WritesOf(claims + [x]) && Foretells(wd, claims, more)
      ensures exists j :: 0 <= j < |more| && more[j].path == x.entry.path && more[j].phase == x.owner.phase
    {
      more := WritesOf(claims + [x]);
      assert more == WritesOf(claims) + [WriteOf(x)];
      ExplainedStays(steps, wd, WritesOf(claims), [WriteOf(x)]);
      assert more[|claims|] == WriteOf(x);
    }

    lemma TellsNext(wd: Path, claims: seq<Claim>, x: Claim)
      requires Foretells(wd, claims, WritesOf(claims + [x]))
      ensures Tells(steps + [WriteOf(x)], wd, claims + [x])
    {
      TellsWrite(steps, wd, claims, x);
    }

    lemma WriteAdded(cs: seq<Contribution>, wd: Path, c: Contribution, s: PlanStep)
      requires Valid(cs, wd, c.phase) && c in cs && !s.isDir && s.phase == c.phase && StepOk(s, wd) && s.origin == c.resource
      requires s.path in claimed ==> s.path in c.overrides
      requires forall n :: 0 < n < |s.path| ==> HasDir(steps, s.path[..n])
      ensures Sound(steps + [s], cs, wd) && PhasesRise(steps + [s])
      ensures forall p :: HasDir(steps + [s], p) <==> p in directories
      ensures forall p :: HasWrite(steps + [s], p) <==> p in claimed || p == s.path
    {
      var t := steps + [s];
      forall n | 0 < n < |s.path|
        ensures MadeBefore(t, |steps|, s.path[..n])
      {
        assert HasDir(steps, s.path[..n]);
        var j :| 0 <= j < |steps| && steps[j].isDir && steps[j].path == s.path[..n];
        assert t[j] == steps[j];
      }
      if s.path in claimed {
        var i :| 0 <= i < |cs| && cs[i] == c;
        assert MayOverride(cs, s.origin, s.path);
      }
      HasNoMoreThan(s.path);
      AddWrite(steps, cs, wd, s);
      HasOneMore(steps, s);
    }

    lemma HasNoMoreThan(p: Path)
      ensures (exists i :: 0 <= i < |steps| && !steps[i].isDir && steps[i].path == p) <==> HasWrite(steps, p)
    {
    }
  }

  lemma DirsRemain(steps: seq<PlanStep>, more: seq<PlanStep>)
    requires steps <= more
    ensures forall p :: HasDir(steps, p) ==> HasDir(more, p)
  {
    forall p | HasDir(steps, p)
      ensures HasDir(more, p)
    {
      var i :| 0 <= i < |steps| && steps[i].isDir && steps[i].path == p;
      assert more[i] == steps[i];
    }
  }

  lemma HasOneMore(steps: seq<PlanStep>, s: PlanStep)
    ensures forall p :: HasDir(steps + [s], p) <==> HasDir(steps, p) || (s.isDir && s.path == p)
    ensures forall p :: HasWrite(steps + [s], p) <==> HasWrite(steps, p) || (!s.isDir && s.path == p)
  {
    var t := steps + [s];
    forall p
      ensures HasDir(t, p) <==> HasDir(steps, p) || (s.isDir && s.path == p)
      ensures HasWrite(t, p) <==> HasWrite(steps, p) || (!s.isDir && s.path == p)
    {
      if HasDir(steps, p) {
        var i :| 0 <= i < |steps| && steps[i].isDir && steps[i].path == p;
        assert t[i] == steps[i];
      }
      if HasWrite(steps, p) {
        var i :| 0 <= i < |steps| && !steps[i].isDir && steps[i].path == p;
        assert t[i] == steps[i];
      }
      assert t[|steps|] == s;
    }
  }

  // ----- the order

  /** The key steps are sorted by: phase, directories first, then the path as text. */
  function KeyCompare(a: PlanStep, b: PlanStep): int {
    if a.phase != b.phase then a.phase - b.phase
    else if a.isDir != b.isDir then (if a.isDir then -1 else 1)
    else Compare(PathText(a.path), PathText(b.path))
  }

  function PathText(p: Path): string {
    if p == [] then "" else Join(p, '/')
  }

  predicate Before(a: PlanStep, b: PlanStep) {
    KeyCompare(a, b) < 0
  }

  lemma BeforeIsStrict(a: PlanStep, b: PlanStep, c: PlanStep)
    ensures !(Before(a, b) && Before(b, a))
    ensures !Before(b, a) && !Before(c, b) ==> !Before(c, a)
    ensures Before(a, b) && !Before(c, b) ==> Before(a, c)
    ensures !Before(b, a) && Before(b, c) ==> Before(a, c)
  {
    hide Join, Compare;
    var x, y, z := PathText(a.path), PathText(b.path), PathText(c.path);
    CompareSwap(x, y);
    CompareSwap(y, x);
    CompareSwap(y, z);
    CompareSwap(z, y);
    CompareSwap(x, z);
    CompareSwap(z, x);
    if Compare(x, y) <= 0 && Compare(y, z) <= 0 {
      CompareTrans(x, y, z);
    }
  }

  /** What the order is: phases first; in a phase the directories; and then the paths as text, of which the
      lesser is the one that ends first or has the lesser character where they first differ. */
  lemma BeforeMeans(a: PlanStep, b: PlanStep)
    ensures a.phase != b.phase ==> (Before(a, b) <==> a.phase < b.phase)
    ensures a.phase == b.phase && a.isDir != b.isDir ==> (Before(a, b) <==> a.isDir)
    ensures a.phase == b.phase && a.isDir == b.isDir ==>
      var x, y := PathText(a.path), PathText(b.path);
      Before(a, b) <==> exists k :: 0 <= k <= |x| && k < |y| && x[..k] == y[..k] && (k < |x| ==> x[k] < y[k])
  {
    CompareMeans(PathText(a.path), PathText(b.path));
  }

  function FileAt(p: Path): PlanStep {
    PlanStep(false, 0, p, Seeded, [], "")
  }

  /** Names are parted by slashes: a file below `a` comes between one whose name goes on with a dot and one whose
      name goes on with a digit. */
  lemma SlashInOrder()
    ensures Before(FileAt(["a.b"]), FileAt(["a", "b"])) && Before(FileAt(["a", "b"]), FileAt(["a0b"]))
  {
    hide Compare;
    var x, y, z := PathText(["a.b"]), PathText(["a", "b"]), PathText(["a0b"]);
    assert x == ['a', '.', 'b'] && y == ['a', '/', 'b'] && z == ['a', '0', 'b'];
    CompareMeans(x, y);
    CompareMeans(y, z);
    assert x[..1] == y[..1] == z[..1];
  }

  /** `p` lists the places 0 to n - 1, each once. */
  predicate Permutation(p: seq<nat>, n: nat) {
    |p| == n && (forall i :: 0 <= i < n ==> p[i] < n) && (forall i, j :: 0 <= i < j < n ==> p[i] != p[j])
  }

  predicate InOrder(steps: seq<PlanStep>, p: seq<nat>, i: nat, j: nat)
    requires i < |p| && j < |p| && p[i] < |steps| && p[j] < |steps|
  {
    Before(steps[p[i]], steps[p[j]]) || (!Before(steps[p[j]], steps[p[i]]) && p[i] < p[j])
  }

  /** Sorted stably: by key, and by the original place among equal keys. */
  predicate StablySorted(steps: seq<PlanStep>, p: seq<nat>, sorted: seq<PlanStep>) {
    && Permutation(p, |steps|) && |sorted| == |steps| && (forall i :: 0 <= i < |p| ==> sorted[i] == steps[p[i]])
    && forall i, j :: 0 <= i < j < |p| ==> InOrder(steps, p, i, j)
  }

  /** Where a new step goes: behind every step that is not after it. */
  method PlaceFor(sorted: seq<PlanStep>, x: PlanStep) returns (k: nat)
    ensures k <= |sorted| && (forall i :: 0 <= i < k ==> !Before(x, sorted[i])) && (k < |sorted| ==> Before(x, sorted[k]))
  {
    k := 0;
    while k < |sorted| && !Before(x, sorted[k])
      invariant k <= |sorted| && forall i :: 0 <= i < k ==> !Before(x, sorted[i])
    {
      k := k + 1;
    }
  }

  lemma Inserted(steps: seq<PlanStep>, p: seq<nat>, sorted: seq<PlanStep>, x: PlanStep, k: nat)
    requires StablySorted(steps, p, sorted) && k <= |sorted| && (forall i :: 0 <= i < k ==> !Before(x, sorted[i]))
    requires k < |sorted| ==> Before(x, sorted[k])
    ensures StablySorted(steps + [x], p[..k] + [|steps|] + p[k..], sorted[..k] + [x] + sorted[k..])
  {
    hide Before, InOrder, StablySorted;
    InsertedSame(steps, p, sorted, x, k);
    var t, q := steps + [x], p[..k] + [|steps|] + p[k..];
    forall i, j | 0 <= i < j < |q|
      ensures InOrder(t, q, i, j)
    {
      InsertedInOrder(steps, p, sorted, x, k, i, j);
    }
    SortedIf(t, q, sorted[..k] + [x] + sorted[k..]);
  }

  lemma SortedIf(steps: seq<PlanStep>, p: seq<nat>, sorted: seq<PlanStep>)
    requires Permutation(p, |steps|) && |sorted| == |steps| && (forall i :: 0 <= i < |p| ==> sorted[i] == steps[p[i]])
    requires forall i, j :: 0 <= i < j < |p| ==> InOrder(steps, p, i, j)
    ensures StablySorted(steps, p, sorted)
  {
    hide InOrder;
  }

  lemma InsertedSame(steps: seq<PlanStep>, p: seq<nat>, sorted: seq<PlanStep>, x: PlanStep, k: nat)
    requires StablySorted(steps, p, sorted) && k <= |sorted|
    ensures |p| == |sorted| == |steps|
    ensures var t, q, out := steps + [x], p[..k] + [|steps|] + p[k..], sorted[..k] + [x] + sorted[k..];
      Permutation(q, |t|) && |out| == |t| && forall i :: 0 <= i < |q| ==> out[i] == t[q[i]]
  {
    hide InOrder;
    InsertedPlaces(p, |steps|, k);
  }

  lemma InsertedPlaces(p: seq<nat>, n: nat, k: nat)
    requires Permutation(p, n) && k <= n
    ensures Permutation(p[..k] + [n] + p[k..], n + 1)
  {
  }

  lemma InsertedInOrder(steps: seq<PlanStep>, p: seq<nat>, sorted: seq<PlanStep>, x: PlanStep, k: nat, i: nat, j: nat)
    requires StablySorted(steps, p, sorted) && k <= |sorted| && (forall i :: 0 <= i < k ==> !Before(x, sorted[i]))
    requires (k < |sorted| ==> Before(x, sorted[k])) && i < j <= |p| && Permutation(p[..k] + [|steps|] + p[k..], |steps| + 1)
    ensures InOrder(steps + [x], p[..k] + [|steps|] + p[k..], i, j)
  {
    hide Before;
    var q := p[..k] + [|steps|] + p[k..];
    var i0, j0 := if i < k then i else i - 1, if j < k then j else j - 1;
    if i == k {
      assert q[j] == p[j0];
      AfterNew(steps, p, sorted, x, k, j0);
    } else if j == k {
      assert q[i] == p[i0] && sorted[i0] == steps[p[i0]];
    } else {
      assert q[i] == p[i0] && q[j] == p[j0] && InOrder(steps, p, i0, j0);
    }
  }

  lemma AfterNew(steps: seq<PlanStep>, p: seq<nat>, sorted: seq<PlanStep>, x: PlanStep, k: nat, j: nat)
    requires StablySorted(steps, p, sorted) && k <= j < |sorted| && Before(x, sorted[k])
    ensures Before(x, steps[p[j]])
  {
    if k < j {
      assert InOrder(steps, p, k, j);
      BeforeIsStrict(x, sorted[k], sorted[j]);
      BeforeIsStrict(sorted[k], sorted[j], x);
    }
  }

  /** std::stable_sort, by insertion. */
  method StableSort(steps: seq<PlanStep>) returns (sorted: seq<PlanStep>, ghost p: seq<nat>)
    ensures StablySorted(steps, p, sorted)
    ensures |sorted| == |steps| && forall i, j :: 0 <= i < j < |sorted| ==> !Before(sorted[j], sorted[i])
  {
    hide Before, InOrder;
    sorted, p := [], [];
    for i := 0 to |steps|
      invariant StablySorted(steps[..i], p, sorted)
    {
      var k := PlaceFor(sorted, steps[i]);
      Inserted(steps[..i], p, sorted, steps[i], k);
      assert steps[..i] + [steps[i]] == steps[..i + 1];
      sorted, p := sorted[..k] + [steps[i]] + sorted[k..], p[..k] + [i] + p[k..];
    }
    assert steps[..|steps|] == steps;
    forall i, j | 0 <= i < j < |sorted|
      ensures !Before(sorted[j], sorted[i])
    {
      LaterIsNotBefore(steps, p, sorted, i, j);
    }
  }

  /** A permutation has every place. */
  lemma {:induction false} HasPlace(p: seq<nat>, n: nat, v: nat) returns (j: nat)
    requires Permutation(p, n) && v < n
    ensures j < n && p[j] == v
    decreases n
  {
    var top := n - 1;
    if p[top] == v {
      return top;
    }
    // Rename the last value so that the first n - 1 places are a permutation again.
    var q := seq(top, i requires 0 <= i < top => if p[i] == top then p[top] else p[i]);
    assert Permutation(q, top) by {
      forall i | 0 <= i < top
        ensures q[i] < top
      {
        assert p[i] != p[top];
      }
    }
    if v == top {
      j := HasPlace(q, top, p[top]);
      assert p[j] != p[top];
    } else {
      j := HasPlace(q, top, v);
    }
  }

  // ----- what sorting keeps

  lemma DirsStayBefore(steps: seq<PlanStep>, p: seq<nat>, sorted: seq<PlanStep>, i: nat, d: Path)
    requires StablySorted(steps, p, sorted) && i < |sorted| && !sorted[i].isDir && MadeBefore(steps, p[i], d)
    ensures MadeBefore(sorted, i, d)
  {
    hide Join, Compare;
    var k: nat :| k < p[i] && k < |steps| && steps[k].isDir && steps[k].path == d && steps[k].phase <= steps[p[i]].phase;
    var j := HasPlace(p, |steps|, k);
    assert Before(steps[k], steps[p[i]]);
    BeforeIsStrict(steps[k], steps[p[i]], steps[k]);
    LaterIsNotBefore(steps, p, sorted, i, j);
  }

  lemma LaterIsNotBefore(steps: seq<PlanStep>, p: seq<nat>, sorted: seq<PlanStep>, i: nat, j: nat)
    requires StablySorted(steps, p, sorted) && i < |p| && j < |p|
    ensures i < j ==> !Before(sorted[j], sorted[i])
  {
    BeforeIsStrict(sorted[i], sorted[j], sorted[i]);
    assert i < j ==> InOrder(steps, p, i, j);
  }

  lemma PhaseLe(steps: seq<PlanStep>, a: nat, b: nat)
    requires PhasesRise(steps) && a < |steps| && b < |steps|
    ensures a < b ==> steps[a].phase <= steps[b].phase
  {
  }

  lemma TakenOverStays(steps: seq<PlanStep>, p: seq<nat>, sorted: seq<PlanStep>, cs: seq<Contribution>)
    requires StablySorted(steps, p, sorted) && TakenOver(steps, cs) && PhasesRise(steps)
    ensures TakenOver(sorted, cs)
  {
    hide MayOverride, Join;
    forall i, j | 0 <= i < j < |sorted| && !sorted[i].isDir && !sorted[j].isDir && sorted[i].path == sorted[j].path
      ensures MayOverride(cs, sorted[j].origin, sorted[j].path)
    {
      assert InOrder(steps, p, i, j);
      CompareSwap(PathText(sorted[i].path), PathText(sorted[j].path));
      PhaseLe(steps, p[j], p[i]);
    }
  }

  /** The stable order keeps every promise. */
  lemma SortedIsSound(steps: seq<PlanStep>, p: seq<nat>, sorted: seq<PlanStep>, cs: seq<Contribution>, wd: Path)
    requires StablySorted(steps, p, sorted) && Sound(steps, cs, wd) && PhasesRise(steps)
    ensures Sound(sorted, cs, wd)
  {
    hide Before, MayOverride, InOrder, Safe, PhasesRise;
    forall i | 0 <= i < |sorted|
      ensures StepOk(sorted[i], wd) && DirsMade(sorted, i)
    {
      assert StepOk(steps[p[i]], wd) && DirsMade(steps, p[i]);
      if !sorted[i].isDir {
        forall n | 0 < n < |sorted[i].path|
          ensures MadeBefore(sorted, i, sorted[i].path[..n])
        {
          assert MadeBefore(steps, p[i], steps[p[i]].path[..n]);
          DirsStayBefore(steps, p, sorted, i, sorted[i].path[..n]);
        }
      }
    }
    DirsOnceStays(steps, p, sorted);
    TakenOverStays(steps, p, sorted, cs);
  }

  lemma DirsOnceStays(steps: seq<PlanStep>, p: seq<nat>, sorted: seq<PlanStep>)
    requires StablySorted(steps, p, sorted) && DirsOnce(steps)
    ensures DirsOnce(sorted)
  {
    hide InOrder;
    forall i, j | 0 <= i < j < |sorted| && sorted[i].isDir && sorted[j].isDir
      ensures sorted[i].path != sorted[j].path
    {
      assert p[i] != p[j];
    }
  }

  // ----- the plan

  /** The working directory is made first, whatever else there is. */
  lemma FrontDir(steps: seq<PlanStep>, cs: seq<Contribution>, wd: Path, s: PlanStep)
    requires Sound(steps, cs, wd) && PhasesRise(steps) && s.isDir && s.path != [] && s.phase == 0 && !HasDir(steps, s.path)
    ensures Sound([s] + steps, cs, wd) && PhasesRise([s] + steps)
  {
    hide MayOverride, Safe;
    var t := [s] + steps;
    forall i | 0 <= i < |t|
      ensures StepOk(t[i], wd) && DirsMade(t, i)
    {
      if i > 0 && !t[i].isDir {
        assert t[i] == steps[i - 1] && DirsMade(steps, i - 1);
        forall n | 0 < n < |t[i].path|
          ensures MadeBefore(t, i, t[i].path[..n])
        {
          assert MadeBefore(steps, i - 1, steps[i - 1].path[..n]);
          var j :| 0 <= j < i - 1 && steps[j].isDir && steps[j].path == t[i].path[..n] && steps[j].phase <= steps[i - 1].phase;
          assert t[j + 1] == steps[j];
        }
      }
    }
    forall j | 0 <= j < |steps| && steps[j].isDir
      ensures steps[j].path != s.path
    {
      assert steps[j].isDir;
    }
  }

  /** A lower phase's builder is fit for the next phase. */
  lemma NextPhase(b: Builder, cs: seq<Contribution>, wd: Path, phase: nat, next: nat)
    requires b.Valid(cs, wd, phase) && phase <= next
    ensures b.Valid(cs, wd, next)
  {
    hide Sound;
  }

  /** All entries of all contributions, in order; the first problem stops it. */
  method Contribute(cs: seq<Contribution>, wd: Path) returns (b: Builder, error: Option<Planned>, ghost phase: nat)
    requires InPhaseOrder(cs) && EntriesSafe(cs)
    ensures fresh(b) && (error.None? ==> b.Valid(cs, wd, phase) && Tells(b.steps, wd, Claims(cs)) && Acceptable(Claims(cs), wd))
    ensures error.Some? ==> FirstProblem(Claims(cs), wd, error.value)
  {
    hide Builder.Valid, Tells, Acceptable, FirstProblem, Problem, Claims, ClaimsOf;
    b := new Builder();
    error, phase := None, 0;
    b.Starts(cs, wd);
    ghost var all := Claims(cs);
    NothingClaimed(wd);
    assert cs[..0] == [];
    for i := 0 to |cs|
      invariant fresh(b) && b.Valid(cs, wd, phase) && (i < |cs| ==> phase <= cs[i].phase) && error.None?
      invariant Tells(b.steps, wd, Claims(cs[..i])) && Acceptable(Claims(cs[..i]), wd)
    {
      NextPhase(b, cs, wd, phase, cs[i].phase);
      phase := cs[i].phase;
      ghost var before := Claims(cs[..i]);
      NoneOf(before, cs[i]);
      for k := 0 to |cs[i].entries|
        invariant fresh(b) && b.Valid(cs, wd, cs[i].phase) && error.None?
        invariant Tells(b.steps, wd, before + ClaimsOf(cs[i], k)) && Acceptable(before + ClaimsOf(cs[i], k), wd)
      {
        ghost var claims := before + ClaimsOf(cs[i], k);
        ClaimsGrow(cs, i, k);
        error := b.AddEntry(cs[i].entries[k], cs[i], wd, cs, claims);
        if error.Some? {
          ProblemIsFirst(all, wd, claims, Claim(cs[i], cs[i].entries[k]), error.value);
          return;
        }
        AcceptOne(claims, Claim(cs[i], cs[i].entries[k]), wd);
      }
      ClaimsDone(cs, i);
    }
    assert cs[..|cs|] == cs;
  }

  lemma NothingClaimed(wd: Path)
    ensures Claims([]) == [] && Tells([], wd, []) && Acceptable([], wd)
  {
  }

  lemma NoneOf(before: seq<Claim>, c: Contribution)
    ensures before + ClaimsOf(c, 0) == before
  {
  }

  lemma ClaimsDone(cs: seq<Contribution>, i: nat)
    requires i < |cs|
    ensures Claims(cs[..i + 1]) == Claims(cs[..i]) + ClaimsOf(cs[i], |cs[i].entries|)
  {
    assert cs[..i + 1][..i] == cs[..i];
  }

  lemma {:induction false} ClaimsPrefix(cs: seq<Contribution>, i: nat)
    requires i <= |cs|
    ensures Claims(cs[..i]) <= Claims(cs)
    decreases |cs|
  {
    if i == |cs| {
      assert cs[..i] == cs;
    } else {
      var n := |cs| - 1;
      ClaimsPrefix(cs[..n], i);
      assert cs[..n][..i] == cs[..i];
    }
  }

  lemma ClaimsGrow(cs: seq<Contribution>, i: nat, k: nat)
    requires i < |cs| && k < |cs[i].entries|
    ensures var a := Claims(cs[..i]) + ClaimsOf(cs[i], k);
      a + [Claim(cs[i], cs[i].entries[k])] == Claims(cs[..i]) + ClaimsOf(cs[i], k + 1) <= Claims(cs)
  {
    ClaimsDone(cs, i);
    ClaimsPrefix(cs, i + 1);
    var c := cs[i];
    assert ClaimsOf(c, k) + [Claim(c, c.entries[k])] == ClaimsOf(c, k + 1);
    assert ClaimsOf(c, k + 1) == ClaimsOf(c, |c.entries|)[..k + 1];
  }

  lemma ProblemIsFirst(all: seq<Claim>, wd: Path, claims: seq<Claim>, x: Claim, r: Planned)
    requires claims + [x] <= all && Acceptable(claims, wd) && Problem(claims, x, wd) == Some(r)
    ensures FirstProblem(all, wd, r)
  {
    hide Problem, Acceptable;
    var n := |claims|;
    assert all[..n] == claims && all[n] == (claims + [x])[n] == x;
  }

  lemma AcceptOne(claims: seq<Claim>, x: Claim, wd: Path)
    requires Acceptable(claims, wd) && Problem(claims, x, wd).None?
    ensures Acceptable(claims + [x], wd)
  {
    hide Problem;
    var t := claims + [x];
    forall n | 0 <= n < |t|
      ensures Problem(t[..n], t[n], wd).None?
    {
      assert n <= |claims| && t[..n] == claims[..n];
      if n == |claims| {
        assert claims[..n] == claims;
      }
    }
  }

  // ----- what is refused, said of the entries themselves

  /** Where entry `k` of contribution `i` stands among the claims. */
  ghost function At(cs: seq<Contribution>, i: nat, k: nat): nat
    requires i <= |cs|
  {
    |Claims(cs[..i])| + k
  }

  lemma EntryAt(cs: seq<Contribution>, i: nat, k: nat)
    requires i < |cs| && k < |cs[i].entries|
    ensures At(cs, i, k) < |Claims(cs)| && Claims(cs)[At(cs, i, k)] == Claim(cs[i], cs[i].entries[k])
  {
    hide Claims;
    ClaimsGrow(cs, i, k);
    var a := Claims(cs[..i]) + ClaimsOf(cs[i], k);
    assert (a + [Claim(cs[i], cs[i].entries[k])])[|a|] == Claim(cs[i], cs[i].entries[k]);
  }

  lemma {:induction false} EntryOf(cs: seq<Contribution>, n: nat) returns (i: nat, k: nat)
    requires n < |Claims(cs)|
    ensures i < |cs| && k < |cs[i].entries| && n == At(cs, i, k) && Claims(cs)[n] == Claim(cs[i], cs[i].entries[k])
    decreases |cs|
  {
    var m := |cs| - 1;
    var front := Claims(cs[..m]);
    if n < |front| {
      i, k := EntryOf(cs[..m], n);
      assert cs[..m][..i] == cs[..i];
    } else {
      i, k := m, n - |front|;
    }
  }

  lemma {:induction false} LaterContribution(cs: seq<Contribution>, i: nat, j: nat)
    requires i < j <= |cs|
    ensures |Claims(cs[..i])| + |cs[i].entries| <= |Claims(cs[..j])|
    decreases j
  {
    hide Claims;
    ClaimsDone(cs, j - 1);
    if i < j - 1 {
      LaterContribution(cs, i, j - 1);
    }
  }

  /** The order of the claims is that of the contributions and their entries. */
  lemma SameOrder(cs: seq<Contribution>, i0: nat, k0: nat, i: nat, k: nat)
    requires i0 < |cs| && k0 < |cs[i0].entries| && i < |cs| && k < |cs[i].entries|
    ensures At(cs, i0, k0) < At(cs, i, k) <==> i0 < i || (i0 == i && k0 < k)
  {
    hide Claims;
    if i0 < i {
      LaterContribution(cs, i0, i);
    } else if i < i0 {
      LaterContribution(cs, i, i0);
    }
  }

  lemma ProblemIs(before: seq<Claim>, x: Claim, wd: Path)
    ensures Problem(before, x, wd).None? <==>
      && x.entry.path != [] && x.entry.readable
      && !(x.entry.ownership == Generated && wd != [] && wd <= x.entry.path)
      && (x.entry.path in x.owner.overrides || forall m :: 0 <= m < |before| ==> before[m].entry.path != x.entry.path)
  {
  }

  /** What comes before an entry, as claims and as entries. */
  lemma EarlierEntries(cs: seq<Contribution>, i: nat, k: nat)
    requires i < |cs| && k < |cs[i].entries|
    ensures At(cs, i, k) < |Claims(cs)| && Claims(cs)[At(cs, i, k)] == Claim(cs[i], cs[i].entries[k])
    ensures var before := Claims(cs)[..At(cs, i, k)]; var q := cs[i].entries[k].path;
      (forall m :: 0 <= m < |before| ==> before[m].entry.path != q)
      <==> forall a, b :: (0 <= a < i && 0 <= b < |cs[a].entries|) || (a == i && 0 <= b < k) ==> cs[a].entries[b].path != q
  {
    hide Claims, At;
    EntryAt(cs, i, k);
    var before, q := Claims(cs)[..At(cs, i, k)], cs[i].entries[k].path;
    if forall m :: 0 <= m < |before| ==> before[m].entry.path != q {
      forall a: nat, b: nat | (a < i && b < |cs[a].entries|) || (a == i && b < k)
        ensures cs[a].entries[b].path != q
      {
        EntryAt(cs, a, b);
        SameOrder(cs, a, b, i, k);
        assert before[At(cs, a, b)] == Claim(cs[a], cs[a].entries[b]);
      }
    }
    if forall a, b :: (0 <= a < i && 0 <= b < |cs[a].entries|) || (a == i && 0 <= b < k) ==> cs[a].entries[b].path != q {
      forall m | 0 <= m < |before|
        ensures before[m].entry.path != q
      {
        var a, b := EntryOf(cs, m);
        SameOrder(cs, a, b, i, k);
      }
    }
  }

  /** An entry with a path that no entry before it has unless its contribution may take it over, that can be
      read, and is not a generated file in the working directory. */
  ghost predicate EntryFit(cs: seq<Contribution>, i: nat, k: nat, wd: Path)
    requires i < |cs| && k < |cs[i].entries|
  {
    var e := cs[i].entries[k];
    && e.path != [] && e.readable && !(e.ownership == Generated && wd != [] && wd <= e.path)
    && (e.path in cs[i].overrides || forall a, b :: (0 <= a < i && 0 <= b < |cs[a].entries|) || (a == i && 0 <= b < k) ==> cs[a].entries[b].path != e.path)
  }

  lemma NoProblem(cs: seq<Contribution>, i: nat, k: nat, wd: Path)
    requires i < |cs| && k < |cs[i].entries|
    ensures At(cs, i, k) < |Claims(cs)|
    ensures Problem(Claims(cs)[..At(cs, i, k)], Claims(cs)[At(cs, i, k)], wd).None? <==> EntryFit(cs, i, k, wd)
  {
    hide Claims, At, Problem;
    EarlierEntries(cs, i, k);
    ProblemIs(Claims(cs)[..At(cs, i, k)], Claims(cs)[At(cs, i, k)], wd);
  }

  lemma AcceptableMeans(cs: seq<Contribution>, wd: Path)
    ensures Acceptable(Claims(cs), wd) <==> forall i, k :: 0 <= i < |cs| && 0 <= k < |cs[i].entries| ==> EntryFit(cs, i, k, wd)
  {
    hide Claims, Problem, At, EntryFit;
    if Acceptable(Claims(cs), wd) {
      forall i, k | 0 <= i < |cs| && 0 <= k < |cs[i].entries|
        ensures EntryFit(cs, i, k, wd)
      {
        NoProblem(cs, i, k, wd);
      }
    }
    if forall i, k :: 0 <= i < |cs| && 0 <= k < |cs[i].entries| ==> EntryFit(cs, i, k, wd) {
      forall n | 0 <= n < |Claims(cs)|
        ensures Problem(Claims(cs)[..n], Claims(cs)[n], wd).None?
      {
        var i, k := EntryOf(cs, n);
        NoProblem(cs, i, k, wd);
      }
    }
  }

  lemma AllFit(cs: seq<Contribution>, wd: Path)
    ensures (forall i, k :: 0 <= i < |cs| && 0 <= k < |cs[i].entries| ==> EntryFit(cs, i, k, wd))
      <==> forall i, k :: 0 <= i < |cs| && 0 <= k < |cs[i].entries| ==>
        var e := cs[i].entries[k];
        && e.path != [] && e.readable && !(e.ownership == Generated && wd != [] && wd <= e.path)
        && (e.path in cs[i].overrides || forall a, b :: (0 <= a < i && 0 <= b < |cs[a].entries|) || (a == i && 0 <= b < k) ==> cs[a].entries[b].path != e.path)
  {
    forall i, k | 0 <= i < |cs| && 0 <= k < |cs[i].entries|
      ensures var e := cs[i].entries[k];
        EntryFit(cs, i, k, wd) <==>
        && e.path != [] && e.readable && !(e.ownership == Generated && wd != [] && wd <= e.path)
        && (e.path in cs[i].overrides || forall a, b :: (0 <= a < i && 0 <= b < |cs[a].entries|) || (a == i && 0 <= b < k) ==> cs[a].entries[b].path != e.path)
    {
    }
  }

  /** The error tells what is wrong with some entry, and with the first in order that is not fit. */
  lemma ErrorMeans(cs: seq<Contribution>, wd: Path, r: Planned) returns (i: nat, k: nat)
    requires FirstProblem(Claims(cs), wd, r)
    ensures i < |cs| && k < |cs[i].entries|
    ensures var e := cs[i].entries[k];
      && (r.Unsafe? ==> e.path == [])
      && (r.Conflict? ==> r.path == e.path != [] && e.path !in cs[i].overrides)
      && (r.Conflict? ==>
            exists a, b :: ((0 <= a < i && 0 <= b < |cs[a].entries|) || (a == i && 0 <= b < k)) && cs[a].entries[b].path == e.path)
      && (r.NotReadable? ==> e.path != [] && !e.readable)
      && (r.GeneratedInWorkingDir? ==> e.readable && e.ownership == Generated && wd != [] && wd <= e.path)
      && !r.Planned?
    ensures forall a, b :: (0 <= a < i && 0 <= b < |cs[a].entries|) || (a == i && 0 <= b < k) ==>
      var e := cs[a].entries[b];
      e.path != [] && e.readable && !(e.ownership == Generated && wd != [] && wd <= e.path)
  {
    hide Claims, At, Acceptable;
    var claims := Claims(cs);
    var n :| 0 <= n < |claims| && Acceptable(claims[..n], wd) && Problem(claims[..n], claims[n], wd) == Some(r);
    i, k := EntryOf(cs, n);
    EarlierEntries(cs, i, k);
    forall a: nat, b: nat | (a < i && b < |cs[a].entries|) || (a == i && b < k)
      ensures var e := cs[a].entries[b];
        e.path != [] && e.readable && !(e.ownership == Generated && wd != [] && wd <= e.path)
    {
      SameOrder(cs, a, b, i, k);
      NoProblem(cs, a, b, wd);
      AcceptedBefore(claims, n, At(cs, a, b), wd);
    }
  }

  lemma AcceptedBefore(claims: seq<Claim>, n: nat, m: nat, wd: Path)
    requires m < n <= |claims| && Acceptable(claims[..n], wd)
    ensures Problem(claims[..m], claims[m], wd).None?
  {
    hide Problem;
    assert claims[..n][..m] == claims[..m];
  }

  /** A problem and its absence exclude each other. */
  lemma ProblemOrPlan(claims: seq<Claim>, wd: Path, r: Planned)
    requires FirstProblem(claims, wd, r)
    ensures !Acceptable(claims, wd) && !r.Planned?
  {
    hide Acceptable;
    var n :| 0 <= n < |claims| && Acceptable(claims[..n], wd) && Problem(claims[..n], claims[n], wd) == Some(r);
    Problematic(claims, wd, n);
  }

  lemma Problematic(claims: seq<Claim>, wd: Path, n: nat)
    requires n < |claims| && Problem(claims[..n], claims[n], wd).Some?
    ensures !Acceptable(claims, wd)
  {
  }

  /** build_plan: a plan comes back just when no entry has a problem, and the first problem otherwise. It
      keeps its promises, and is a stable arrangement of one write for each entry and the directories
      those need. */
  method BuildPlan(cs: seq<Contribution>, wd: Path) returns (r: Planned, ghost contributed: seq<PlanStep>, ghost p: seq<nat>)
    requires InPhaseOrder(cs) && EntriesSafe(cs)
    ensures r.Planned? <==> Acceptable(Claims(cs), wd)
    ensures !r.Planned? ==> FirstProblem(Claims(cs), wd, r)
    ensures r.Planned? <==> forall i, k :: 0 <= i < |cs| && 0 <= k < |cs[i].entries| ==>
      var e := cs[i].entries[k];
      && e.path != [] && e.readable && !(e.ownership == Generated && wd != [] && wd <= e.path)
      && (e.path in cs[i].overrides || forall a, b :: (0 <= a < i && 0 <= b < |cs[a].entries|) || (a == i && 0 <= b < k) ==> cs[a].entries[b].path != e.path)
    ensures r.Unsafe? ==> exists i, k :: 0 <= i < |cs| && 0 <= k < |cs[i].entries| && cs[i].entries[k].path == []
    ensures r.NotReadable? ==> exists i, k :: 0 <= i < |cs| && 0 <= k < |cs[i].entries| && !cs[i].entries[k].readable
    ensures r.GeneratedInWorkingDir? ==> wd != []
    ensures r.GeneratedInWorkingDir? ==>
      exists i, k :: 0 <= i < |cs| && 0 <= k < |cs[i].entries| && cs[i].entries[k].ownership == Generated && wd <= cs[i].entries[k].path
    ensures r.Conflict? ==>
      exists i, k, a, b :: 0 <= a <= i < |cs| && 0 <= k < |cs[i].entries| && 0 <= b < |cs[a].entries| && (a < i || b < k)
        && cs[i].entries[k].path == cs[a].entries[b].path == r.path && r.path !in cs[i].overrides
    ensures r.Planned? ==> Sound(r.steps, cs, wd) && (wd != [] ==> HasDir(contributed, wd))
    ensures r.Planned? ==> Tells(contributed, wd, Claims(cs)) && StablySorted(contributed, p, r.steps) && PhasesRise(contributed)
  {
    hide Sound, StablySorted, PhasesRise, EntriesSafe, Tells, FirstProblem, Acceptable, Claims, EntryFit;
    contributed, p := [], [];
    var b, error;
    ghost var phase;
    b, error, phase := Contribute(cs, wd);
    AcceptableMeans(cs, wd);
    AllFit(cs, wd);
    if error.Some? {
      ProblemOrPlan(Claims(cs), wd, error.value);
      ghost var i, k := ErrorMeans(cs, wd, error.value);
      return error.value, [], [];
    }
    var steps := b.steps;
    if wd != [] && wd !in b.directories {
      var s := PlanStep(true, 0, wd, Seeded, [], "");
      FrontDir(steps, cs, wd, s);
      FrontTells(steps, wd, Claims(cs), s);
      steps := [s] + steps;
    }
    contributed := steps;
    var sorted;
    sorted, p := StableSort(steps);
    SortedIsSound(steps, p, sorted, cs, wd);
    r := Planned(sorted);
  }

  /** The step that writes entry `k` of contribution `i`. */
  function WriteAt(cs: seq<Contribution>, i: nat, k: nat): PlanStep
    requires i < |cs| && k < |cs[i].entries|
  {
    var e := cs[i].entries[k];
    PlanStep(false, cs[i].phase, e.path, e.ownership, e.content, cs[i].resource)
  }

  /** Every directory above a file is made by an earlier step. */
  lemma DirBefore(cs: seq<Contribution>, wd: Path, steps: seq<PlanStep>, i: nat, n: nat)
    requires Sound(steps, cs, wd) && i < |steps| && !steps[i].isDir && 0 < n < |steps[i].path|
    ensures exists j :: 0 <= j < i && steps[j].isDir && steps[j].path == steps[i].path[..n]
  {
    assert DirsMade(steps, i) && MadeBefore(steps, i, steps[i].path[..n]);
  }

  /** What else a plan promises, said of its steps: every directory is made once, a path is written again only by
      a resource that may take it over, and nothing generated is written in the working directory. */
  lemma StepsMean(cs: seq<Contribution>, wd: Path, steps: seq<PlanStep>)
    requires Sound(steps, cs, wd)
    ensures forall i, j :: 0 <= i < j < |steps| && steps[i].isDir && steps[j].isDir ==> steps[i].path != steps[j].path
    ensures forall i, j :: 0 <= i < j < |steps| && !steps[i].isDir && !steps[j].isDir && steps[i].path == steps[j].path ==>
      exists c :: 0 <= c < |cs| && cs[c].resource == steps[j].origin && steps[j].path in cs[c].overrides
    ensures forall i :: 0 <= i < |steps| && steps[i].ownership == Generated && !steps[i].isDir && wd != [] ==> !(wd <= steps[i].path)
  {
    hide Safe;
    forall i, j | 0 <= i < j < |steps| && !steps[i].isDir && !steps[j].isDir && steps[i].path == steps[j].path
      ensures exists c :: 0 <= c < |cs| && cs[c].resource == steps[j].origin && steps[j].path in cs[c].overrides
    {
      assert MayOverride(cs, steps[j].origin, steps[j].path);
    }
  }

  /** Every entry is written and nothing else, and a directory that is made is the working directory or lies above
      some entry. */
  lemma PlanMeans(cs: seq<Contribution>, wd: Path, contributed: seq<PlanStep>, p: seq<nat>, steps: seq<PlanStep>)
    requires Tells(contributed, wd, Claims(cs)) && StablySorted(contributed, p, steps)
    ensures forall i, k :: 0 <= i < |cs| && 0 <= k < |cs[i].entries| ==> WriteAt(cs, i, k) in steps
    ensures forall s :: s in steps && !s.isDir ==> exists i, k :: 0 <= i < |cs| && 0 <= k < |cs[i].entries| && s == WriteAt(cs, i, k)
    ensures forall s :: s in steps && s.isDir && s.path != wd ==>
      exists i, k :: 0 <= i < |cs| && 0 <= k < |cs[i].entries| && s.path < cs[i].entries[k].path
  {
    hide Claims, At, InOrder, Writes;
    var claims := Claims(cs);
    forall i, k | 0 <= i < |cs| && 0 <= k < |cs[i].entries|
      ensures WriteAt(cs, i, k) in steps
    {
      EntryAt(cs, i, k);
      var m := WriteIn(contributed, At(cs, i, k));
      var j := HasPlace(p, |contributed|, m);
      assert steps[j] == WriteAt(cs, i, k);
    }
    forall s | s in steps && !s.isDir
      ensures exists i, k :: 0 <= i < |cs| && 0 <= k < |cs[i].entries| && s == WriteAt(cs, i, k)
    {
      var j :| 0 <= j < |steps| && steps[j] == s;
      var n := InWrites(contributed, p[j]);
      var i, k := EntryOf(cs, n);
      assert s == WriteAt(cs, i, k);
    }
    forall s | s in steps && s.isDir && s.path != wd
      ensures exists i, k :: 0 <= i < |cs| && 0 <= k < |cs[i].entries| && s.path < cs[i].entries[k].path
    {
      var j :| 0 <= j < |steps| && steps[j] == s;
      assert contributed[p[j]] == s && Needed(s, WritesOf(claims));
      var n :| 0 <= n < |WritesOf(claims)| && s.path < WritesOf(claims)[n].path;
      var i, k := EntryOf(cs, n);
    }
  }

  lemma {:induction false} WriteIn(steps: seq<PlanStep>, n: nat) returns (m: nat)
    requires n < |Writes(steps)|
    ensures m < |steps| && steps[m] == Writes(steps)[n]
    decreases |steps|
  {
    var k := |steps| - 1;
    if n < |Writes(steps[..k])| {
      m := WriteIn(steps[..k], n);
    } else {
      m := k;
    }
  }

  lemma {:induction false} InWrites(steps: seq<PlanStep>, m: nat) returns (n: nat)
    requires m < |steps| && !steps[m].isDir
    ensures n < |Writes(steps)| && Writes(steps)[n] == steps[m]
    decreases |steps|
  {
    var k := |steps| - 1;
    if m < k {
      n := InWrites(steps[..k], m);
    } else {
      n := |Writes(steps[..k])|;
    }
  }

  lemma FrontTells(steps: seq<PlanStep>, wd: Path, claims: seq<Claim>, s: PlanStep)
    requires Tells(steps, wd, claims) && s.isDir && IsWorkingDir(s, wd)
    ensures Tells([s] + steps, wd, claims) && HasDir([s] + steps, wd)
  {
    hide Needed;
    WritesFront(s, steps);
    assert ([s] + steps)[0] == s;
  }

  // ----- a plan as the transaction takes it

  function StepFor(s: PlanStep): T.Step {
    if s.isDir then T.CreateDir(s.path) else T.Write(s.path, s.content, s.ownership)
  }

  function StepsFor(steps: seq<PlanStep>): (r: seq<T.Step>)
    ensures |r| == |steps| && forall i :: 0 <= i < |steps| ==> r[i] == StepFor(steps[i])
  {
    seq(|steps|, i requires 0 <= i < |steps| => StepFor(steps[i]))
  }

  lemma NoOverride(cs: seq<Contribution>, origin: string, p: Path)
    requires forall c :: c in cs ==> c.overrides == []
    ensures !MayOverride(cs, origin, p)
  {
    forall i | 0 <= i < |cs|
      ensures p !in cs[i].overrides
    {
      assert cs[i] in cs;
    }
  }

  /** Without overrides no path is written twice. */
  lemma PlanWritesDistinct(steps: seq<PlanStep>, cs: seq<Contribution>, wd: Path)
    requires Sound(steps, cs, wd) && forall c :: c in cs ==> c.overrides == []
    ensures T.DistinctWrites(StepsFor(steps))
  {
    var t := StepsFor(steps);
    forall i, j | 0 <= i < j < |t| && t[i].Write? && t[j].Write?
      ensures t[i].path != t[j].path
    {
      NoOverride(cs, steps[j].origin, steps[j].path);
    }
  }

  // ----- what sorting keeps of overridden paths

  predicate WritesAt(s: PlanStep, q: Path) {
    !s.isDir && s.path == q
  }

  /** Of two writes to one path the one that was contributed first comes first. */
  lemma OverrideOrder(steps: seq<PlanStep>, p: seq<nat>, sorted: seq<PlanStep>, i: nat, j: nat)
    requires StablySorted(steps, p, sorted) && PhasesRise(steps) && i < j < |sorted|
    requires WritesAt(sorted[i], sorted[i].path) && WritesAt(sorted[j], sorted[i].path)
    ensures p[i] < p[j]
  {
    hide Join;
    assert InOrder(steps, p, i, j);
    CompareSwap(PathText(sorted[i].path), PathText(sorted[j].path));
    PhaseLe(steps, p[j], p[i]);
  }

  lemma FirstPlace(steps: seq<PlanStep>, q: Path) returns (i: nat)
    requires HasWrite(steps, q)
    ensures i < |steps| && WritesAt(steps[i], q) && forall k :: 0 <= k < i ==> !WritesAt(steps[k], q)
  {
    i := 0;
    while !WritesAt(steps[i], q)
      invariant i < |steps| && forall k :: 0 <= k < i ==> !WritesAt(steps[k], q)
      decreases |steps| - i
    {
      i := i + 1;
    }
  }

  lemma LastPlace(steps: seq<PlanStep>, q: Path) returns (i: nat)
    requires HasWrite(steps, q)
    ensures i < |steps| && WritesAt(steps[i], q) && forall k :: i < k < |steps| ==> !WritesAt(steps[k], q)
  {
    i := |steps| - 1;
    while !WritesAt(steps[i], q)
      invariant i < |steps| && forall k :: i < k < |steps| ==> !WritesAt(steps[k], q)
      decreases i
    {
      i := i - 1;
    }
  }

  /** A stable order leaves the first and the last content of a path as they were. */
  lemma SortKeepsEnds(steps: seq<PlanStep>, p: seq<nat>, sorted: seq<PlanStep>, q: Path)
    requires StablySorted(steps, p, sorted) && PhasesRise(steps) && HasWrite(sorted, q)
    ensures var a, b := StepsFor(steps), StepsFor(sorted);
      && q in T.FirstOf(a) && q in T.FirstOf(b) && T.FirstOf(a)[q] == T.FirstOf(b)[q]
      && q in T.FilesOf(a) && q in T.FilesOf(b) && T.FilesOf(a)[q] == T.FilesOf(b)[q]
  {
    hide InOrder, Before, PhasesRise;
    var a, b := StepsFor(steps), StepsFor(sorted);
    var i := FirstPlace(sorted, q);
    forall k | 0 <= k < p[i]
      ensures !WritesAt(steps[k], q)
    {
      var j := HasPlace(p, |steps|, k);
      if WritesAt(steps[k], q) && i < j {
        OverrideOrder(steps, p, sorted, i, j);
      }
    }
    assert a[p[i]] == b[i] == StepFor(sorted[i]);
    T.FirstIs(a, p[i]);
    T.FirstIs(b, i);
    var l := LastPlace(sorted, q);
    forall k | p[l] < k < |steps|
      ensures !WritesAt(steps[k], q)
    {
      var j := HasPlace(p, |steps|, k);
      if WritesAt(steps[k], q) && j < l {
        OverrideOrder(steps, p, sorted, j, l);
      }
    }
    assert a[p[l]] == b[l] == StepFor(sorted[l]);
    T.LastIs(a, p[l]);
    T.LastIs(b, l);
  }

  /** Directories do not matter to what is written. */
  lemma {:induction false} OnlyWritesCount(steps: seq<PlanStep>)
    ensures T.FirstOf(StepsFor(steps)) == T.FirstOf(StepsFor(Writes(steps)))
    ensures T.FilesOf(StepsFor(steps)) == T.FilesOf(StepsFor(Writes(steps)))
    decreases |steps|
  {
    if steps != [] {
      var n := |steps| - 1;
      var t, w := StepsFor(steps), Writes(steps[..n]);
      OnlyWritesCount(steps[..n]);
      assert t[..n] == StepsFor(steps[..n]) && t[n] == StepFor(steps[n]);
      if !steps[n].isDir {
        var u := StepsFor(w + [steps[n]]);
        assert Writes(steps) == w + [steps[n]] && u[..|w|] == StepsFor(w) && u[|w|] == StepFor(steps[n]);
      } else {
        assert Writes(steps) == w;
      }
    }
  }

  /** The entries as steps, in the order they are taken up. */
  function EntrySteps(claims: seq<Claim>): seq<T.Step> {
    StepsFor(WritesOf(claims))
  }

  /** The plan's steps leave what the entries leave, and the same was there first. */
  lemma PlanWritesEntries(steps: seq<PlanStep>, wd: Path, claims: seq<Claim>, p: seq<nat>, sorted: seq<PlanStep>)
    requires Tells(steps, wd, claims) && StablySorted(steps, p, sorted) && PhasesRise(steps)
    ensures T.FirstOf(StepsFor(sorted)) == T.FirstOf(EntrySteps(claims))
    ensures T.FilesOf(StepsFor(sorted)) == T.FilesOf(EntrySteps(claims))
  {
    hide InOrder, Before, PhasesRise, T.FirstOf, T.FilesOf;
    OnlyWritesCount(steps);
    var a, b := StepsFor(steps), StepsFor(sorted);
    forall q
      ensures q in T.FirstOf(a) <==> q in T.FirstOf(b)
      ensures q in T.FilesOf(a) <==> q in T.FilesOf(b)
      ensures q in T.FirstOf(a) && q in T.FirstOf(b) ==> T.FirstOf(a)[q] == T.FirstOf(b)[q]
      ensures q in T.FilesOf(a) && q in T.FilesOf(b) ==> T.FilesOf(a)[q] == T.FilesOf(b)[q]
    {
      T.WrittenHaveContent(a, q);
      T.WrittenHaveContent(b, q);
      WritesSame(steps, q);
      WritesSame(sorted, q);
      SortKeepsWrites(steps, p, sorted, q);
      if HasWrite(sorted, q) {
        SortKeepsEnds(steps, p, sorted, q);
      }
    }
    assert T.FirstOf(a) == T.FirstOf(b) && T.FilesOf(a) == T.FilesOf(b);
  }

  lemma WritesSame(steps: seq<PlanStep>, q: Path)
    ensures T.Writes(StepsFor(steps), q) <==> HasWrite(steps, q)
  {
    var t := StepsFor(steps);
    if HasWrite(steps, q) {
      var i :| 0 <= i < |steps| && !steps[i].isDir && steps[i].path == q;
      assert t[i].Write? && t[i].path == q;
    }
  }

  lemma SortKeepsWrites(steps: seq<PlanStep>, p: seq<nat>, sorted: seq<PlanStep>, q: Path)
    requires StablySorted(steps, p, sorted)
    ensures HasWrite(sorted, q) <==> HasWrite(steps, q)
  {
    hide InOrder;
    if i :| 0 <= i < |steps| && !steps[i].isDir && steps[i].path == q {
      var j := HasPlace(p, |steps|, i);
      assert sorted[j] == steps[i];
    }
  }
}
