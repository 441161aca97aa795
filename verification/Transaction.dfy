/** Applying a generation plan: everything is built in a staging directory beside the target and landed
    with one rename, whatever fails on the way. */
module Transaction {
  import opened Bits
  import opened FileSystem

  datatype Step = CreateDir(path: Path) | Write(path: Path, content: seq<byte>, ownership: Ownership)

  datatype Outcome = Done(directories: nat, files: nat, rows: seq<Row>) | Exists | Nested | Failed

  /** Where the metadata record goes, under the workspace. */
  const RecordPath: Path := [".squared", "metadata.json"]

  /** The staging directory: a sibling of the target with a telling name. */
  function StagingFor(target: Path): (s: Path)
    requires target != []
    ensures |s| == |target| && s != target
  {
    var n := |target| - 1;
    var s := target[..n] + ["." + target[n] + ".squared-tmp"];
    assert s[n] != target[n] by {
      assert |s[n]| > |target[n]|;
    }
    s
  }

  // ----- safety: nothing appears at the target before the rename

  /** Parents of everything are directories. */
  ghost predicate TreeOk(t: Tree) {
    forall q :: q in t && q != [] ==> q[..|q| - 1] in t && t[q[..|q| - 1]].Directory?
  }

  lemma {:induction false} NothingBelow(t: Tree, p: Path, q: Path)
    requires TreeOk(t) && p !in t && p <= q
    ensures q !in t
    decreases |q|
  {
    if |q| > |p| {
      NothingBelow(t, p, q[..|q| - 1]);
    } else {
      assert p == q;
    }
  }

  lemma FreeIsAbsent(t: Tree, p: Path)
    requires TreeOk(t) && p !in t
    ensures Absent(t, p)
  {
    forall q: Path | p <= q
      ensures q !in t
    {
      NothingBelow(t, p, q);
    }
  }

  lemma PrefixTrans(a: Path, b: Path, c: Path)
    ensures a <= b && b <= c ==> a <= c
  {
  }

  lemma AddsElsewhere(t: Tree, u: Tree, p: Path, target: Path)
    requires OnlyAdds(t, u, p) && Absent(t, target) && !(target <= p)
    ensures Absent(u, target)
  {
    forall q | q in u
      ensures !(target <= q)
    {
      assert q in t || q <= p;
      PrefixTrans(target, q, p);
    }
  }

  lemma OnePrefix(a: Path, b: Path, p: Path)
    requires |a| == |b|
    ensures a <= p && b <= p ==> a == b
  {
    if a <= p && b <= p {
      assert a == p[..|a|] == b;
    }
  }

  lemma BesideTarget(target: Path, p: Path)
    requires target != [] && StagingFor(target) <= p
    ensures !(target <= p)
  {
    OnePrefix(target, StagingFor(target), p);
  }

  lemma RemovedElsewhere(t: Tree, p: Path, kept: set<Path>, target: Path)
    requires Absent(t, target)
    ensures Absent(Without(t, p, kept), target)
  {
  }

  /** Every state the tree went through since `h` had nothing at the target. */
  ghost predicate NeverSeen(history: seq<Tree>, h: nat, target: Path) {
    forall i :: h <= i < |history| ==> Absent(history[i], target)
  }

  // ----- what has been staged

  /** Under `root` there are just these files. */
  ghost predicate Holds(t: Tree, root: Path, files: map<Path, Content>) {
    && (forall w :: w in files ==> root + w in t && t[root + w] == File(files[w]))
    && (forall q :: q in t && root <= q && t[q].File? ==> q[|root|..] in files)
  }

  lemma HoldsNothing(t: Tree, root: Path)
    requires Absent(t, root)
    ensures Holds(WithDirs(t, root, |root|), root, map[])
  {
  }

  lemma HoldsAfterDir(t: Tree, root: Path, files: map<Path, Content>, p: Path)
    requires Holds(t, root, files) && NoFileOnTheWay(t, root + p)
    ensures Holds(WithDirs(t, root + p, |root + p|), root, files)
  {
  }

  lemma HoldsAfterWrite(t: Tree, root: Path, files: map<Path, Content>, p: Path, c: Content, u: Tree)
    requires Holds(t, root, files) && p != []
    requires u == WithDirs(t, (root + p)[..|root + p| - 1], |root + p| - 1)[root + p := File(c)]
    ensures Holds(u, root, files[p := c])
  {
    assert (root + p)[|root|..] == p;
    forall w | w in files[p := c]
      ensures root + w in u && u[root + w] == File(files[p := c][w])
    {
      if w != p {
        assert (root + w)[|root|..] == w;
      }
    }
  }

  lemma HoldsAfterRename(t: Tree, from: Path, to: Path, files: map<Path, Content>)
    requires Holds(t, from, files) && Absent(t, to) && !(from <= to) && !(to <= from)
    ensures Holds(Moved(t, from, to), to, files) && Absent(Moved(t, from, to), from)
  {
    hide Targets, Absent;
    var u := Moved(t, from, to);
    TargetsAre(t, from, to);
    forall w | w in files
      ensures to + w in u && u[to + w] == File(files[w])
    {
      assert from <= from + w && (from + w)[|from|..] == w;
      assert to + w in Targets(t, from, to);
      assert (to + w)[|to|..] == w;
    }
    forall q | q in u && to <= q && u[q].File?
      ensures q[|to|..] in files
    {
      OnlyMoved(t, from, to, q);
      assert (from + q[|to|..])[|from|..] == q[|to|..];
    }
    LeavesNothing(t, from, to);
  }

  /** What is at or below the new place came from the old one. */
  lemma OnlyMoved(t: Tree, from: Path, to: Path, q: Path)
    requires Absent(t, to) && q in Moved(t, from, to) && to <= q
    ensures from + q[|to|..] in t && Moved(t, from, to)[q] == t[from + q[|to|..]]
  {
  }

  lemma LeavesNothing(t: Tree, from: Path, to: Path)
    requires !(from <= to) && !(to <= from)
    ensures Absent(Moved(t, from, to), from)
  {
    hide Targets;
    TargetsAre(t, from, to);
    forall q | q in Moved(t, from, to)
      ensures !(from <= q)
    {
      if q in Targets(t, from, to) && from <= q {
        Apart(from, to, q);
      }
    }
  }

  lemma TargetsAre(t: Tree, from: Path, to: Path)
    ensures forall q :: q in t && from <= q ==> to + q[|from|..] in Targets(t, from, to)
    ensures forall r :: r in Targets(t, from, to) ==> to <= r && from + r[|to|..] in t
  {
  }

  lemma Apart(a: Path, b: Path, q: Path)
    requires a <= q && b <= q
    ensures a <= b || b <= a
  {
    if |a| <= |b| {
      assert b[..|a|] == q[..|a|] == a;
    } else {
      assert a[..|b|] == q[..|b|] == b;
    }
  }

  // ----- which steps go together

  /** A file that stands where the other step needs a directory. */
  predicate Blocks(a: Step, b: Step) {
    a.Write? && (a.path < b.path || (b.CreateDir? && a.path == b.path))
  }

  predicate Compatible(steps: seq<Step>, s: Step) {
    forall i :: 0 <= i < |steps| ==> !Blocks(steps[i], s) && !Blocks(s, steps[i])
  }

  /** No step is in the way of another. */
  predicate Fit(steps: seq<Step>) {
    forall i, j :: 0 <= i < |steps| && 0 <= j < |steps| ==> !Blocks(steps[i], steps[j])
  }

  lemma FitSnoc(steps: seq<Step>, s: Step)
    ensures Fit(steps + [s]) <==> Fit(steps) && Compatible(steps, s)
  {
    hide Blocks;
    var t := steps + [s];
    assert !Blocks(s, s) by { NotInItsOwnWay(s); }
    assert forall i :: 0 <= i < |steps| ==> t[i] == steps[i];
    assert t[|steps|] == s;
    if Fit(t) {
      forall i | 0 <= i < |steps|
        ensures !Blocks(steps[i], s) && !Blocks(s, steps[i])
      {
        assert !Blocks(t[i], t[|steps|]) && !Blocks(t[|steps|], t[i]);
      }
    }
  }

  lemma NotInItsOwnWay(s: Step)
    ensures !Blocks(s, s)
  {
  }

  lemma {:induction false} FitPrefix(steps: seq<Step>, k: nat)
    requires k <= |steps| && Fit(steps)
    ensures Fit(steps[..k])
  {
    hide Blocks;
    forall i, j | 0 <= i < k && 0 <= j < k
      ensures !Blocks(steps[..k][i], steps[..k][j])
    {
      assert !Blocks(steps[i], steps[j]);
    }
  }

  /** The directories above a step, and the step itself. */
  ghost predicate Stood(t: Tree, root: Path, s: Step) {
    && (forall w :: w < s.path || (s.CreateDir? && w == s.path) ==> root + w in t && t[root + w].Directory?)
    && (s.Write? ==> root + s.path in t && t[root + s.path].File?)
  }

  predicate OfSome(steps: seq<Step>, w: Path) {
    exists i :: 0 <= i < |steps| && w <= steps[i].path
  }

  /** All steps so far are in place under `root`, and nothing else is. */
  ghost predicate Stands(t: Tree, root: Path, steps: seq<Step>) {
    && (forall n :: 0 <= n <= |root| ==> root[..n] in t && t[root[..n]].Directory?)
    && (forall i :: 0 <= i < |steps| ==> Stood(t, root, steps[i]))
    && forall q :: q in t && root < q ==> OfSome(steps, q[|root|..])
  }

  lemma FileIsStep(t: Tree, root: Path, steps: seq<Step>, w: Path)
    requires Stands(t, root, steps) && w != [] && root + w in t && t[root + w].File?
    ensures exists i :: 0 <= i < |steps| && steps[i].Write? && steps[i].path == w
  {
    assert root < root + w && (root + w)[|root|..] == w;
    var i := StepAt(steps, w);
    assert Stood(t, root, steps[i]);
  }

  lemma DirIsStep(t: Tree, root: Path, steps: seq<Step>, w: Path)
    requires Stands(t, root, steps) && w != [] && root + w in t && t[root + w].Directory?
    ensures exists i :: 0 <= i < |steps| && (w < steps[i].path || (steps[i].CreateDir? && w == steps[i].path))
  {
    assert root < root + w && (root + w)[|root|..] == w;
    var i := StepAt(steps, w);
    assert Stood(t, root, steps[i]);
    assert w < steps[i].path || w == steps[i].path;
  }

  lemma StepAt(steps: seq<Step>, w: Path) returns (i: nat)
    requires OfSome(steps, w)
    ensures i < |steps| && w <= steps[i].path
  {
    i :| 0 <= i < |steps| && w <= steps[i].path;
  }

  /** A file stands on the way to `root + p` just when a step wrote it. */
  lemma OnlyStepsOnTheWay(t: Tree, root: Path, steps: seq<Step>, p: Path)
    requires Stands(t, root, steps)
    ensures NoFileOnTheWay(t, root + p) <==> forall i :: 0 <= i < |steps| && steps[i].Write? ==> !(steps[i].path <= p)
  {
    if NoFileOnTheWay(t, root + p) {
      forall i | 0 <= i < |steps| && steps[i].Write?
        ensures !(steps[i].path <= p)
      {
        assert Stood(t, root, steps[i]);
        Splice(root, p, steps[i].path);
      }
    } else {
      var k :| 0 <= k <= |root + p| && (root + p)[..k] in t && !t[(root + p)[..k]].Directory?;
      Front(root, p, k);
      if k > |root| {
        FileIsStep(t, root, steps, p[..k - |root|]);
      }
    }
  }

  lemma Splice(root: Path, p: Path, w: Path)
    ensures w <= p ==> |root| + |w| <= |root + p| && (root + p)[..|root| + |w|] == root + w
  {
  }

  lemma Front(root: Path, p: Path, k: nat)
    requires k <= |root + p|
    ensures k <= |root| ==> (root + p)[..k] == root[..k]
    ensures k > |root| ==> (root + p)[..k] == root + p[..k - |root|]
  {
  }

  /** A step can be staged just when it is compatible with those staged. */
  lemma Stageable(t: Tree, root: Path, steps: seq<Step>, s: Step)
    requires Stands(t, root, steps) && s.path != []
    ensures s.CreateDir? ==> (NoFileOnTheWay(t, root + s.path) <==> Compatible(steps, s))
    ensures s.Write? ==> (Writable(t, root + s.path) <==> Compatible(steps, s))
  {
    hide Stands, NoFileOnTheWay;
    if s.CreateDir? {
      OnlyStepsOnTheWay(t, root, steps, s.path);
    } else {
      var up := s.path[..|s.path| - 1];
      assert (root + s.path)[..|root + s.path| - 1] == root + up;
      OnlyStepsOnTheWay(t, root, steps, up);
      forall i | 0 <= i < |steps|
        ensures steps[i].path <= up <==> steps[i].path < s.path
      {
      }
      NoDirAt(t, root, steps, s);
    }
  }

  lemma NoDirAt(t: Tree, root: Path, steps: seq<Step>, s: Step)
    requires Stands(t, root, steps) && s.path != [] && s.Write?
    ensures (root + s.path in t ==> t[root + s.path].File?) <==> forall i :: 0 <= i < |steps| ==> !Blocks(s, steps[i])
  {
    if root + s.path in t && t[root + s.path].Directory? {
      DirIsStep(t, root, steps, s.path);
    }
    if i :| 0 <= i < |steps| && Blocks(s, steps[i]) {
      assert Stood(t, root, steps[i]);
    }
  }

  lemma StandsAfterDir(t: Tree, root: Path, steps: seq<Step>, s: Step)
    requires Stands(t, root, steps) && s.CreateDir? && NoFileOnTheWay(t, root + s.path)
    ensures Stands(WithDirs(t, root + s.path, |root + s.path|), root, steps + [s])
  {
    var u := WithDirs(t, root + s.path, |root + s.path|);
    assert Stood(u, root, s) by {
      forall w | w <= s.path
        ensures root + w in u && u[root + w].Directory?
      {
        OnItsWay(t, root + s.path, |root + s.path|, root + w);
      }
    }
    StandsMore(t, root, steps, u, s);
  }

  /** A place on the way holds a directory afterwards. */
  lemma OnItsWay(t: Tree, p: Path, n: nat, q: Path)
    requires n <= |p| && q <= p && |q| <= n && NoFileOnTheWay(t, p[..n])
    ensures q in WithDirs(t, p, n) && WithDirs(t, p, n)[q].Directory?
  {
    assert q == p[..n][..|q|];
  }

  /** A tree that only gained what a step adds. */
  lemma StandsMore(t: Tree, root: Path, steps: seq<Step>, u: Tree, s: Step)
    requires Stands(t, root, steps) && Stood(u, root, s)
    requires forall q :: q in t ==> q in u && u[q].File? == t[q].File?
    requires forall q :: q in u && q !in t ==> q <= root + s.path
    ensures Stands(u, root, steps + [s])
  {
    var all := steps + [s];
    forall i | 0 <= i < |all|
      ensures Stood(u, root, all[i])
    {
      if i < |steps| {
        assert Stood(t, root, steps[i]);
      }
    }
    forall q | q in u && root < q
      ensures OfSome(all, q[|root|..])
    {
      if q in t {
        var i :| 0 <= i < |steps| && q[|root|..] <= steps[i].path;
        assert all[i] == steps[i];
      } else {
        assert all[|steps|] == s;
        assert q == (root + s.path)[..|q|];
        assert q[|root|..] == s.path[..|q| - |root|];
      }
    }
  }

  lemma StandsAfterWrite(t: Tree, root: Path, steps: seq<Step>, s: Step, c: Content, u: Tree)
    requires Stands(t, root, steps) && s.Write? && s.path != [] && Writable(t, root + s.path)
    requires u == WithDirs(t, (root + s.path)[..|root + s.path| - 1], |root + s.path| - 1)[root + s.path := File(c)]
    ensures Stands(u, root, steps + [s])
  {
    hide Stands, WithDirs, NoFileOnTheWay;
    var p := root + s.path;
    var up := p[..|p| - 1];
    assert up[..|up|] == up;
    assert Stood(u, root, s) by {
      forall w | w < s.path
        ensures root + w in u && u[root + w].Directory?
      {
        assert root + w <= up;
        OnItsWay(t, up, |up|, root + w);
      }
    }
    WriteAdds(t, p, c);
    StandsMore(t, root, steps, u, s);
  }

  /** Writing a file takes nothing away and adds no more than the way to it. */
  lemma WriteAdds(t: Tree, p: Path, c: Content)
    requires p != [] && Writable(t, p)
    ensures var u := WithDirs(t, p[..|p| - 1], |p| - 1)[p := File(c)];
      (forall q :: q in t ==> q in u && u[q].File? == t[q].File?) && (forall q :: q in u && q !in t ==> q <= p)
  {
    hide NoFileOnTheWay;
  }

  lemma StandsNothing(t: Tree, root: Path)
    requires Absent(t, root) && NoFileOnTheWay(t, root)
    ensures Stands(WithDirs(t, root, |root|), root, [])
  {
    assert root[..|root|] == root;
    forall n | 0 <= n <= |root|
      ensures root[..n] in WithDirs(t, root, |root|) && WithDirs(t, root, |root|)[root[..n]].Directory?
    {
      OnItsWay(t, root, |root|, root[..n]);
    }
  }

  // ----- the transaction

  /** The files a list of steps writes, the last one to a path counting. */
  function FilesOf(steps: seq<Step>): map<Path, Content> {
    if steps == [] then map[]
    else
      var m, s := FilesOf(steps[..|steps| - 1]), steps[|steps| - 1];
      if s.Write? then m[s.path := Plain(s.content)] else m
  }

  /** What was first written to each path. */
  function FirstOf(steps: seq<Step>): map<Path, seq<byte>> {
    if steps == [] then map[]
    else
      var m, s := FirstOf(steps[..|steps| - 1]), steps[|steps| - 1];
      if s.Write? && s.path !in m then m[s.path := s.content] else m
  }

  /** A row for each step that writes, with the hash of what was `first` written to its path. */
  function RowsFor(steps: seq<Step>, first: map<Path, seq<byte>>, hash: seq<byte> -> string): seq<Row> {
    if steps == [] then []
    else
      var m, s := RowsFor(steps[..|steps| - 1], first, hash), steps[|steps| - 1];
      if s.Write? then m + [Row(s.path, s.ownership, if s.path in first then hash(first[s.path]) else "")] else m
  }

  function RowsOf(steps: seq<Step>, hash: seq<byte> -> string): seq<Row> {
    RowsFor(steps, FirstOf(steps), hash)
  }

  /** No path is written twice. */
  predicate DistinctWrites(steps: seq<Step>) {
    forall i, j :: 0 <= i < j < |steps| && steps[i].Write? && steps[j].Write? ==> steps[i].path != steps[j].path
  }

  predicate Writes(steps: seq<Step>, p: Path) {
    exists i :: 0 <= i < |steps| && steps[i].Write? && steps[i].path == p
  }

  /** The paths written are those that have a first and a last content. */
  lemma {:induction false} WrittenHaveContent(steps: seq<Step>, p: Path)
    ensures Writes(steps, p) <==> p in FirstOf(steps)
    ensures Writes(steps, p) <==> p in FilesOf(steps)
    ensures p in FilesOf(steps) ==> FilesOf(steps)[p].Plain?
    decreases |steps|
  {
    if steps != [] {
      var front, s := steps[..|steps| - 1], steps[|steps| - 1];
      WrittenHaveContent(front, p);
      assert forall i :: 0 <= i < |front| ==> front[i] == steps[i];
      if Writes(front, p) {
        var i :| 0 <= i < |front| && front[i].Write? && front[i].path == p;
        assert steps[i].Write? && steps[i].path == p;
      }
    }
  }

  /** The first content of a path is that of the first step to write there. */
  lemma {:induction false} FirstIs(steps: seq<Step>, i: nat)
    requires i < |steps| && steps[i].Write? && !Writes(steps[..i], steps[i].path)
    ensures steps[i].path in FirstOf(steps) && FirstOf(steps)[steps[i].path] == steps[i].content
    decreases |steps|
  {
    var front := steps[..|steps| - 1];
    if i < |front| {
      assert front[..i] == steps[..i];
      FirstIs(front, i);
    } else {
      WrittenHaveContent(front, steps[i].path);
    }
  }

  /** The file at a path is that of the last step to write there. */
  lemma {:induction false} LastIs(steps: seq<Step>, i: nat)
    requires i < |steps| && steps[i].Write? && forall k :: i < k < |steps| && steps[k].Write? ==> steps[k].path != steps[i].path
    ensures steps[i].path in FilesOf(steps) && FilesOf(steps)[steps[i].path] == Plain(steps[i].content)
    decreases |steps|
  {
    if i < |steps| - 1 {
      LastIs(steps[..|steps| - 1], i);
    }
  }

  /** Hashes by path, as the step loop notes them, looked up by the first entry for a path. */
  function FirstHash(hashes: seq<(Path, string)>, p: Path): string {
    if hashes == [] then "" else if hashes[0].0 == p then hashes[0].1 else FirstHash(hashes[1..], p)
  }

  function HashesOf(steps: seq<Step>, hash: seq<byte> -> string): seq<(Path, string)> {
    if steps == [] then []
    else
      var m, s := HashesOf(steps[..|steps| - 1], hash), steps[|steps| - 1];
      if s.Write? then m + [(s.path, hash(s.content))] else m
  }

  predicate Noted(hashes: seq<(Path, string)>, p: Path) {
    exists i :: 0 <= i < |hashes| && hashes[i].0 == p
  }

  lemma {:induction false} FirstHashSnoc(hashes: seq<(Path, string)>, x: (Path, string), p: Path)
    ensures FirstHash(hashes + [x], p) == if Noted(hashes, p) then FirstHash(hashes, p) else if x.0 == p then x.1 else ""
    decreases |hashes|
  {
    if hashes != [] {
      var tail := hashes[1..];
      assert (hashes + [x])[1..] == tail + [x];
      FirstHashSnoc(tail, x, p);
      if hashes[0].0 != p {
        assert Noted(tail, p) ==> Noted(hashes, p) by {
          if Noted(tail, p) {
            var i :| 0 <= i < |tail| && tail[i].0 == p;
            assert hashes[i + 1].0 == p;
          }
        }
        assert Noted(hashes, p) ==> Noted(tail, p) by {
          if Noted(hashes, p) {
            var i :| 0 <= i < |hashes| && hashes[i].0 == p;
            assert tail[i - 1].0 == p;
          }
        }
      }
    }
  }

  /** The hash found for a path is that of what was first written there. */
  lemma {:induction false} HashFound(steps: seq<Step>, hash: seq<byte> -> string, p: Path)
    ensures Noted(HashesOf(steps, hash), p) <==> p in FirstOf(steps)
    ensures FirstHash(HashesOf(steps, hash), p) == if p in FirstOf(steps) then hash(FirstOf(steps)[p]) else ""
    decreases |steps|
  {
    if steps != [] {
      var front, s := steps[..|steps| - 1], steps[|steps| - 1];
      HashFound(front, hash, p);
      if s.Write? {
        NotedSnoc(HashesOf(front, hash), (s.path, hash(s.content)), p);
        FirstHashSnoc(HashesOf(front, hash), (s.path, hash(s.content)), p);
      }
    }
  }

  lemma NotedSnoc(hashes: seq<(Path, string)>, x: (Path, string), p: Path)
    ensures Noted(hashes + [x], p) <==> Noted(hashes, p) || x.0 == p
  {
    var h := hashes + [x];
    assert h[|hashes|] == x;
    if Noted(hashes, p) {
      var i :| 0 <= i < |hashes| && hashes[i].0 == p;
      assert h[i].0 == p;
    }
  }

  /** Step `j` is the first to write at `p`. */
  predicate FirstToWrite(steps: seq<Step>, j: nat, p: Path) {
    j < |steps| && steps[j].Write? && steps[j].path == p && forall m :: 0 <= m < j && steps[m].Write? ==> steps[m].path != p
  }

  lemma FirstWriter(steps: seq<Step>, i: nat) returns (j: nat)
    requires i < |steps| && steps[i].Write?
    ensures FirstToWrite(steps, j, steps[i].path)
    ensures steps[i].path in FirstOf(steps) && FirstOf(steps)[steps[i].path] == steps[j].content
  {
    j := 0;
    while !(steps[j].Write? && steps[j].path == steps[i].path)
      invariant j <= i && forall m :: 0 <= m < j && steps[m].Write? ==> steps[m].path != steps[i].path
      decreases i - j
    {
      j := j + 1;
    }
    FirstIs(steps, j);
  }

  /** The row of step `i`, with the hash of what step `j` wrote, the first to write there. */
  predicate RowOf(steps: seq<Step>, hash: seq<byte> -> string, row: Row, i: nat, j: nat) {
    && i < |steps| && steps[i].Write? && row.path == steps[i].path && row.ownership == steps[i].ownership
    && FirstToWrite(steps, j, row.path) && row.hash == hash(steps[j].content)
  }

  lemma RowOfStep(steps: seq<Step>, hash: seq<byte> -> string, i: nat) returns (row: Row, j: nat)
    requires i < |steps| && steps[i].Write?
    ensures var p := steps[i].path; p in FirstOf(steps) && row == Row(p, steps[i].ownership, hash(FirstOf(steps)[p]))
    ensures RowOf(steps, hash, row, i, j)
  {
    j := FirstWriter(steps, i);
    row := Row(steps[i].path, steps[i].ownership, hash(FirstOf(steps)[steps[i].path]));
  }

  /** The rows are those of the first `n` steps that write, in order: row `k` is of step `at[k]`, with the hash
      of what step `from[k]` wrote. */
  predicate Listed(steps: seq<Step>, n: nat, hash: seq<byte> -> string, rows: seq<Row>, at: seq<nat>, from: seq<nat>)
    requires n <= |steps|
  {
    && |at| == |from| == |rows| && (forall j, k :: 0 <= j < k < |at| ==> at[j] < at[k])
    && (forall k :: 0 <= k < |at| ==> at[k] < n && RowOf(steps, hash, rows[k], at[k], from[k]))
    && forall i :: 0 <= i < n && steps[i].Write? ==> i in at
  }

  lemma ListedMore(steps: seq<Step>, n: nat, hash: seq<byte> -> string, rows: seq<Row>, at: seq<nat>, from: seq<nat>, row: Row, j: nat)
    requires n < |steps| && Listed(steps, n, hash, rows, at, from) && RowOf(steps, hash, row, n, j)
    ensures Listed(steps, n + 1, hash, rows + [row], at + [n], from + [j])
  {
    hide RowOf;
    assert (at + [n])[|at|] == n && forall i :: i in at ==> i in at + [n];
  }

  lemma RowsNext(steps: seq<Step>, n: nat, first: map<Path, seq<byte>>, hash: seq<byte> -> string)
    requires n < |steps|
    ensures var s, before := steps[n], RowsFor(steps[..n], first, hash);
      RowsFor(steps[..n + 1], first, hash)
      == if s.Write? then before + [Row(s.path, s.ownership, if s.path in first then hash(first[s.path]) else "")] else before
  {
    assert steps[..n + 1][..n] == steps[..n];
  }

  lemma {:induction false} RowsInOrder(steps: seq<Step>, n: nat, hash: seq<byte> -> string) returns (at: seq<nat>, from: seq<nat>)
    requires n <= |steps|
    ensures Listed(steps, n, hash, RowsFor(steps[..n], FirstOf(steps), hash), at, from)
    decreases n
  {
    at, from := [], [];
    if n > 0 {
      at, from := RowsInOrder(steps, n - 1, hash);
      hide RowOf, Listed, FirstOf, RowsFor;
      var m, s := n - 1, steps[n - 1];
      RowsNext(steps, m, FirstOf(steps), hash);
      if s.Write? {
        var row, j := RowOfStep(steps, hash, m);
        ListedMore(steps, m, hash, RowsFor(steps[..m], FirstOf(steps), hash), at, from, row, j);
        at, from := at + [m], from + [j];
      } else {
        ListedSkip(steps, m, hash, RowsFor(steps[..m], FirstOf(steps), hash), at, from);
      }
    }
  }

  lemma ListedSkip(steps: seq<Step>, n: nat, hash: seq<byte> -> string, rows: seq<Row>, at: seq<nat>, from: seq<nat>)
    requires n < |steps| && Listed(steps, n, hash, rows, at, from) && !steps[n].Write?
    ensures Listed(steps, n + 1, hash, rows, at, from)
  {
    hide RowOf;
  }

  /** The rows stand for the steps that write, in order (`at`); each has its step's path and ownership and the
      hash of what the first step to write there (`from`) wrote. */
  lemma RowsMean(steps: seq<Step>, hash: seq<byte> -> string) returns (at: seq<nat>, from: seq<nat>)
    ensures var rows := RowsOf(steps, hash);
      && |at| == |from| == |rows| && (forall j, k :: 0 <= j < k < |at| ==> at[j] < at[k])
      && (forall k :: 0 <= k < |at| ==> at[k] < |steps| && steps[at[k]].Write?)
      && (forall k :: 0 <= k < |at| ==> rows[k].path == steps[at[k]].path && rows[k].ownership == steps[at[k]].ownership)
      && (forall k :: 0 <= k < |at| ==> from[k] < |steps| && steps[from[k]].Write? && steps[from[k]].path == rows[k].path)
      && (forall k, m :: 0 <= k < |at| && 0 <= m < from[k] && steps[m].Write? ==> steps[m].path != rows[k].path)
      && (forall k :: 0 <= k < |at| ==> rows[k].hash == hash(steps[from[k]].content))
    ensures forall i :: 0 <= i < |steps| && steps[i].Write? ==> i in at
  {
    at, from := RowsInOrder(steps, |steps|, hash);
    assert steps[..|steps|] == steps;
  }

  /** The steps of one kind, by place. */
  ghost function OfKind(steps: seq<Step>, dirs: bool): set<nat> {
    set i: nat | i < |steps| && steps[i].CreateDir? == dirs
  }

  lemma OneMoreOfKind(steps: seq<Step>, s: Step)
    ensures |OfKind(steps + [s], true)| == |OfKind(steps, true)| + if s.CreateDir? then 1 else 0
    ensures |OfKind(steps + [s], false)| == |OfKind(steps, false)| + if s.CreateDir? then 0 else 1
  {
    var t, n := steps + [s], |steps|;
    assert OfKind(t, s.CreateDir?) == OfKind(steps, s.CreateDir?) + {n};
    assert OfKind(t, !s.CreateDir?) == OfKind(steps, !s.CreateDir?);
  }

  lemma KindsOf(steps: seq<Step>)
    ensures OfKind(steps, true) == set i: nat | i < |steps| && steps[i].CreateDir?
    ensures OfKind(steps, false) == set i: nat | i < |steps| && steps[i].Write?
  {
  }

  /** The provenance table, a row for each write. */
  method BuildRows(steps: seq<Step>, hashes: seq<(Path, string)>, ghost hash: seq<byte> -> string) returns (rows: seq<Row>)
    requires hashes == HashesOf(steps, hash)
    ensures rows == RowsOf(steps, hash)
  {
    rows := [];
    for i := 0 to |steps|
      invariant rows == RowsFor(steps[..i], FirstOf(steps), hash)
    {
      assert steps[..i + 1][..i] == steps[..i];
      if steps[i].Write? {
        HashFound(steps, hash, steps[i].path);
        rows := rows + [Row(steps[i].path, steps[i].ownership, FirstHash(hashes, steps[i].path))];
      }
    }
    assert steps[..|steps|] == steps;
  }

  // ----- applying a plan

  /** Apart from the staging directory and the target, the tree is as before, but for directories on the
      way to the target. */
  ghost predicate Elsewhere(t: Tree, u: Tree, target: Path)
    requires target != []
  {
    && (forall q :: q in t && !(StagingFor(target) <= q) ==> q in u && u[q] == t[q])
    && (forall q :: q in u && q !in t && !(StagingFor(target) <= q) ==> q <= target || target <= q)
  }

  /** The target holds just the files of the plan and the record. */
  ghost predicate Landed(t: Tree, target: Path, steps: seq<Step>, rows: seq<Row>) {
    Holds(t, target, FilesOf(steps)[RecordPath := Record(rows)])
  }

  /** Step `i` writes, and none after it writes there. */
  predicate LastToWrite(steps: seq<Step>, i: nat)
    requires i < |steps|
  {
    steps[i].Write? && forall k :: i < k < |steps| && steps[k].Write? ==> steps[k].path != steps[i].path
  }

  /** What has landed: at each path written the content written last, at the record's path the record, and no
      other file. */
  lemma LandedMeans(t: Tree, target: Path, steps: seq<Step>, rows: seq<Row>)
    requires Landed(t, target, steps, rows)
    ensures var r := target + [".squared", "metadata.json"]; r in t && t[r] == File(Record(rows))
    ensures forall i :: 0 <= i < |steps| && LastToWrite(steps, i) && steps[i].path != [".squared", "metadata.json"] ==>
      target + steps[i].path in t && t[target + steps[i].path] == File(Plain(steps[i].content))
    ensures forall q :: q in t && target <= q && t[q].File? ==>
      q == target + [".squared", "metadata.json"] || exists i :: 0 <= i < |steps| && steps[i].Write? && q == target + steps[i].path
  {
    forall i | 0 <= i < |steps| && LastToWrite(steps, i) && steps[i].path != RecordPath
      ensures target + steps[i].path in t && t[target + steps[i].path] == File(Plain(steps[i].content))
    {
      LastIs(steps, i);
    }
    forall q | q in t && target <= q && t[q].File?
      ensures q == target + RecordPath || exists i :: 0 <= i < |steps| && steps[i].Write? && q == target + steps[i].path
    {
      var w := q[|target|..];
      assert q == target + w;
      WrittenHaveContent(steps, w);
    }
  }

  /** What is promised of the rest of the tree and of the states on the way: nothing outside the target and the
      staging directory beside it changes, but for directories made on the way to the target; and until the last
      state nothing is at the target or below it. */
  lemma SafeMeans(t0: Tree, u: Tree, target: Path, history: seq<Tree>, h: nat)
    requires target != [] && Elsewhere(t0, u, target) && NeverSeen(history, h, target)
    ensures var staging := target[..|target| - 1] + ["." + target[|target| - 1] + ".squared-tmp"];
      && (forall q :: q in t0 && !(staging <= q) ==> q in u && u[q] == t0[q])
      && forall q :: q in u && q !in t0 ==> staging <= q || q <= target || target <= q
    ensures forall i, q :: h <= i < |history| && q in history[i] ==> !(target <= q)
  {
    forall i, q | h <= i < |history| && q in history[i]
      ensures !(target <= q)
    {
      assert Absent(history[i], target);
    }
  }

  /** A tree like any on a disk. */
  lemma TreesAreOk()
    ensures TreeOk(map[[] := Directory, ["home"] := Directory, ["home", "notes"] := File(Plain([1, 2, 3]))])
  {
    var t: Tree := map[[] := Directory, ["home"] := Directory, ["home", "notes"] := File(Plain([1, 2, 3]))];
    forall q | q in t && q != []
      ensures q[..|q| - 1] in t && t[q[..|q| - 1]].Directory?
    {
      assert q == ["home"] || q == ["home", "notes"];
      assert ["home"][..0] == [] && ["home", "notes"][..1] == ["home"];
    }
  }

  /** Building in staging so far. */
  ghost predicate Building(fs: Files, target: Path, h: nat, t0: Tree)
    requires target != []
    reads fs
  {
    Absent(fs.tree, target) && NeverSeen(fs.history, h, target) && h <= |fs.history| && Elsewhere(t0, fs.tree, target)
  }

  lemma KeepsBuilding(fs: Files, target: Path, h: nat, t0: Tree, t: Tree, n: nat, p: Path)
    requires target != [] && StagingFor(target) <= p && h <= n <= |fs.history|
    requires Absent(t, target) && NeverSeen(fs.history[..n], h, target) && Elsewhere(t0, t, target)
    requires forall i :: n <= i < |fs.history| ==> OnlyAdds(t, fs.history[i], p)
    requires n < |fs.history| && fs.history[|fs.history| - 1] == fs.tree
    ensures Building(fs, target, h, t0)
  {
    BesideTarget(target, p);
    forall i | h <= i < |fs.history|
      ensures Absent(fs.history[i], target)
    {
      if i < n {
        assert fs.history[..n][i] == fs.history[i];
      } else {
        AddsElsewhere(t, fs.history[i], p, target);
      }
    }
    ElsewhereAdds(t0, t, fs.tree, target, p);
  }

  lemma ElsewhereAdds(t0: Tree, t: Tree, u: Tree, target: Path, p: Path)
    requires target != [] && StagingFor(target) <= p && Elsewhere(t0, t, target) && OnlyAdds(t, u, p)
    ensures Elsewhere(t0, u, target)
  {
    var s := StagingFor(target);
    forall q | q in u && q !in t0 && !(s <= q)
      ensures q <= target || target <= q
    {
      if q !in t {
        OnTheWayOut(s, target, p, q);
      }
    }
  }

  /** A directory on the way into staging is staging's own or on the way to the target. */
  lemma OnTheWayOut(s: Path, target: Path, p: Path, q: Path)
    requires |s| == |target| > 0 && s[..|s| - 1] == target[..|s| - 1] && s <= p && q <= p && !(s <= q)
    ensures q <= target
  {
    Apart(s, q, p);
    assert |q| < |s| && q == s[..|q|] == s[..|s| - 1][..|q|] == target[..|q|];
  }

  /** One step of the plan, in staging. */
  method StageStep(fs: Files, target: Path, s: Step, ghost h: nat, ghost t0: Tree, ghost files: map<Path, Content>, ghost done: seq<Step>)
    returns (ok: bool)
    requires target != [] && s.path != [] && Building(fs, target, h, t0) && Holds(fs.tree, StagingFor(target), files)
    requires Stands(fs.tree, StagingFor(target), done)
    modifies fs
    ensures Building(fs, target, h, t0)
    ensures ok ==> Holds(fs.tree, StagingFor(target), if s.Write? then files[s.path := Plain(s.content)] else files)
    ensures ok ==> Stands(fs.tree, StagingFor(target), done + [s])
    ensures old(fs.Smooth()) ==> fs.Smooth() && (ok <==> Compatible(done, s))
  {
    hide Absent, Elsewhere, Holds, StagingFor, OnlyAdds, NeverSeen, WithDirs, Stands, Compatible, Writable, NoFileOnTheWay, Files.Smooth;
    var staging := StagingFor(target);
    var destination := staging + s.path;
    ghost var t, n := fs.tree, |fs.history|;
    Stageable(t, staging, done, s);
    if s.CreateDir? {
      DirsOnlyAdd(t, destination, destination);
      ok := fs.CreateDirectories(destination);
      assert fs.history[..n] == old(fs.history);
      KeepsBuilding(fs, target, h, t0, t, n, destination);
      if ok {
        HoldsAfterDir(t, staging, files, s.path);
        StandsAfterDir(t, staging, done, s);
      }
    } else {
      ok := fs.WriteFile(destination, Plain(s.content));
      assert fs.history[..n] == old(fs.history);
      KeepsBuilding(fs, target, h, t0, t, n, destination);
      if ok {
        HoldsAfterWrite(t, staging, files, s.path, Plain(s.content), fs.tree);
        StandsAfterWrite(t, staging, done, s, Plain(s.content), fs.tree);
      }
    }
  }

  /** The step loop: counters, hashes and files, until a call fails. */
  method StageAll(fs: Files, target: Path, steps: seq<Step>, hash: seq<byte> -> string, ghost h: nat, ghost t0: Tree)
    returns (ok: bool, directories: nat, files: nat, hashes: seq<(Path, string)>)
    requires target != [] && Building(fs, target, h, t0) && Holds(fs.tree, StagingFor(target), map[])
    requires Stands(fs.tree, StagingFor(target), []) && forall i :: 0 <= i < |steps| ==> steps[i].path != []
    modifies fs
    ensures Building(fs, target, h, t0)
    ensures ok ==> Holds(fs.tree, StagingFor(target), FilesOf(steps)) && hashes == HashesOf(steps, hash)
    ensures ok ==> directories == |set i: nat | i < |steps| && steps[i].CreateDir?|
    ensures ok ==> files == |set i: nat | i < |steps| && steps[i].Write?|
    ensures ok ==> Stands(fs.tree, StagingFor(target), steps)
    ensures old(fs.Smooth()) ==> fs.Smooth() && (ok <==> Fit(steps))
  {
    hide Absent, Elsewhere, Holds, StagingFor, NeverSeen, Stands, Fit, Compatible, Files.Smooth, Building, OfKind;
    ok, directories, files, hashes := true, 0, 0, [];
    NothingClashes();
    NoneOfKind();
    for i := 0 to |steps|
      invariant Building(fs, target, h, t0) && Holds(fs.tree, StagingFor(target), FilesOf(steps[..i]))
      invariant Stands(fs.tree, StagingFor(target), steps[..i]) && ok
      invariant old(fs.Smooth()) ==> fs.Smooth() && Fit(steps[..i])
      invariant hashes == HashesOf(steps[..i], hash)
      invariant directories == |OfKind(steps[..i], true)| && files == |OfKind(steps[..i], false)|
    {
      assert steps[..i + 1][..i] == steps[..i] && steps[..i + 1] == steps[..i] + [steps[i]];
      ok := StageStep(fs, target, steps[i], h, t0, FilesOf(steps[..i]), steps[..i]);
      FitSnoc(steps[..i], steps[i]);
      OneMoreOfKind(steps[..i], steps[i]);
      if !ok {
        FitAllTheWay(steps, i + 1);
        return;
      }
      if steps[i].CreateDir? {
        directories := directories + 1;
      } else {
        files := files + 1;
        hashes := hashes + [(steps[i].path, hash(steps[i].content))];
      }
    }
    assert steps[..|steps|] == steps;
    KindsOf(steps);
  }

  lemma NoneOfKind()
    ensures OfKind([], true) == OfKind([], false) == {}
  {
  }

  lemma NothingClashes()
    ensures Fit([])
  {
  }

  lemma FitAllTheWay(steps: seq<Step>, k: nat)
    requires k <= |steps|
    ensures Fit(steps) ==> Fit(steps[..k])
  {
    hide Fit;
    if Fit(steps) {
      FitPrefix(steps, k);
    }
  }

  /** Removing the staging tree after a failure; it may fail as well, which leaves the target absent all the same. */
  method Abort(fs: Files, target: Path, ghost h: nat, ghost t0: Tree)
    requires target != [] && Building(fs, target, h, t0)
    modifies fs
    ensures Building(fs, target, h, t0)
  {
    ghost var t := fs.tree;
    var ok := fs.RemoveAll(StagingFor(target));
    ghost var kept: set<Path> :| fs.tree == Without(t, StagingFor(target), kept);
    RemovedElsewhere(t, StagingFor(target), kept, target);
  }

  /** A directory above the target holds a record. */
  predicate InWorkspace(t: Tree, target: Path) {
    exists n: nat :: n < |target| && n > 0 && target[..n] + RecordPath in t
  }

  /** The workspaces the target might lie in: one of the directories above it holds a record. */
  method InsideWorkspace(fs: Files, target: Path) returns (nested: bool)
    requires target != []
    ensures nested <==> InWorkspace(fs.tree, target)
    ensures nested <==> exists n: nat :: 0 < n < |target| && target[..n] + [".squared", "metadata.json"] in fs.tree
  {
    nested := false;
    var n: nat := |target| - 1;
    while n > 0 && !nested
      invariant n < |target| && (nested ==> n > 0 && target[..n] + RecordPath in fs.tree)
      invariant !nested ==> forall k: nat :: n < k < |target| ==> target[..k] + RecordPath !in fs.tree
      decreases n, !nested
    {
      if target[..n] + RecordPath in fs.tree {
        nested := true;
      } else {
        n := n - 1;
      }
    }
  }

  lemma ElsewhereMoved(t0: Tree, t: Tree, target: Path)
    requires target != [] && Elsewhere(t0, t, target) && Absent(t, target)
    ensures Elsewhere(t0, Moved(t, StagingFor(target), target), target)
  {
  }

  lemma ElsewhereSelf(t: Tree, target: Path)
    requires target != []
    ensures Elsewhere(t, t, target)
  {
  }

  /** Clears what an interrupted run left, and makes the staging directory. */
  method PrepareStaging(fs: Files, target: Path, ghost h: nat, ghost t0: Tree) returns (ok: bool)
    requires target != [] && Building(fs, target, h, t0) && TreeOk(fs.tree)
    modifies fs
    ensures Building(fs, target, h, t0) && (ok ==> Holds(fs.tree, StagingFor(target), map[]) && Stands(fs.tree, StagingFor(target), []))
    ensures old(fs.Smooth()) ==> fs.Smooth() && (ok <==> NoFileOnTheWay(old(fs.tree), target[..|target| - 1]))
  {
    hide Holds, StagingFor, Elsewhere, NeverSeen, Stands, Files.Smooth, WithDirs, NoFileOnTheWay;
    var staging := StagingFor(target);
    ghost var t := fs.tree;
    if fs.Exists(staging) {
      ok := fs.RemoveAll(staging);
      ghost var kept: set<Path> :| fs.tree == Without(t, staging, kept) && (ok ==> kept == {});
      RemovedElsewhere(t, staging, kept, target);
      KeepsRemoved(fs, target, h, t0, t, kept);
      if !ok {
        return;
      }
      NothingKept(t, staging);
    } else {
      FreeIsAbsent(t, staging);
    }
    ghost var u, n := fs.tree, |fs.history|;
    WayToStaging(t, u, target);
    DirsOnlyAdd(u, staging, staging);
    ok := fs.CreateDirectories(staging);
    assert fs.history[..n] == old(fs.history) || fs.history[..n] == old(fs.history) + [u];
    KeepsBuilding(fs, target, h, t0, u, n, staging);
    if ok {
      HoldsNothing(u, staging);
      StandsNothing(u, staging);
    }
  }

  /** With nothing at the staging place, the way to it is the way to the target's parent. */
  lemma WayToStaging(t: Tree, u: Tree, target: Path)
    requires target != [] && Absent(u, StagingFor(target)) && (u == t || u == Without(t, StagingFor(target), {}))
    ensures NoFileOnTheWay(u, StagingFor(target)) <==> NoFileOnTheWay(t, target[..|target| - 1])
  {
    var s, n := StagingFor(target), |target| - 1;
    assert s !in u && s[..n + 1] == s && s[..n] == target[..n];
    forall i | 0 <= i <= n
      ensures s[..i] == target[..n][..i] && (s[..i] in u <==> s[..i] in t) && (s[..i] in u ==> u[s[..i]] == t[s[..i]])
    {
      assert s[..i] == s[..n][..i];
    }
  }

  lemma NothingKept(t: Tree, p: Path)
    ensures Absent(Without(t, p, {}), p)
  {
  }

  lemma KeepsRemoved(fs: Files, target: Path, h: nat, t0: Tree, t: Tree, kept: set<Path>)
    requires target != [] && |fs.history| > h && fs.history[|fs.history| - 1] == fs.tree == Without(t, StagingFor(target), kept)
    requires Absent(t, target) && NeverSeen(fs.history[..|fs.history| - 1], h, target) && Elsewhere(t0, t, target)
    ensures Building(fs, target, h, t0)
  {
    var n := |fs.history| - 1;
    RemovedElsewhere(t, StagingFor(target), kept, target);
    forall i | h <= i < |fs.history|
      ensures Absent(fs.history[i], target)
    {
      assert i < n ==> fs.history[..n][i] == fs.history[i];
    }
  }

  /** The record as a step, for what it is compatible with. */
  const RecordStep: Step := Write(RecordPath, [], Metadata)

  /** What a transaction needs if no call fails: a free target outside any workspace, no file among the
      directories above it, and steps that are not in each other's way or in that of the record. */
  predicate CanApply(t: Tree, target: Path, steps: seq<Step>)
    requires target != []
  {
    target !in t && !InWorkspace(t, target) && NoFileOnTheWay(t, target[..|target| - 1]) && Fit(steps + [RecordStep])
  }

  /** Stages every step and the record, and lands it all with one rename. */
  method Apply(fs: Files, target: Path, steps: seq<Step>, hash: seq<byte> -> string) returns (outcome: Outcome)
    requires target != [] && TreeOk(fs.tree) && forall i :: 0 <= i < |steps| ==> steps[i].path != []
    modifies fs
    ensures outcome.Exists? <==> target in old(fs.tree)
    ensures outcome.Nested? <==> target !in old(fs.tree) && InWorkspace(old(fs.tree), target)
    ensures outcome.Nested? <==>
      target !in old(fs.tree) && exists n: nat :: 0 < n < |target| && target[..n] + [".squared", "metadata.json"] in old(fs.tree)
    ensures outcome.Exists? || outcome.Nested? ==> fs.tree == old(fs.tree)
    ensures outcome.Failed? ==> Absent(fs.tree, target) && NeverSeen(fs.history, |old(fs.history)|, target)
    ensures outcome.Done? ==> |fs.history| > |old(fs.history)| && NeverSeen(fs.history[..|fs.history| - 1], |old(fs.history)|, target)
    ensures outcome.Done? ==> Absent(fs.tree, StagingFor(target)) && Landed(fs.tree, target, steps, outcome.rows)
    ensures outcome.Done? ==> outcome.rows == RowsOf(steps, hash)
    ensures outcome.Done? ==> outcome.directories == |set i: nat | i < |steps| && steps[i].CreateDir?|
    ensures outcome.Done? ==> outcome.files == |set i: nat | i < |steps| && steps[i].Write?| + 1
    ensures Elsewhere(old(fs.tree), fs.tree, target)
    ensures old(fs.Smooth()) ==> (outcome.Done? <==> CanApply(old(fs.tree), target, steps))
  {
    hide Absent, Elsewhere, Holds, StagingFor, NeverSeen, TreeOk, RowsOf, Files.Smooth, Fit, Stands, InWorkspace, NoFileOnTheWay;
    ghost var h, t0 := |fs.history|, fs.tree;
    ElsewhereSelf(t0, target);
    if fs.Exists(target) {
      return Exists;
    }
    FreeIsAbsent(t0, target);
    NoneSeen(fs.history, target);
    var nested := InsideWorkspace(fs, target);
    if nested {
      return Nested;
    }
    var ok := PrepareStaging(fs, target, h, t0);
    if !ok {
      return Failed;
    }
    FitSnoc(steps, RecordStep);
    var directories, files, hashes;
    ok, directories, files, hashes := StageAll(fs, target, steps, hash, h, t0);
    if !ok {
      Abort(fs, target, h, t0);
      return Failed;
    }
    var rows := BuildRows(steps, hashes, hash);
    ok := LandIt(fs, target, rows, h, t0, FilesOf(steps), steps);
    if !ok {
      return Failed;
    }
    outcome := Done(directories, files + 1, rows);
  }

  lemma NoneSeen(history: seq<Tree>, target: Path)
    ensures NeverSeen(history, |history|, target)
  {
  }

  /** Writes the record and renames staging to the target. */
  method LandIt(fs: Files, target: Path, rows: seq<Row>, ghost h: nat, ghost t0: Tree, ghost files: map<Path, Content>, ghost done: seq<Step>)
    returns (ok: bool)
    requires target != [] && Building(fs, target, h, t0) && Holds(fs.tree, StagingFor(target), files)
    requires Stands(fs.tree, StagingFor(target), done)
    modifies fs
    ensures Elsewhere(t0, fs.tree, target)
    ensures !ok ==> Building(fs, target, h, t0)
    ensures ok ==> |fs.history| > h && NeverSeen(fs.history[..|fs.history| - 1], h, target)
    ensures ok ==> Absent(fs.tree, StagingFor(target)) && Holds(fs.tree, target, files[RecordPath := Record(rows)])
    ensures old(fs.Smooth()) ==> (ok <==> Compatible(done, RecordStep))
  {
    hide Absent, Elsewhere, Holds, NeverSeen, Files.Smooth, Compatible, Stands, WithDirs;
    var staging := StagingFor(target);
    ghost var t, n := fs.tree, |fs.history|;
    Stageable(t, staging, done, RecordStep);
    ok := fs.WriteFile(staging + RecordPath, Record(rows));
    assert fs.history[..n] == old(fs.history);
    KeepsBuilding(fs, target, h, t0, t, n, staging + RecordPath);
    if ok {
      HoldsAfterWrite(t, staging, files, RecordPath, Record(rows), fs.tree);
      ghost var u, seen := fs.tree, fs.history;
      AbsentIsFree(u, target);
      ok := fs.Rename(staging, target);
      if ok {
        OnePrefix(staging, target, target);
        OnePrefix(staging, target, staging);
        HoldsAfterRename(u, staging, target, files[RecordPath := Record(rows)]);
        ElsewhereMoved(t0, u, target);
        assert fs.history[..|fs.history| - 1] == seen;
        return;
      }
      StillBuilding(fs, target, h, t0, seen);
    }
    Abort(fs, target, h, t0);
  }

  lemma AbsentIsFree(t: Tree, p: Path)
    requires Absent(t, p)
    ensures p !in t
  {
  }

  lemma StillBuilding(fs: Files, target: Path, h: nat, t0: Tree, seen: seq<Tree>)
    requires target != [] && Absent(fs.tree, target) && NeverSeen(seen, h, target) && h <= |seen| && Elsewhere(t0, fs.tree, target)
    requires fs.history == seen + [fs.tree]
    ensures Building(fs, target, h, t0)
  {
  }
}
